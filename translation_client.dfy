/** The translation client: one request to the inference backend per attempt,
    code-fence stripping of the reply, and a bounded retry when the reply is
    not JSON. The backend and json.loads are an oracle (Service). */
module TranslationClient {
  import opened Jsonl

  // ---------------------------------------------------------------------------
  // Cleaning the reply text

  /** The whitespace str.strip() removes, restricted to ASCII. */
  predicate IsSpace(c: char)
  {
    c == ' ' || c == '\t' || c == '\n' || c == '\r' || c == '\U{B}' || c == '\U{C}' || '\U{1C}' <= c <= '\U{1F}'
  }

  /** str.lstrip(). */
  function TrimStart(s: string): string
    decreases |s|
  {
    if |s| > 0 && IsSpace(s[0]) then TrimStart(s[1..]) else s
  }

  /** str.rstrip(). */
  function TrimEnd(s: string): string
    decreases |s|
  {
    if |s| > 0 && IsSpace(s[|s| - 1]) then TrimEnd(s[..|s| - 1]) else s
  }

  /** str.strip(). */
  function Trim(s: string): string
  {
    TrimEnd(TrimStart(s))
  }

  /** lstrip removes exactly the leading whitespace: what is left is a suffix
      that does not start with whitespace, and everything before it is. */
  lemma {:induction false} TrimStartSpec(s: string)
    ensures var r := TrimStart(s);
      && |r| <= |s| && r == s[|s| - |r|..]
      && (|r| > 0 ==> !IsSpace(r[0]))
      && (forall i :: 0 <= i < |s| - |r| ==> IsSpace(s[i]))
    decreases |s|
  {
    if |s| > 0 && IsSpace(s[0]) {
      TrimStartSpec(s[1..]);
    }
  }

  /** rstrip removes exactly the trailing whitespace. */
  lemma {:induction false} TrimEndSpec(s: string)
    ensures var r := TrimEnd(s);
      && |r| <= |s| && r == s[..|r|]
      && (|r| > 0 ==> !IsSpace(r[|r| - 1]))
      && (forall i :: |r| <= i < |s| ==> IsSpace(s[i]))
    decreases |s|
  {
    if |s| > 0 && IsSpace(s[|s| - 1]) {
      TrimEndSpec(s[..|s| - 1]);
    }
  }

  /** strip(): the result neither starts nor ends with whitespace, keeps only
      characters of s, and a string already trimmed is left alone. */
  lemma TrimSpec(s: string)
    ensures var r := Trim(s);
      && (|r| > 0 ==> !IsSpace(r[0]) && !IsSpace(r[|r| - 1]))
      && (forall c :: c in r ==> c in s)
      && ((|s| == 0 || (!IsSpace(s[0]) && !IsSpace(s[|s| - 1]))) ==> r == s)
  {
    var t := TrimStart(s);
    TrimStartSpec(s);
    TrimEndSpec(t);
    var r := TrimEnd(t);
    if |r| > 0 {
      assert r[0] == t[0];
    }
    forall c | c in r ensures c in s {
      var i :| 0 <= i < |r| && r[i] == c;
      assert t[i] == c;
      assert s[|s| - |t| + i] == c;
    }
  }

  /** pat occurs somewhere in s. */
  predicate Occurs(pat: string, s: string)
    decreases |s|
  {
    |pat| <= |s| && (s[..|pat|] == pat || (|s| > 0 && Occurs(pat, s[1..])))
  }

  /** s.replace(pat, ""): deletes the non-overlapping occurrences of pat met
      while scanning s from the left. */
  function RemoveAll(s: string, pat: string): (r: string)
    requires |pat| > 0
    ensures |r| <= |s|
    ensures |r| == |s| || |r| <= |s| - |pat|
    decreases |s|
  {
    if |s| < |pat| then s
    else if s[..|pat|] == pat then RemoveAll(s[|pat|..], pat)
    else [s[0]] + RemoveAll(s[1..], pat)
  }

  lemma {:induction false} RemoveAllAbsent(s: string, pat: string)
    requires |pat| > 0 && !Occurs(pat, s)
    ensures RemoveAll(s, pat) == s
    decreases |s|
  {
    if |s| >= |pat| {
      RemoveAllAbsent(s[1..], pat);
    }
  }

  lemma {:induction false} AbsentWithoutFirstChar(s: string, pat: string)
    requires |pat| > 0 && pat[0] !in s
    ensures !Occurs(pat, s)
    decreases |s|
  {
    if |s| >= |pat| {
      assert s[..|pat|][0] == s[0];
      AbsentWithoutFirstChar(s[1..], pat);
    }
  }

  /** replace keeps every character before the first possible start of pat. */
  lemma {:induction false} RemoveAllKeepsPrefix(a: string, b: string, pat: string)
    requires |pat| > 0 && pat[0] !in a
    ensures RemoveAll(a + b, pat) == a + RemoveAll(b, pat)
    decreases |a|
  {
    if |a| > 0 {
      var s := a + b;
      assert s[0] == a[0] && s[1..] == a[1..] + b;
      RemoveAllKeepsPrefix(a[1..], b, pat);
      if |s| >= |pat| {
        assert s[..|pat|][0] == a[0];
        assert RemoveAll(s, pat) == [a[0]] + RemoveAll(a[1..] + b, pat);
      } else {
        assert RemoveAll(b, pat) == b;
      }
      assert [a[0]] + (a[1..] + RemoveAll(b, pat)) == a + RemoveAll(b, pat);
    } else {
      assert a + b == b;
    }
  }

  const Fence: string := "```"
  const JsonFence: string := "```json"

  /** content.strip().replace("```json", "").replace("```", ""). */
  function Unfence(raw: string): string
  {
    RemoveAll(RemoveAll(Trim(raw), JsonFence), Fence)
  }

  /** A reply without backticks is changed only by trimming. */
  lemma UnfenceWithoutBackticks(raw: string)
    requires '`' !in raw
    ensures Unfence(raw) == Trim(raw)
  {
    var t := Trim(raw);
    TrimSpec(raw);
    AbsentWithoutFirstChar(t, JsonFence);
    RemoveAllAbsent(t, JsonFence);
    AbsentWithoutFirstChar(t, Fence);
    RemoveAllAbsent(t, Fence);
  }

  /** A body without backticks fenced as ```json ... ``` comes back as it is. */
  lemma UnfenceFenced(x: string)
    requires '`' !in x
    ensures Unfence(JsonFence + x + Fence) == x
  {
    var s := JsonFence + x + Fence;
    assert s[0] == '`' && s[|s| - 1] == '`';
    assert Trim(s) == s;
    assert s[..|JsonFence|] == JsonFence;
    assert s[|JsonFence|..] == x + Fence;
    RemoveAllKeepsPrefix(x, Fence, JsonFence);
    assert RemoveAll(Fence, JsonFence) == Fence;
    RemoveAllKeepsPrefix(x, Fence, Fence);
    assert Fence[..|Fence|] == Fence;
  }

  lemma KeepsFirstChar(v: string)
    requires |v| > 0 && v[0] != '`'
    ensures |RemoveAll(v, Fence)| > 0 && RemoveAll(v, Fence)[0] == v[0]
  {
    if |v| >= 3 {
      assert v[..3][0] == v[0];
    }
  }

  lemma NoDoubleTickAfterRemoval(u: string)
    requires !(|u| >= 2 && u[0] == '`' && u[1] == '`')
    ensures var r := RemoveAll(u, Fence); !(|r| >= 2 && r[0] == '`' && r[1] == '`')
  {
    if |u| >= 3 {
      assert u[..3][0] == u[0] && u[..3][1] == u[1];
      if u[0] == '`' {
        KeepsFirstChar(u[1..]);
      }
    }
  }

  /** After .replace("```", "") no triple backtick is left: the left-to-right
      scan never lets the pieces around a deleted fence join into a new one. */
  lemma {:induction false} NoFenceAfterRemoval(s: string)
    ensures !Occurs(Fence, RemoveAll(s, Fence))
    decreases |s|
  {
    if |s| < 3 {
    } else if s[..3] == Fence {
      NoFenceAfterRemoval(s[3..]);
    } else {
      var t := RemoveAll(s[1..], Fence);
      assert RemoveAll(s, Fence) == [s[0]] + t;
      NoFenceAfterRemoval(s[1..]);
      assert s[..3][1] == s[1] && s[..3][2] == s[2] && s[..3][0] == s[0];
      if s[0] == '`' {
        NoDoubleTickAfterRemoval(s[1..]);
      }
      assert ([s[0]] + t)[1..] == t;
      if |[s[0]] + t| >= 3 {
        var w := ([s[0]] + t)[..3];
        assert w[0] == s[0] && w[1] == t[0] && w[2] == t[1];
      }
    }
  }

  /** The cleaned text holds neither a ```json nor a ``` fence. */
  lemma UnfenceLeavesNoFence(raw: string)
    ensures !Occurs(Fence, Unfence(raw))
    ensures !Occurs(JsonFence, Unfence(raw))
  {
    var u := Unfence(raw);
    NoFenceAfterRemoval(RemoveAll(Trim(raw), JsonFence));
    if Occurs(JsonFence, u) {
      PrefixOccurs(Fence, JsonFence, u);
    }
  }

  lemma {:induction false} PrefixOccurs(p: string, q: string, s: string)
    requires |p| <= |q| && q[..|p|] == p
    requires Occurs(q, s)
    ensures Occurs(p, s)
    decreases |s|
  {
    if s[..|q|] == q {
      assert s[..|p|] == s[..|q|][..|p|];
    } else {
      PrefixOccurs(p, q, s[1..]);
    }
  }

  // ---------------------------------------------------------------------------
  // The backend as an oracle

  /** What the client sees of the inference backend: reply(batch, n) is the
      text of the run's n-th chat completion, whose prompt carries batch; parse
      is json.loads, None standing for a JSONDecodeError. */
  datatype Service = Service(reply: (seq<Json>, nat) -> string, parse: string -> Option<Json>)

  /** The outcome of one attempt. */
  datatype Attempt = NotJson | NotArray | Array(items: seq<Json>)

  /** json.loads, then isinstance(parsed, list): NotJson exactly for a
      JSONDecodeError, Array exactly for a list, whose elements it keeps. */
  function Classify(parsed: Option<Json>): (a: Attempt)
    ensures a.NotJson? <==> parsed.None?
    ensures a.Array? <==> parsed.Some? && parsed.value.JArr?
    ensures a.Array? ==> parsed == Some(JArr(a.items))
  {
    match parsed
    case None => NotJson
    case Some(JArr(items)) => Array(items)
    case Some(_) => NotArray
  }

  /** The outcome of the request numbered call for batch. */
  function AttemptAt(svc: Service, batch: seq<Json>, call: nat): Attempt
  {
    Classify(svc.parse(Unfence(svc.reply(batch, call))))
  }

  /** The outcome of every attempt a run can make: att(batch, n) is what the
      run's n-th request, carrying batch, comes back as. The retry wrapper and
      the drivers only ever see a backend through these outcomes. */
  type Outcomes = (seq<Json>, nat) -> Attempt

  /** The outcomes a service gives once its replies are unfenced and parsed. */
  function Attempts(svc: Service): Outcomes
  {
    (batch: seq<Json>, call: nat) => AttemptAt(svc, batch, call)
  }

  /** The value translate_batch returns and how many requests it made. */
  datatype Translated = Translated(value: Json, calls: nat)

  /** translate_batch(batch) when its first request is the run's call-th:
      an array answer is returned as it is and any other JSON value gives []
      at once; a reply that is not JSON is retried once, after which the
      second outcome decides in the same way, and a second reply that is not
      JSON gives []. */
  function Translation(att: Outcomes, batch: seq<Json>, call: nat): Translated
  {
    match att(batch, call)
    case Array(xs) => Translated(JArr(xs), 1)
    case NotArray => Translated(JArr([]), 1)
    case NotJson =>
      match att(batch, call + 1)
      case Array(xs) => Translated(JArr(xs), 2)
      case _ => Translated(JArr([]), 2)
  }

  /** What translate_batch promises: it always yields a list and makes one
      request or two, the second exactly when the first reply is not JSON;
      the result is the last reply's array unchanged, on either attempt, and
      [] when the last reply is not an array. */
  lemma TranslationRetriesOnce(att: Outcomes, batch: seq<Json>, call: nat)
    ensures Translation(att, batch, call).value.JArr?
    ensures 1 <= Translation(att, batch, call).calls <= 2
    ensures Translation(att, batch, call).calls == 2 <==> att(batch, call).NotJson?
    ensures var last := att(batch, call + Translation(att, batch, call).calls - 1);
              Translation(att, batch, call).value.items == (if last.Array? then last.items else [])
    ensures att(batch, call).Array? ==> Translation(att, batch, call).value.items == att(batch, call).items
  {
  }

  /** The retry loop of translate_batch. Returns the parsed list and the
      number of the next request of the run. */
  method TranslateBatch(svc: Service, batch: seq<Json>, call: nat) returns (result: Json, next: nat)
    ensures next >= call && Translation(Attempts(svc), batch, call) == Translated(result, next - call)
  {
    for attempt := 0 to 2
      invariant attempt <= 1
      invariant attempt == 1 ==> AttemptAt(svc, batch, call).NotJson?
    {
      var content := Unfence(svc.reply(batch, call + attempt));
      var parsed := svc.parse(content);
      if parsed.None? {
        // JSONDecodeError: retry once, then give up on the batch
        if attempt == 1 {
          return JArr([]), call + 2;
        }
      } else if !parsed.value.JArr? {
        // "Response is not a JSON array."
        return JArr([]), call + attempt + 1;
      } else {
        return parsed.value, call + attempt + 1;
      }
    }
    assert false;
  }

  /** The reply holds an array of exactly n objects. */
  predicate Answers(a: Attempt, n: nat)
  {
    a.Array? && |a.items| == n && forall j :: 0 <= j < n ==> a.items[j].JObj?
  }

  /** Request call for batch is answered, at once, with an array of as many
      objects as the batch holds. */
  ghost predicate AnsweredAt(att: Outcomes, batch: seq<Json>, call: nat)
  {
    Answers(att(batch, call), |batch|)
  }

  /** The backend answers every request, at the first attempt, with an array
      of as many objects as it was sent. */
  ghost predicate FaultFree(att: Outcomes)
  {
    forall batch, call :: AnsweredAt(att, batch, call)
  }

  /** Request call for batch is not answered with more elements than sent. */
  ghost predicate ShortAt(att: Outcomes, batch: seq<Json>, call: nat)
  {
    att(batch, call).Array? ==> |att(batch, call).items| <= |batch|
  }

  /** The backend never returns more elements than it was sent. */
  ghost predicate NeverLonger(att: Outcomes)
  {
    forall batch, call :: ShortAt(att, batch, call)
  }

  lemma FaultFreeNeverLonger(att: Outcomes)
    requires FaultFree(att)
    ensures NeverLonger(att)
  {
    forall batch, call ensures ShortAt(att, batch, call) {
      assert AnsweredAt(att, batch, call);
    }
  }

  /** Against a fault-free backend one request is made and its objects come
      back as the result. */
  lemma FaultFreeTranslation(att: Outcomes, batch: seq<Json>, call: nat)
    requires FaultFree(att)
    ensures AnsweredAt(att, batch, call)
    ensures Translation(att, batch, call).calls == 1
    ensures Translation(att, batch, call).value == JArr(att(batch, call).items)
    ensures Answers(Array(Translation(att, batch, call).value.items), |batch|)
  {
    assert AnsweredAt(att, batch, call);
  }

  /** A translation never holds more elements than the backend may send back. */
  lemma TranslationNeverLonger(att: Outcomes, batch: seq<Json>, call: nat)
    requires NeverLonger(att)
    ensures |Translation(att, batch, call).value.items| <= |batch|
  {
    assert ShortAt(att, batch, call);
    assert ShortAt(att, batch, call + 1);
  }
}
