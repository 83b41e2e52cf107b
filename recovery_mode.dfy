/** Recovery mode: read every line of the output file, collect the integer
    indices present and the line numbers of malformed lines, and re-translate,
    one record at a time and in ascending order, every index that is missing
    together with every malformed line number. */
module RecoveryMode {
  import opened Jsonl
  import opened TranslationClient
  import opened NormalMode

  // ---------------------------------------------------------------------------
  // Classifying the lines of the output file

  /** valid_indices after the first k lines: the integer "index" of every
      line that has one (a JSON true or false counts as 1 or 0). */
  function ValidUpTo(ls: seq<Line>, k: nat): set<int>
    requires k <= |ls|
  {
    if k == 0 then {}
    else ValidUpTo(ls, k - 1) + (match LineIndex(ls[k - 1]) case Some(x) => {x} case None => {})
  }

  /** malformed_indices after the first k lines: the 1-based line numbers of
      the lines that do not parse, are not objects, or have no integer
      "index". */
  function MalformedUpTo(ls: seq<Line>, k: nat): set<int>
    requires k <= |ls|
  {
    if k == 0 then {}
    else MalformedUpTo(ls, k - 1) + (if LineIndex(ls[k - 1]).None? then {k} else {})
  }

  function Valid(ls: seq<Line>): set<int>
  {
    ValidUpTo(ls, |ls|)
  }

  function Malformed(ls: seq<Line>): set<int>
  {
    MalformedUpTo(ls, |ls|)
  }

  /** x is a valid index exactly when one of the first k lines records it. */
  lemma {:induction false} ValidUpToMeans(ls: seq<Line>, k: nat, x: int)
    requires k <= |ls|
    ensures x in ValidUpTo(ls, k) <==> exists j :: 0 <= j < k && LineIndex(ls[j]) == Some(x)
    decreases k
  {
    if k > 0 {
      ValidUpToMeans(ls, k - 1, x);
      if LineIndex(ls[k - 1]) == Some(x) {
        assert x in ValidUpTo(ls, k);
      }
    }
  }

  /** A line number is malformed exactly when that line has no integer index. */
  lemma {:induction false} MalformedUpToMeans(ls: seq<Line>, k: nat, x: int)
    requires k <= |ls|
    ensures x in MalformedUpTo(ls, k) <==> 1 <= x <= k && LineIndex(ls[x - 1]).None?
    decreases k
  {
    if k > 0 {
      MalformedUpToMeans(ls, k - 1, x);
    }
  }

  /** Every line is counted once: as the index it records, or by its line
      number as malformed. */
  lemma ClassifiedLines(ls: seq<Line>, j: nat)
    requires j < |ls|
    ensures LineIndex(ls[j]).Some? ==> LineIndex(ls[j]).value in Valid(ls)
    ensures LineIndex(ls[j]).None? <==> j + 1 in Malformed(ls)
  {
    if LineIndex(ls[j]).Some? {
      ValidUpToMeans(ls, |ls|, LineIndex(ls[j]).value);
    }
    MalformedUpToMeans(ls, |ls|, j + 1);
  }

  /** The classification loop of recovery mode. */
  method ClassifyLines(lines: seq<Line>) returns (valid: set<int>, malformed: set<int>)
    ensures valid == Valid(lines) && malformed == Malformed(lines)
  {
    valid, malformed := {}, {};
    for k := 0 to |lines|
      invariant valid == ValidUpTo(lines, k) && malformed == MalformedUpTo(lines, k)
    {
      var lineNum := k + 1;
      match LineIndex(lines[k]) {
        case Some(x) => valid := valid + {x};
        case None => malformed := malformed + {lineNum};
      }
    }
  }

  // ---------------------------------------------------------------------------
  // The records to recover

  /** x belongs to missing_indices.union(malformed_indices) for a data set of
      n records. */
  predicate IsTarget(x: int, valid: set<int>, malformed: set<int>, n: int)
  {
    (1 <= x <= n && x !in valid) || x in malformed
  }

  /** The targets among 1..b, in ascending order. */
  function SortedTargets(valid: set<int>, malformed: set<int>, n: int, b: nat): seq<int>
  {
    if b == 0 then []
    else SortedTargets(valid, malformed, n, b - 1) + (if IsTarget(b, valid, malformed, n) then [b] else [])
  }

  predicate StrictlyIncreasing(xs: seq<int>)
  {
    forall a, b :: 0 <= a < b < |xs| ==> xs[a] < xs[b]
  }

  /** SortedTargets lists the targets in 1..b, each once and in ascending order. */
  lemma {:induction false} SortedTargetsSpec(valid: set<int>, malformed: set<int>, n: int, b: nat)
    ensures var ts := SortedTargets(valid, malformed, n, b);
      && StrictlyIncreasing(ts)
      && (forall j :: 0 <= j < |ts| ==> 1 <= ts[j] <= b)
      && (forall x :: x in ts <==> 1 <= x <= b && IsTarget(x, valid, malformed, n))
    decreases b
  {
    if b > 0 {
      SortedTargetsSpec(valid, malformed, n, b - 1);
      var front := SortedTargets(valid, malformed, n, b - 1);
      var ts := SortedTargets(valid, malformed, n, b);
      if IsTarget(b, valid, malformed, n) {
        assert ts == front + [b];
        forall x ensures x in ts <==> x in front || x == b {
          if x == b { assert ts[|front|] == b; }
        }
      } else {
        assert ts == front;
      }
    }
  }

  /** The first element of an ascending sequence is its least. */
  lemma FirstIsLeast(xs: seq<int>)
    requires StrictlyIncreasing(xs) && |xs| > 0
    ensures forall j :: 0 <= j < |xs| ==> xs[0] <= xs[j]
  {
    forall j | 0 < j < |xs| ensures xs[0] <= xs[j] {
      assert xs[0] < xs[j];
    }
  }

  /** What a non-empty sequence holds, a sequence holding at least as much
      holds too; so it is not empty. */
  lemma NonEmptyListing(a: seq<int>, b: seq<int>)
    requires |a| > 0 && forall x :: x in a ==> x in b
    ensures |b| > 0
  {
    var y := a[0];
    assert y in a;
    assert y in b;
  }

  /** Two ascending listings of one set start with the same, least, element. */
  lemma SameLeast(xs: seq<int>, ys: seq<int>)
    requires StrictlyIncreasing(xs) && StrictlyIncreasing(ys) && |xs| > 0 && |ys| > 0
    requires forall x :: x in xs <==> x in ys
    ensures xs[0] == ys[0]
  {
    var x0, y0 := xs[0], ys[0];
    assert x0 in xs && y0 in ys;
    var i :| 0 <= i < |ys| && ys[i] == x0;
    var j :| 0 <= j < |xs| && xs[j] == y0;
    FirstIsLeast(xs);
    FirstIsLeast(ys);
    assert xs[0] <= xs[j] && ys[0] <= ys[i];
  }

  /** Below a shared least element, a member of the tail of one listing is in
      the tail of the other. */
  lemma TailMember(xs: seq<int>, ys: seq<int>, x: int)
    requires StrictlyIncreasing(xs) && StrictlyIncreasing(ys) && |xs| > 0 && |ys| > 0
    requires forall z :: z in xs <==> z in ys
    requires xs[0] == ys[0] && x in xs[1..]
    ensures x in ys[1..]
  {
    var xt, yt := xs[1..], ys[1..];
    var a :| 0 <= a < |xt| && xt[a] == x;
    assert xs[a + 1] == x && xs[0] < xs[a + 1];
    assert x in ys;
    var c :| 0 <= c < |ys| && ys[c] == x;
    assert c != 0;
    assert yt[c - 1] == x;
  }

  /** Two ascending listings of the same set are the same sequence: a set has
      exactly one sorted listing, which is what sorted(list(...)) produces. */
  lemma {:induction false} SortedListingUnique(xs: seq<int>, ys: seq<int>)
    requires StrictlyIncreasing(xs) && StrictlyIncreasing(ys)
    requires forall x :: x in xs <==> x in ys
    ensures xs == ys
    decreases |xs|
  {
    if |xs| > 0 {
      NonEmptyListing(xs, ys);
    }
    if |ys| > 0 {
      NonEmptyListing(ys, xs);
    }
    if |xs| > 0 {
      SameLeast(xs, ys);
      var xt, yt := xs[1..], ys[1..];
      forall x ensures x in xt <==> x in yt {
        if x in xt {
          TailMember(xs, ys, x);
        }
        if x in yt {
          TailMember(ys, xs, x);
        }
      }
      SortedListingUnique(xt, yt);
      assert xs == [xs[0]] + xt && ys == [ys[0]] + yt;
    }
  }

  /** to_recover for an output file holding lines and a data set of n records:
      every target is a missing index in 1..n or a malformed line number in
      1..|lines|, so listing 1..max(n, |lines|) in order finds them all. */
  function RecoveryTargets(lines: seq<Line>, n: nat): seq<int>
  {
    SortedTargets(Valid(lines), Malformed(lines), n, Max(n, |lines|))
  }

  /** to_recover is sorted(({1..n} - valid) | malformed): strictly ascending,
      so free of duplicates, and holding exactly the missing indices and the
      malformed line numbers. */
  lemma RecoveryTargetsSpec(lines: seq<Line>, n: nat)
    ensures StrictlyIncreasing(RecoveryTargets(lines, n))
    ensures forall j :: 0 <= j < |RecoveryTargets(lines, n)| ==> RecoveryTargets(lines, n)[j] >= 1
    ensures forall x :: x in RecoveryTargets(lines, n) <==>
              (1 <= x <= n && x !in Valid(lines)) || x in Malformed(lines)
  {
    SortedTargetsSpec(Valid(lines), Malformed(lines), n, Max(n, |lines|));
    forall x | x in Malformed(lines) ensures 1 <= x <= |lines| {
      MalformedUpToMeans(lines, |lines|, x);
    }
  }

  /** Any ascending, duplicate-free listing of the targets is to_recover. */
  lemma RecoveryTargetsAreSorted(lines: seq<Line>, n: nat, ys: seq<int>)
    requires StrictlyIncreasing(ys)
    requires forall x :: x in ys <==> (1 <= x <= n && x !in Valid(lines)) || x in Malformed(lines)
    ensures ys == RecoveryTargets(lines, n)
  {
    RecoveryTargetsSpec(lines, n);
    SortedListingUnique(ys, RecoveryTargets(lines, n));
  }

  /** Without malformed lines the targets are exactly the missing indices. */
  lemma TargetsWithoutMalformed(lines: seq<Line>, n: nat)
    requires forall j :: 0 <= j < |lines| ==> LineIndex(lines[j]).Some?
    ensures forall x :: x in RecoveryTargets(lines, n) <==> 1 <= x <= n && x !in Valid(lines)
  {
    RecoveryTargetsSpec(lines, n);
    forall x | x in Malformed(lines) ensures false {
      MalformedUpToMeans(lines, |lines|, x);
    }
  }

  /** The quirk of using line numbers as record positions. A file holding
      record 2 on line 1 and an unreadable line 2, for two records: record 1
      is missing, and line 2 is malformed, so record 2 is translated again
      although it is already present. Three unreadable lines for one record
      make the targets 1, 2, 3, of which 2 and 3 are not records at all. */
  lemma MalformedLineNumbersAreTargets()
    ensures RecoveryTargets([Parsed(JObj(map[IndexKey := JInt(2)])), Unparseable], 2) == [1, 2]
    ensures RecoveryTargets([Unparseable, Unparseable, Unparseable], 1) == [1, 2, 3]
  {
    var f := [Parsed(JObj(map[IndexKey := JInt(2)])), Unparseable];
    assert LineIndex(f[0]) == Some(2) && LineIndex(f[1]) == None;
    assert ValidUpTo(f, 1) == {2};
    assert ValidUpTo(f, 2) == {2};
    assert MalformedUpTo(f, 1) == {};
    assert MalformedUpTo(f, 2) == {2};
    assert SortedTargets({2}, {2}, 2, 1) == [1];
    var g := [Unparseable, Unparseable, Unparseable];
    assert LineIndex(g[0]) == None && LineIndex(g[1]) == None && LineIndex(g[2]) == None;
    assert ValidUpTo(g, 1) == {} && ValidUpTo(g, 2) == {} && ValidUpTo(g, 3) == {};
    assert MalformedUpTo(g, 1) == {1} && MalformedUpTo(g, 2) == {1, 2} && MalformedUpTo(g, 3) == {1, 2, 3};
    assert SortedTargets({}, {1, 2, 3}, 1, 1) == [1];
    assert SortedTargets({}, {1, 2, 3}, 1, 2) == [1, 2];
  }

  // ---------------------------------------------------------------------------
  // Re-translating the targets

  /** Python's s[k] with IndexError as None; a negative k counts from the end. */
  function PyIndex<T>(s: seq<T>, k: int): (r: Option<T>)
    ensures 0 <= k < |s| ==> r == Some(s[k])
    ensures (k >= |s| || k < -|s|) ==> r.None?
  {
    if 0 <= k < |s| then Some(s[k])
    else if -|s| <= k < 0 then Some(s[|s| + k])
    else None
  }

  /** The line written for target idx once translate_batch([item]) returned:
      the first element when the list is not empty and that element is an
      object, stamped with idx; nothing otherwise. */
  function RecoveredLines(att: Outcomes, item: Json, idx: int, call: nat): seq<Line>
  {
    var items := Translation(att, [item], call).value.items;
    if |items| > 0 && items[0].JObj? then [Stamped(items[0].fields, idx)] else []
  }

  /** A turn of the recovery loop as a value: retry(item, idx, call) is what
      re-translating the record item for target idx yields. */
  type Retry = (Json, int, nat) -> Written

  function Retranslate(att: Outcomes): Retry
  {
    (item: Json, idx: int, call: nat) =>
      Written(RecoveredLines(att, item, idx, call), call + Translation(att, [item], call).calls)
  }

  /** What the recovery loop appends from the j-th target on: a target whose
      position idx - 1 is not in the data raises IndexError and is skipped
      without a request. */
  function RecoverFrom(retry: Retry, data: seq<Json>, targets: seq<int>, j: nat, call: nat): seq<Line>
    decreases |targets| - j
  {
    if j >= |targets| then []
    else
      match PyIndex(data, targets[j] - 1)
      case None => RecoverFrom(retry, data, targets, j + 1, call)
      case Some(item) =>
        var turn := retry(item, targets[j], call);
        turn.lines + RecoverFrom(retry, data, targets, j + 1, turn.next)
  }

  /** What a recovery run appends to an output file holding lines. */
  function RecoveryAppends(att: Outcomes, data: seq<Json>, lines: seq<Line>): seq<Line>
  {
    RecoverFrom(Retranslate(att), data, RecoveryTargets(lines, |data|), 0, 0)
  }

  /** Each turn writes nothing or one line carrying its target. */
  ghost predicate AtMostTheTarget(retry: Retry)
  {
    forall item, idx, call :: retry(item, idx, call).lines == [] || IndexedRun(retry(item, idx, call).lines, idx, idx + 1)
  }

  /** Each turn writes exactly one line carrying its target. */
  ghost predicate AlwaysTheTarget(retry: Retry)
  {
    forall item, idx, call :: IndexedRun(retry(item, idx, call).lines, idx, idx + 1)
  }

  lemma RetranslateAtMostTheTarget(att: Outcomes)
    ensures AtMostTheTarget(Retranslate(att))
  {
  }

  lemma RetranslateFaultFree(att: Outcomes)
    requires FaultFree(att)
    ensures AlwaysTheTarget(Retranslate(att))
  {
    forall item, idx, call ensures IndexedRun(Retranslate(att)(item, idx, call).lines, idx, idx + 1) {
      FaultFreeTranslation(att, [item], call);
    }
  }

  /** The turn for the j-th target followed by the rest. */
  lemma RecoverFromUnfold(retry: Retry, data: seq<Json>, targets: seq<int>, j: nat, call: nat)
    requires j < |targets|
    ensures PyIndex(data, targets[j] - 1).None? ==>
              RecoverFrom(retry, data, targets, j, call) == RecoverFrom(retry, data, targets, j + 1, call)
    ensures PyIndex(data, targets[j] - 1).Some? ==>
              var turn := retry(PyIndex(data, targets[j] - 1).value, targets[j], call);
              RecoverFrom(retry, data, targets, j, call) == turn.lines + RecoverFrom(retry, data, targets, j + 1, turn.next)
  {
  }

  /** Targets from position j on are ascending and at least lo >= 1. */
  predicate AscendingFrom(targets: seq<int>, j: nat, lo: int)
  {
    1 <= lo && StrictlyIncreasing(targets) && (j < |targets| ==> lo <= targets[j])
  }

  /** The recovery loop appends strictly increasing indices inside lo..n,
      for any backend: a target above n is skipped, and no index is written
      twice because the targets ascend. */
  lemma {:induction false} RecoverFromIncreasing(retry: Retry, data: seq<Json>, targets: seq<int>, j: nat, call: nat, lo: int)
    requires AtMostTheTarget(retry) && AscendingFrom(targets, j, lo)
    ensures IncreasingRun(RecoverFrom(retry, data, targets, j, call), lo, |data| + 1)
    decreases |targets| - j
  {
    if j < |targets| {
      var idx := targets[j];
      RecoverFromUnfold(retry, data, targets, j, call);
      if j + 1 < |targets| {
        assert targets[j] < targets[j + 1];
      }
      match PyIndex(data, idx - 1)
      case None =>
        RecoverFromIncreasing(retry, data, targets, j + 1, call, lo);
      case Some(item) =>
        var turn := retry(item, idx, call);
        var r := RecoverFrom(retry, data, targets, j + 1, turn.next);
        RecoverFromIncreasing(retry, data, targets, j + 1, turn.next, idx + 1);
        assert turn.lines == [] || IndexedRun(turn.lines, idx, idx + 1);
        if turn.lines == [] {
          assert RecoverFrom(retry, data, targets, j, call) == r;
          IncreasingRunWiden(r, idx + 1, |data| + 1, lo, |data| + 1);
        } else {
          assert LineIndex(turn.lines[0]) == Some(idx);
          assert IncreasingRun(turn.lines, lo, idx + 1);
          IncreasingRunJoin(turn.lines, r, lo, idx + 1, idx + 1, |data| + 1);
        }
    }
  }

  /** The targets from position j on that are positions of the data. */
  function InData(targets: seq<int>, j: nat, n: int): seq<int>
    decreases |targets| - j
  {
    if j >= |targets| then []
    else (if 1 <= targets[j] <= n then [targets[j]] else []) + InData(targets, j + 1, n)
  }

  /** The lines carry, in order, exactly the indices ks. */
  predicate IndicesAre(ls: seq<Line>, ks: seq<int>)
  {
    |ls| == |ks| && forall j :: 0 <= j < |ls| ==> LineIndex(ls[j]) == Some(ks[j])
  }

  lemma IndicesAreJoin(a: seq<Line>, b: seq<Line>, ka: seq<int>, kb: seq<int>)
    requires IndicesAre(a, ka) && IndicesAre(b, kb)
    ensures IndicesAre(a + b, ka + kb)
  {
    forall j | 0 <= j < |a + b| ensures LineIndex((a + b)[j]) == Some((ka + kb)[j]) {
      if j < |a| {
        assert (a + b)[j] == a[j] && (ka + kb)[j] == ka[j];
      } else {
        assert (a + b)[j] == b[j - |a|] && (ka + kb)[j] == kb[j - |a|];
      }
    }
  }

  /** When every turn writes its target, the loop appends one line for each
      target that is a position of the data, in the order of the targets,
      and skips the others. */
  lemma {:induction false} RecoverFromWhole(retry: Retry, data: seq<Json>, targets: seq<int>, j: nat, call: nat)
    requires AlwaysTheTarget(retry)
    requires forall x :: 0 <= x < |targets| ==> targets[x] >= 1
    ensures IndicesAre(RecoverFrom(retry, data, targets, j, call), InData(targets, j, |data|))
    decreases |targets| - j
  {
    if j < |targets| {
      var idx := targets[j];
      RecoverFromUnfold(retry, data, targets, j, call);
      match PyIndex(data, idx - 1)
      case None =>
        RecoverFromWhole(retry, data, targets, j + 1, call);
        assert InData(targets, j, |data|) == InData(targets, j + 1, |data|);
      case Some(item) =>
        var turn := retry(item, idx, call);
        RecoverFromWhole(retry, data, targets, j + 1, turn.next);
        assert IndexedRun(turn.lines, idx, idx + 1);
        assert IndicesAre(turn.lines, [idx]);
        IndicesAreJoin(turn.lines, RecoverFrom(retry, data, targets, j + 1, turn.next), [idx], InData(targets, j + 1, |data|));
    }
  }

  /** InData keeps exactly the targets from position j on that lie in 1..n. */
  lemma {:induction false} InDataMeans(targets: seq<int>, j: nat, n: int, x: int)
    requires j <= |targets|
    ensures x in InData(targets, j, n) <==> 1 <= x <= n && exists a :: j <= a < |targets| && targets[a] == x
    decreases |targets| - j
  {
    if j < |targets| {
      InDataMeans(targets, j + 1, n, x);
      var here := if 1 <= targets[j] <= n then [targets[j]] else [];
      var rest := InData(targets, j + 1, n);
      assert InData(targets, j, n) == here + rest;
      if x in here {
        assert targets[j] == x;
      }
      if 1 <= x <= n && exists a :: j <= a < |targets| && targets[a] == x {
        var a :| j <= a < |targets| && targets[a] == x;
        if a == j {
          assert x in here;
        } else {
          assert x in rest;
        }
      }
    }
  }

  /** With any backend a recovery run appends strictly increasing indices in
      1..N: it never writes an index outside the data, nor one twice. */
  lemma RecoveryAppendsIncreasing(att: Outcomes, data: seq<Json>, lines: seq<Line>)
    ensures IncreasingRun(RecoveryAppends(att, data, lines), 1, |data| + 1)
  {
    RecoveryTargetsSpec(lines, |data|);
    RetranslateAtMostTheTarget(att);
    RecoverFromIncreasing(Retranslate(att), data, RecoveryTargets(lines, |data|), 0, 0, 1);
  }

  /** With a fault-free backend a recovery run appends, in ascending order,
      one line for every target in 1..N and skips the targets above N. */
  lemma FaultFreeRecoveryAppends(att: Outcomes, data: seq<Json>, lines: seq<Line>)
    requires FaultFree(att)
    ensures IndicesAre(RecoveryAppends(att, data, lines), InData(RecoveryTargets(lines, |data|), 0, |data|))
  {
    RecoveryTargetsSpec(lines, |data|);
    RetranslateFaultFree(att);
    RecoverFromWhole(Retranslate(att), data, RecoveryTargets(lines, |data|), 0, 0);
  }

  /** With a fault-free backend, after recovery every index 1..N is present
      in the output file; malformed lines make some records present twice. */
  lemma FaultFreeRecoveryFillsGaps(att: Outcomes, data: seq<Json>, lines: seq<Line>)
    requires FaultFree(att)
    ensures forall x :: 1 <= x <= |data| ==> x in Valid(lines + RecoveryAppends(att, data, lines))
  {
    var app := RecoveryAppends(att, data, lines);
    var ts := RecoveryTargets(lines, |data|);
    var all := lines + app;
    FaultFreeRecoveryAppends(att, data, lines);
    RecoveryTargetsSpec(lines, |data|);
    forall x | 1 <= x <= |data| ensures x in Valid(all) {
      ValidUpToMeans(lines, |lines|, x);
      ValidUpToMeans(all, |all|, x);
      if x in Valid(lines) {
        var j :| 0 <= j < |lines| && LineIndex(lines[j]) == Some(x);
        assert all[j] == lines[j];
      } else {
        assert x in ts;
        var a :| 0 <= a < |ts| && ts[a] == x;
        InDataMeans(ts, 0, |data|, x);
        var ks := InData(ts, 0, |data|);
        var c :| 0 <= c < |ks| && ks[c] == x;
        assert LineIndex(app[c]) == Some(x);
        assert all[|lines| + c] == app[c];
      }
    }
  }

  // ---------------------------------------------------------------------------
  // The recovery driver

  /** Re-translate one target and write it when the first element returned
      is an object. Returns the number of the next request. */
  method RetranslateOne(svc: Service, item: Json, idx: int, sink: Sink, call: nat) returns (next: nat)
    modifies sink
    ensures next == call + Translation(Attempts(svc), [item], call).calls
    ensures sink.lines == old(sink.lines) + RecoveredLines(Attempts(svc), item, idx, call)
  {
    var translated;
    translated, next := TranslateBatch(svc, [item], call);
    if |translated.items| > 0 && translated.items[0].JObj? {
      sink.Append(Stamped(translated.items[0].fields, idx));
    }
  }

  /** If the lines written so far followed by the rest of the loop from
      target j make goal, so do they after the turn for target j. */
  lemma RecoverKeepsGoal(att: Outcomes, data: seq<Json>, targets: seq<int>, j: nat, call: nat,
                         before: seq<Line>, after: seq<Line>, next: nat, goal: seq<Line>)
    requires j < |targets| && PyIndex(data, targets[j] - 1).Some?
    requires goal == before + RecoverFrom(Retranslate(att), data, targets, j, call)
    requires after == before + RecoveredLines(att, PyIndex(data, targets[j] - 1).value, targets[j], call)
    requires next == call + Translation(att, [PyIndex(data, targets[j] - 1).value], call).calls
    ensures goal == after + RecoverFrom(Retranslate(att), data, targets, j + 1, next)
  {
    var item := PyIndex(data, targets[j] - 1).value;
    var turn := Retranslate(att)(item, targets[j], call);
    RecoverFromUnfold(Retranslate(att), data, targets, j, call);
    var rest := RecoverFrom(Retranslate(att), data, targets, j + 1, next);
    assert (before + turn.lines) + rest == before + (turn.lines + rest);
  }

  /** One turn of the recovery loop: alpaca_data[idx - 1], then either the
      IndexError skip or translate_batch([item]) and the write. */
  method RecoverStep(svc: Service, data: seq<Json>, targets: seq<int>, j: nat, sink: Sink, call: nat,
                     ghost goal: seq<Line>)
    returns (next: nat)
    requires j < |targets|
    requires goal == sink.lines + RecoverFrom(Retranslate(Attempts(svc)), data, targets, j, call)
    modifies sink
    ensures PyIndex(data, targets[j] - 1).None? ==> next == call && sink.lines == old(sink.lines)
    ensures PyIndex(data, targets[j] - 1).Some? ==>
      var item := PyIndex(data, targets[j] - 1).value;
      && next == call + Translation(Attempts(svc), [item], call).calls
      && sink.lines == old(sink.lines) + RecoveredLines(Attempts(svc), item, targets[j], call)
    ensures goal == sink.lines + RecoverFrom(Retranslate(Attempts(svc)), data, targets, j + 1, next)
  {
    var idx := targets[j];
    var item := PyIndex(data, idx - 1);
    RecoverFromUnfold(Retranslate(Attempts(svc)), data, targets, j, call);
    if item.None? {
      // IndexError: "Invalid index in input data"
      next := call;
    } else {
      ghost var before := sink.lines;
      next := RetranslateOne(svc, item.value, idx, sink, call);
      RecoverKeepsGoal(Attempts(svc), data, targets, j, call, before, sink.lines, next, goal);
    }
  }

  /** A recovery run over the output file sink. */
  method RunRecovery(svc: Service, data: seq<Json>, sink: Sink)
    modifies sink
    ensures sink.lines == old(sink.lines) + RecoveryAppends(Attempts(svc), data, old(sink.lines))
  {
    var valid, malformed := ClassifyLines(sink.lines);
    var targets := SortedTargets(valid, malformed, |data|, Max(|data|, |sink.lines|));
    assert targets == RecoveryTargets(sink.lines, |data|);
    ghost var goal := sink.lines + RecoveryAppends(Attempts(svc), data, sink.lines);
    var call: nat := 0;
    for j := 0 to |targets|
      invariant goal == sink.lines + RecoverFrom(Retranslate(Attempts(svc)), data, targets, j, call)
    {
      call := RecoverStep(svc, data, targets, j, sink, call, goal);
    }
  }
}
