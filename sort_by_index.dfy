/** The post-processing pass over the finished output file: every line is
    loaded, the records are sorted by their "index" (Python's sorted, which
    is stable), the "index" key is popped from each record and the file is
    rewritten with the records in that order. */
module SortByIndex {
  import opened Jsonl

  /** A loaded record together with its sort key x['index']. */
  datatype Keyed = Keyed(key: int, fields: map<string, Json>)

  /** The list comprehension over the file followed by the key function: a
      line that does not load, is not an object, lacks "index" or holds a
      non-integer there stops the run before anything is sorted. */
  function SortKeys(ls: seq<Line>): Option<seq<Keyed>>
  {
    if forall i :: 0 <= i < |ls| ==> LineIndex(ls[i]).Some? then
      Some(seq(|ls|, i requires 0 <= i < |ls| && LineIndex(ls[i]).Some? => Keyed(IndexOf(ls[i]), ls[i].value.fields)))
    else None
  }

  // ---------------------------------------------------------------------
  // The sort
  // ---------------------------------------------------------------------

  /** Puts x behind every element whose key is not larger than its own. */
  function InsertLast(t: seq<Keyed>, x: Keyed): seq<Keyed>
    decreases |t|
  {
    if |t| == 0 || t[|t| - 1].key <= x.key then t + [x]
    else InsertLast(t[..|t| - 1], x) + [t[|t| - 1]]
  }

  /** A stable sort by key, as a reference for sorted(lines, key=...): each
      record is inserted behind the earlier records that do not sort after it. */
  function SortedByIndex(s: seq<Keyed>): seq<Keyed>
    decreases |s|
  {
    if |s| == 0 then [] else InsertLast(SortedByIndex(s[..|s| - 1]), s[|s| - 1])
  }

  predicate NonDecreasing(s: seq<Keyed>)
  {
    forall i, j :: 0 <= i < j < |s| ==> s[i].key <= s[j].key
  }

  /** The records with key k, in the order s holds them. */
  function WithKey(s: seq<Keyed>, k: int): seq<Keyed>
    decreases |s|
  {
    if |s| == 0 then []
    else WithKey(s[..|s| - 1], k) + (if s[|s| - 1].key == k then [s[|s| - 1]] else [])
  }

  predicate AllAtMost(s: seq<Keyed>, b: int)
  {
    forall i :: 0 <= i < |s| ==> s[i].key <= b
  }

  lemma {:induction false} InsertLastPermutes(t: seq<Keyed>, x: Keyed)
    ensures |InsertLast(t, x)| == |t| + 1
    ensures multiset(InsertLast(t, x)) == multiset(t) + multiset{x}
    decreases |t|
  {
    if |t| > 0 && t[|t| - 1].key > x.key {
      var t', last := t[..|t| - 1], t[|t| - 1];
      InsertLastPermutes(t', x);
      assert t == t' + [last];
    }
  }

  lemma {:induction false} InsertLastBounded(t: seq<Keyed>, x: Keyed, b: int)
    requires AllAtMost(t, b) && x.key <= b
    ensures AllAtMost(InsertLast(t, x), b)
    decreases |t|
  {
    if |t| > 0 && t[|t| - 1].key > x.key {
      InsertLastBounded(t[..|t| - 1], x, b);
    }
  }

  lemma {:induction false} InsertLastSorted(t: seq<Keyed>, x: Keyed)
    requires NonDecreasing(t)
    ensures NonDecreasing(InsertLast(t, x))
    decreases |t|
  {
    if |t| > 0 && t[|t| - 1].key > x.key {
      var t', last := t[..|t| - 1], t[|t| - 1];
      InsertLastSorted(t', x);
      InsertLastBounded(t', x, last.key);
    }
  }

  /** Inserting x changes the records of each key only by putting x behind
      those of its own key. */
  lemma {:induction false} InsertLastStable(t: seq<Keyed>, x: Keyed, k: int)
    ensures WithKey(InsertLast(t, x), k) == WithKey(t, k) + (if x.key == k then [x] else [])
    decreases |t|
  {
    if |t| == 0 || t[|t| - 1].key <= x.key {
      assert (t + [x])[..|t|] == t;
    } else {
      var t', last := t[..|t| - 1], t[|t| - 1];
      var u := InsertLast(t', x);
      InsertLastStable(t', x, k);
      assert (u + [last])[..|u|] == u;
    }
  }

  /** The sort permutes its input; no record is lost or duplicated. */
  lemma {:induction false} SortPermutes(s: seq<Keyed>)
    ensures |SortedByIndex(s)| == |s|
    ensures multiset(SortedByIndex(s)) == multiset(s)
    decreases |s|
  {
    if |s| > 0 {
      var s' := s[..|s| - 1];
      SortPermutes(s');
      InsertLastPermutes(SortedByIndex(s'), s[|s| - 1]);
      assert s == s' + [s[|s| - 1]];
    }
  }

  /** The sort puts the keys in non-decreasing order. */
  lemma {:induction false} SortOrders(s: seq<Keyed>)
    ensures NonDecreasing(SortedByIndex(s))
    decreases |s|
  {
    if |s| > 0 {
      SortOrders(s[..|s| - 1]);
      InsertLastSorted(SortedByIndex(s[..|s| - 1]), s[|s| - 1]);
    }
  }

  /** The sort is stable: records sharing a key, such as a record written
      once in normal mode and again by recovery, keep their file order. */
  lemma {:induction false} SortIsStable(s: seq<Keyed>, k: int)
    ensures WithKey(SortedByIndex(s), k) == WithKey(s, k)
    decreases |s|
  {
    if |s| > 0 {
      SortIsStable(s[..|s| - 1], k);
      InsertLastStable(SortedByIndex(s[..|s| - 1]), s[|s| - 1], k);
    }
  }

  lemma WithKeyMember(s: seq<Keyed>, k: int, x: Keyed)
    requires x in WithKey(s, k)
    ensures x in s && x.key == k
    decreases |s|
  {
    if |s| > 0 && x !in WithKey(s[..|s| - 1], k) {
      assert x == s[|s| - 1];
    } else if |s| > 0 {
      WithKeyMember(s[..|s| - 1], k, x);
      assert s[..|s| - 1] <= s;
    }
  }

  /** Of two sequences with the same records per key, the second holds some
      record whenever the first does. */
  lemma NonEmptyKeys(r: seq<Keyed>, q: seq<Keyed>)
    requires |q| > 0 && forall k :: WithKey(r, k) == WithKey(q, k)
    ensures |r| > 0
  {
    var k := q[|q| - 1].key;
    assert WithKey(q, k) != [];
    assert WithKey(r, k) != [];
  }

  /** The last record of a non-decreasing sequence has the largest key of all
      those the sequence holds for some key. */
  lemma LastIsLargest(q: seq<Keyed>, r: seq<Keyed>, k: int)
    requires NonDecreasing(q) && |q| > 0 && |r| > 0
    requires WithKey(q, k) == WithKey(r, k) && r[|r| - 1].key == k
    ensures k <= q[|q| - 1].key
  {
    assert WithKey(r, k) == WithKey(r[..|r| - 1], k) + [r[|r| - 1]];
    var x := r[|r| - 1];
    assert x in WithKey(q, k);
    WithKeyMember(q, k, x);
    var i :| 0 <= i < |q| && q[i] == x;
    if i < |q| - 1 {
      assert q[i].key <= q[|q| - 1].key;
    }
  }

  /** Dropping the last record of two sequences, when both end in a record
      of the same key, keeps the records of key k alike. */
  lemma DropLastKeys(r: seq<Keyed>, q: seq<Keyed>, r0: seq<Keyed>, q0: seq<Keyed>, k: int)
    requires |r| > 0 && |q| > 0 && r0 == r[..|r| - 1] && q0 == q[..|q| - 1]
    requires r[|r| - 1].key == q[|q| - 1].key
    requires WithKey(r, k) == WithKey(q, k)
    ensures WithKey(r0, k) == WithKey(q0, k)
  {
    var a, b := WithKey(r0, k), WithKey(q0, k);
    if r[|r| - 1].key == k {
      assert WithKey(r, k) == a + [r[|r| - 1]];
      assert WithKey(q, k) == b + [q[|q| - 1]];
      assert (a + [r[|r| - 1]])[..|a|] == a;
      assert (b + [q[|q| - 1]])[..|b|] == b;
    }
  }

  /** Two non-empty sorted sequences with the same records per key end in
      the same record, and without it still have the same records per key. */
  lemma SameLast(r: seq<Keyed>, q: seq<Keyed>, r0: seq<Keyed>, q0: seq<Keyed>)
    requires NonDecreasing(r) && NonDecreasing(q) && |r| > 0 && |q| > 0
    requires r0 == r[..|r| - 1] && q0 == q[..|q| - 1]
    requires forall k :: WithKey(r, k) == WithKey(q, k)
    ensures r[|r| - 1] == q[|q| - 1]
    ensures forall k :: WithKey(r0, k) == WithKey(q0, k)
  {
    var e, f := r[|r| - 1], q[|q| - 1];
    LastIsLargest(q, r, e.key);
    LastIsLargest(r, q, f.key);
    var wr, wq := WithKey(r, e.key), WithKey(q, e.key);
    assert wr == WithKey(r0, e.key) + [e];
    assert wq == WithKey(q0, e.key) + [f];
    assert e == wr[|wr| - 1] && f == wq[|wq| - 1];
    forall k ensures WithKey(r0, k) == WithKey(q0, k) {
      DropLastKeys(r, q, r0, q0, k);
    }
  }

  /** Sorted, with the records of each key in one fixed order, determines the
      sequence: two such sequences are equal. */
  lemma {:induction false} SortedStableUnique(r: seq<Keyed>, q: seq<Keyed>)
    requires NonDecreasing(r) && NonDecreasing(q)
    requires forall k :: WithKey(r, k) == WithKey(q, k)
    ensures r == q
    decreases |r|
  {
    if |q| > 0 {
      NonEmptyKeys(r, q);
    }
    if |r| > 0 {
      NonEmptyKeys(q, r);
    }
    if |r| > 0 {
      var r0, q0 := r[..|r| - 1], q[..|q| - 1];
      SameLast(r, q, r0, q0);
      SortedStableUnique(r0, q0);
      assert r == r0 + [r[|r| - 1]] && q == q0 + [q[|q| - 1]];
    }
  }

  /** Any ordering of s that is sorted by key and stable is the one
      SortedByIndex produces, so the reference fixes what sorted() returns. */
  lemma StableSortIsUnique(s: seq<Keyed>, r: seq<Keyed>)
    requires NonDecreasing(r) && forall k :: WithKey(r, k) == WithKey(s, k)
    ensures r == SortedByIndex(s)
  {
    SortOrders(s);
    forall k ensures WithKey(r, k) == WithKey(SortedByIndex(s), k) {
      SortIsStable(s, k);
    }
    SortedStableUnique(r, SortedByIndex(s));
  }

  // ---------------------------------------------------------------------
  // Popping "index" and rewriting the file
  // ---------------------------------------------------------------------

  /** Every record after item.pop('index', None). */
  function Unindexed(items: seq<map<string, Json>>): (r: seq<map<string, Json>>)
    ensures |r| == |items|
    ensures forall i :: 0 <= i < |r| ==> IndexKey !in r[i]
    ensures forall i, k :: 0 <= i < |r| && k != IndexKey ==> (k in r[i] <==> k in items[i])
    ensures forall i, k :: 0 <= i < |r| && k != IndexKey && k in r[i] ==> r[i][k] == items[i][k]
  {
    seq(|items|, i requires 0 <= i < |items| => items[i] - {IndexKey})
  }

  /** The loop over sorted_lines popping "index" from each dict in place. */
  method PopIndex(items: array<map<string, Json>>)
    modifies items
    ensures items[..] == Unindexed(old(items[..]))
  {
    for i := 0 to items.Length
      invariant forall j :: 0 <= j < i ==> items[j] == old(items[j]) - {IndexKey}
      invariant forall j :: i <= j < items.Length ==> items[j] == old(items[j])
    {
      items[i] := items[i] - {IndexKey};
    }
  }

  /** The line json.dumps writes for a record once its "index" is popped:
      an object without "index" that keeps every other key and value. */
  function Render(x: Keyed): (l: Line)
    ensures l.Parsed? && l.value.JObj? && LineIndex(l).None?
    ensures IndexKey !in l.value.fields
    ensures forall k :: k != IndexKey ==> (k in l.value.fields <==> k in x.fields)
    ensures forall k :: k != IndexKey && k in x.fields ==> l.value.fields[k] == x.fields[k]
  {
    Parsed(JObj(x.fields - {IndexKey}))
  }

  /** The lines of the rewritten file, one per record and in the same order;
      none of them carries an index any more. */
  function Rendered(s: seq<Keyed>): (ls: seq<Line>)
    ensures |ls| == |s|
    ensures forall i :: 0 <= i < |ls| ==> ls[i] == Render(s[i])
    ensures forall i :: 0 <= i < |ls| ==> LineIndex(ls[i]).None?
  {
    seq(|s|, i requires 0 <= i < |s| => Render(s[i]))
  }

  /** The file sort_jsonl_by_index_inplace leaves, or None when it raises
      before reopening the file. */
  function Rewritten(ls: seq<Line>): Option<seq<Line>>
  {
    match SortKeys(ls)
    case None => None
    case Some(ks) => Some(Rendered(SortedByIndex(ks)))
  }

  lemma {:induction false} RenderedInsertLast(t: seq<Keyed>, x: Keyed)
    ensures multiset(Rendered(InsertLast(t, x))) == multiset(Rendered(t)) + multiset{Render(x)}
    decreases |t|
  {
    if |t| == 0 || t[|t| - 1].key <= x.key {
      assert Rendered(t + [x]) == Rendered(t) + [Render(x)];
    } else {
      var t', last := t[..|t| - 1], t[|t| - 1];
      var u := InsertLast(t', x);
      RenderedInsertLast(t', x);
      assert Rendered(u + [last]) == Rendered(u) + [Render(last)];
      assert Rendered(t) == Rendered(t') + [Render(last)];
    }
  }

  lemma {:induction false} RenderedSortPermutes(s: seq<Keyed>)
    ensures multiset(Rendered(SortedByIndex(s))) == multiset(Rendered(s))
    decreases |s|
  {
    if |s| > 0 {
      var s' := s[..|s| - 1];
      RenderedSortPermutes(s');
      RenderedInsertLast(SortedByIndex(s'), s[|s| - 1]);
      assert Rendered(s) == Rendered(s') + [Render(s[|s| - 1])];
    }
  }

  /** What the pass promises. It fails exactly when some line has no integer
      index; otherwise the new file has as many lines as the old, holds the
      old records with "index" removed and nothing else (duplicates
      included), and lists them in non-decreasing index order with records
      of equal index in their original order. */
  lemma RewrittenSpec(ls: seq<Line>)
    ensures Rewritten(ls).Some? <==> forall i :: 0 <= i < |ls| ==> LineIndex(ls[i]).Some?
    ensures Rewritten(ls).Some? ==>
      var ks := SortKeys(ls).value;
      var out := Rewritten(ls).value;
      && |ks| == |ls|
      && (forall i :: 0 <= i < |ls| ==> ks[i].key == IndexOf(ls[i]) && Render(ks[i]) == Parsed(JObj(ls[i].value.fields - {IndexKey})))
      && |out| == |ls|
      && multiset(out) == multiset(Rendered(ks))
      && (forall i :: 0 <= i < |out| ==> IndexKey !in out[i].value.fields)
      && out == Rendered(SortedByIndex(ks))
      && NonDecreasing(SortedByIndex(ks))
      && (forall k :: WithKey(SortedByIndex(ks), k) == WithKey(ks, k))
  {
    if Rewritten(ls).Some? {
      var ks := SortKeys(ls).value;
      SortPermutes(ks);
      RenderedSortPermutes(ks);
      SortOrders(ks);
      forall k ensures WithKey(SortedByIndex(ks), k) == WithKey(ks, k) {
        SortIsStable(ks, k);
      }
    }
  }

  /** The write loop: one json.dumps line per record. */
  method DumpAll(file: Sink, items: array<map<string, Json>>)
    modifies file
    ensures file.lines == old(file.lines) + seq(items.Length, i requires 0 <= i < items.Length reads items => Parsed(JObj(items[i])))
  {
    ghost var start := file.lines;
    for i := 0 to items.Length
      invariant file.lines == start + seq(i, j requires 0 <= j < i reads items => Parsed(JObj(items[j])))
    {
      file.Append(Parsed(JObj(items[i])));
    }
  }

  /** sort_jsonl_by_index_inplace: on success the file holds Rewritten of its
      old lines; on failure it is left as it was. */
  method SortJsonlByIndexInPlace(file: Sink) returns (ok: bool)
    modifies file
    ensures ok <==> Rewritten(old(file.lines)).Some?
    ensures ok ==> file.lines == Rewritten(old(file.lines)).value
    ensures !ok ==> file.lines == old(file.lines)
  {
    var keyed := SortKeys(file.lines);
    if keyed.None? {
      return false;
    }
    var ordered := SortedByIndex(keyed.value);
    var items := new map<string, Json>[|ordered|](i requires 0 <= i < |ordered| => ordered[i].fields);
    PopIndex(items);
    file.Truncate();
    DumpAll(file, items);
    assert file.lines == Rendered(ordered);
    ok := true;
  }
}
