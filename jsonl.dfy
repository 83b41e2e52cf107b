/** Parsed JSON values, the lines of the line-delimited output file, and the
    output file itself as an append-only sequence of lines. */
module Jsonl {

  datatype Option<+T> = None | Some(value: T)

  function Min(a: int, b: int): int { if a <= b then a else b }

  function Max(a: int, b: int): int { if a >= b then a else b }

  /** A value as json.loads returns it. Numbers with a fraction are not modelled. */
  datatype Json =
    | JNull
    | JBool(b: bool)
    | JInt(i: int)
    | JStr(s: string)
    | JArr(items: seq<Json>)
    | JObj(fields: map<string, Json>)

  /** The key both drivers attach to every record they write. */
  const IndexKey: string := "index"

  /** The answer to isinstance(v, int) together with the integer: JSON true and
      false load as Python bools, and bool is a subclass of int (True == 1). */
  function AsInt(v: Json): (r: Option<int>)
    ensures r.Some? <==> v.JInt? || v.JBool?
    ensures v.JInt? ==> r == Some(v.i)
  {
    match v
    case JInt(i) => Some(i)
    case JBool(b) => Some(if b then 1 else 0)
    case _ => None
  }

  /** One line of the output file as json.loads sees it. */
  datatype Line = Parsed(value: Json) | Unparseable

  /** The integer index a line records, or None when the line is malformed:
      it does not parse, it is not an object, or its "index" is missing or
      is not an integer. */
  function LineIndex(l: Line): Option<int>
  {
    if l.Parsed? && l.value.JObj? && IndexKey in l.value.fields then AsInt(l.value.fields[IndexKey])
    else None
  }

  /** The line written for a translated object once `translated["index"] = idx`
      has been set: json.dumps of it loads back as the same object. */
  function Stamped(fields: map<string, Json>, idx: int): (l: Line)
    ensures l.Parsed? && l.value.JObj?
    ensures LineIndex(l) == Some(idx)
    ensures l.value.fields - {IndexKey} == fields - {IndexKey}
  {
    Parsed(JObj(fields[IndexKey := JInt(idx)]))
  }

  /** The index a line records, or 0 when it records none. */
  function IndexOf(l: Line): int
  {
    match LineIndex(l)
    case Some(k) => k
    case None => 0
  }

  /** The lines carry exactly the indices lo, lo + 1, ..., hi - 1, in order. */
  predicate IndexedRun(ls: seq<Line>, lo: int, hi: int)
  {
    |ls| == hi - lo && forall j :: 0 <= j < |ls| ==> LineIndex(ls[j]) == Some(lo + j)
  }

  /** From position j on, every line carries an index inside [lo, hi), and the
      indices strictly increase along the file: each lies above the one
      before it. */
  predicate IncreasingFrom(ls: seq<Line>, j: nat, lo: int, hi: int)
    decreases |ls| - j
  {
    j >= |ls|
    || (LineIndex(ls[j]).Some? && lo <= IndexOf(ls[j]) < hi && IncreasingFrom(ls, j + 1, IndexOf(ls[j]) + 1, hi))
  }

  /** The whole file is an increasing run of indices inside [lo, hi). */
  predicate IncreasingRun(ls: seq<Line>, lo: int, hi: int)
  {
    IncreasingFrom(ls, 0, lo, hi)
  }

  /** What IncreasingFrom means, position by position: all indices lie in
      [lo, hi) and an earlier line always has a smaller index, so none repeats. */
  lemma {:induction false} IncreasingFromMeans(ls: seq<Line>, j: nat, lo: int, hi: int)
    requires IncreasingFrom(ls, j, lo, hi)
    ensures forall x :: j <= x < |ls| ==> LineIndex(ls[x]).Some? && lo <= IndexOf(ls[x]) < hi
    ensures forall a, b :: j <= a < b < |ls| ==> IndexOf(ls[a]) < IndexOf(ls[b])
    decreases |ls| - j
  {
    if j < |ls| {
      IncreasingFromMeans(ls, j + 1, IndexOf(ls[j]) + 1, hi);
    }
  }

  /** IncreasingRun, index by index. */
  lemma IncreasingRunMeans(ls: seq<Line>, lo: int, hi: int)
    requires IncreasingRun(ls, lo, hi)
    ensures forall j :: 0 <= j < |ls| ==> LineIndex(ls[j]).Some? && lo <= IndexOf(ls[j]) < hi
    ensures forall a, b :: 0 <= a < b < |ls| ==> IndexOf(ls[a]) < IndexOf(ls[b])
  {
    IncreasingFromMeans(ls, 0, lo, hi);
  }

  /** Two runs of consecutive indices, the second starting where the first
      stops, make one run. */
  lemma IndexedRunJoin(w: seq<Line>, r: seq<Line>, lo: int, mid: int, hi: int)
    requires IndexedRun(w, lo, mid) && IndexedRun(r, mid, hi)
    ensures IndexedRun(w + r, lo, hi)
  {
    forall j | 0 <= j < |w + r| ensures LineIndex((w + r)[j]) == Some(lo + j) {
      if j < |w| {
        assert (w + r)[j] == w[j];
      } else {
        assert (w + r)[j] == r[j - |w|];
      }
    }
  }

  /** Lines put after w keep the run they formed from position x on. */
  lemma {:induction false} IncreasingFromShift(w: seq<Line>, r: seq<Line>, x: nat, lo: int, hi: int)
    requires IncreasingFrom(r, x, lo, hi)
    ensures IncreasingFrom(w + r, |w| + x, lo, hi)
    decreases |r| - x
  {
    if x < |r| {
      assert (w + r)[|w| + x] == r[x];
      IncreasingFromShift(w, r, x + 1, IndexOf(r[x]) + 1, hi);
    }
  }

  /** A run of w from position j on, followed by an increasing run r lying
      above it, is one run of w + r from j on. */
  lemma {:induction false} IncreasingFromJoin(w: seq<Line>, r: seq<Line>, j: nat, lo: int, mid: int, mid': int, hi: int)
    requires j <= |w| && lo <= mid <= mid' <= hi
    requires IncreasingFrom(w, j, lo, mid) && IncreasingRun(r, mid', hi)
    ensures IncreasingFrom(w + r, j, lo, hi)
    decreases |w| - j
  {
    if j == |w| {
      IncreasingFromShift(w, r, 0, mid', hi);
      IncreasingFromWiden(w + r, j, mid', hi, lo, hi);
    } else {
      assert (w + r)[j] == w[j];
      IncreasingFromJoin(w, r, j + 1, IndexOf(w[j]) + 1, mid, mid', hi);
    }
  }

  /** Two increasing runs, the second above the first, make one. */
  lemma IncreasingRunJoin(w: seq<Line>, r: seq<Line>, lo: int, mid: int, mid': int, hi: int)
    requires lo <= mid <= mid' <= hi
    requires IncreasingRun(w, lo, mid) && IncreasingRun(r, mid', hi)
    ensures IncreasingRun(w + r, lo, hi)
  {
    IncreasingFromJoin(w, r, 0, lo, mid, mid', hi);
  }

  /** A run inside [lo, hi) is one inside any wider interval. */
  lemma {:induction false} IncreasingFromWiden(ls: seq<Line>, j: nat, lo: int, hi: int, lo': int, hi': int)
    requires IncreasingFrom(ls, j, lo, hi) && lo' <= lo && hi <= hi'
    ensures IncreasingFrom(ls, j, lo', hi')
    decreases |ls| - j
  {
    if j < |ls| {
      IncreasingFromWiden(ls, j + 1, IndexOf(ls[j]) + 1, hi, IndexOf(ls[j]) + 1, hi');
    }
  }

  lemma IncreasingRunWiden(ls: seq<Line>, lo: int, hi: int, lo': int, hi': int)
    requires IncreasingRun(ls, lo, hi) && lo' <= lo && hi <= hi'
    ensures IncreasingRun(ls, lo', hi')
  {
    IncreasingFromWiden(ls, 0, lo, hi, lo', hi');
  }

  /** The output file. While translating it is only ever opened for appending. */
  class Sink {
    var lines: seq<Line>

    constructor (initial: seq<Line>)
      ensures lines == initial
    {
      lines := initial;
    }

    /** f.write(json.dumps(...) + '\n'). The file is taken to end with a
        newline already, so the written object is a line of its own. */
    method Append(l: Line)
      modifies this
      ensures lines == old(lines) + [l]
    {
      lines := lines + [l];
    }

    /** open(path, 'w'): the file is emptied. */
    method Truncate()
      modifies this
      ensures lines == []
    {
      lines := [];
    }
  }
}
