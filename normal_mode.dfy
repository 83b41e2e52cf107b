/** Normal mode: find the resume point from the last line of the output file,
    cut the untranslated records into consecutive batches, translate each
    batch and append its objects stamped with their 1-based global index. */
module NormalMode {
  import opened Jsonl
  import opened TranslationClient

  // ---------------------------------------------------------------------------
  // Resume point

  /** processed_items, or BadIndex when the last line's "index" is not an
      integer and the run raises before writing anything. */
  datatype Resume = ResumeAt(count: int) | BadIndex

  /** The resume point computed from the lines of the output file (an absent
      file has no lines). */
  function ResumePoint(lines: seq<Line>): (r: Resume)
    ensures |lines| == 0 ==> r == ResumeAt(0)
    ensures |lines| > 0 && LineIndex(lines[|lines| - 1]).Some? ==>
              r == ResumeAt(LineIndex(lines[|lines| - 1]).value)
    ensures |lines| > 0 && !(lines[|lines| - 1].Parsed? && lines[|lines| - 1].value.JObj?) ==>
              r == ResumeAt(0)
    ensures |lines| > 0 && lines[|lines| - 1].Parsed? && lines[|lines| - 1].value.JObj? &&
            IndexKey !in lines[|lines| - 1].value.fields ==>
              r == ResumeAt(|lines|)
    ensures r.BadIndex? <==>
              |lines| > 0 && lines[|lines| - 1].Parsed? && lines[|lines| - 1].value.JObj? &&
              IndexKey in lines[|lines| - 1].value.fields && LineIndex(lines[|lines| - 1]).None?
  {
    if |lines| == 0 then ResumeAt(0)
    else
      match lines[|lines| - 1]
      // json.loads fails: the exception is caught and processed_items stays 0
      case Unparseable => ResumeAt(0)
      case Parsed(v) =>
        // .get on something that is not a dict raises, and is caught the same way
        if !v.JObj? then ResumeAt(0)
        else if IndexKey !in v.fields then ResumeAt(|lines|)
        else match AsInt(v.fields[IndexKey])
          case Some(k) => ResumeAt(k)
          case None => BadIndex
  }

  /** A file whose lines carry the indices 1..k in order resumes at k. */
  lemma ResumeAfterOrderedLines(lines: seq<Line>)
    requires IndexedRun(lines, 1, |lines| + 1)
    ensures ResumePoint(lines) == ResumeAt(|lines|)
  {
    if |lines| > 0 {
      assert LineIndex(lines[|lines| - 1]) == Some(|lines|);
    }
  }

  /** Python's s[k:]; a negative k counts from the end. */
  function PyDrop<T>(s: seq<T>, k: int): (r: seq<T>)
    ensures 0 <= k <= |s| ==> r == s[k..]
    ensures k >= |s| ==> r == []
    ensures k < 0 ==> r == s[Max(0, |s| + k)..]
  {
    if k >= 0 then s[Min(k, |s|)..] else s[Max(0, |s| + k)..]
  }

  // ---------------------------------------------------------------------------
  // Batches

  function Flatten<T>(cs: seq<seq<T>>): seq<T>
  {
    if |cs| == 0 then [] else cs[0] + Flatten(cs[1..])
  }

  /** The batches unprocessed[i:i + size] for i in range(from, len(unprocessed), size). */
  function Batches<T>(u: seq<T>, i: nat, size: nat): seq<seq<T>>
    requires size > 0
    decreases |u| - i
  {
    if i >= |u| then [] else [u[i..Min(i + size, |u|)]] + Batches(u, i + size, size)
  }

  /** The batches from position i cover u[i..] exactly, in order, none is
      empty, and all but the last hold exactly size records. */
  lemma {:induction false} BatchesCover<T>(u: seq<T>, i: nat, size: nat)
    requires size > 0 && i <= |u|
    ensures var bs := Batches(u, i, size);
            && Flatten(bs) == u[i..]
            && (forall j :: 0 <= j < |bs| ==> 0 < |bs[j]| <= size)
            && (forall j :: 0 <= j < |bs| - 1 ==> |bs[j]| == size)
    decreases |u| - i
  {
    if i < |u| {
      var n := Min(i + size, |u|);
      var rest := Batches(u, i + size, size);
      if i + size <= |u| {
        BatchesCover(u, i + size, size);
      }
      assert Batches(u, i, size) == [u[i..n]] + rest;
      assert u[i..n] + u[n..] == u[i..];
    }
  }

  /** The j-th batch is the slice the batch loop sends at position
      i + j * size, the j-th value of range(i, len(unprocessed), size). */
  lemma {:induction false} BatchesAreTurns<T>(u: seq<T>, i: nat, size: nat, j: nat)
    requires size > 0 && j < |Batches(u, i, size)|
    ensures i + j * size < |u|
    ensures Batches(u, i, size)[j] == u[i + j * size..Min(i + j * size + size, |u|)]
    decreases j
  {
    if j > 0 {
      BatchesAreTurns(u, i + size, size, j - 1);
      assert (i + size) + (j - 1) * size == i + j * size;
    }
  }

  // ---------------------------------------------------------------------------
  // Writing one returned list

  /** The lines written for a returned list whose first element gets the
      index first: element k gets first + k; objects are stamped and written,
      anything else is skipped and its index left unused. */
  function StampItems(items: seq<Json>, first: int): seq<Line>
    decreases |items|
  {
    if |items| == 0 then []
    else
      var k := |items| - 1;
      StampItems(items[..k], first) + (if items[k].JObj? then [Stamped(items[k].fields, first + k)] else [])
  }

  /** Every line written carries an index; the indices strictly increase and
      lie in [first, first + |items|), so no index is used twice. */
  lemma {:induction false} StampItemsIncreasing(items: seq<Json>, first: int)
    ensures |StampItems(items, first)| <= |items|
    ensures IncreasingRun(StampItems(items, first), first, first + |items|)
    decreases |items|
  {
    if |items| > 0 {
      var k := |items| - 1;
      var front := StampItems(items[..k], first);
      var written := if items[k].JObj? then [Stamped(items[k].fields, first + k)] else [];
      StampItemsIncreasing(items[..k], first);
      assert IncreasingRun(written, first + k, first + k + 1);
      IncreasingRunJoin(front, written, first, first + |items[..k]|, first + k, first + |items|);
    }
  }

  /** Each object of the returned list is written, stamped with its own
      position, whatever its neighbours are. */
  lemma {:induction false} StampItemsWritesObjects(items: seq<Json>, first: int, k: int)
    requires 0 <= k < |items| && items[k].JObj?
    ensures Stamped(items[k].fields, first + k) in StampItems(items, first)
    decreases |items|
  {
    var n := |items| - 1;
    var front := StampItems(items[..n], first);
    if k < n {
      StampItemsWritesObjects(items[..n], first, k);
      assert items[..n][k] == items[k];
    } else {
      assert StampItems(items, first) == front + [Stamped(items[k].fields, first + k)];
    }
  }

  /** Only objects are written: every line is some object of the returned
      list stamped with its own position. */
  lemma {:induction false} StampItemsOnlyObjects(items: seq<Json>, first: int, l: Line)
    requires l in StampItems(items, first)
    ensures exists k :: 0 <= k < |items| && items[k].JObj? && l == Stamped(items[k].fields, first + k)
    decreases |items|
  {
    var n := |items| - 1;
    var front := StampItems(items[..n], first);
    if l in front {
      StampItemsOnlyObjects(items[..n], first, l);
      var k :| 0 <= k < n && items[..n][k].JObj? && l == Stamped(items[..n][k].fields, first + k);
      assert items[k] == items[..n][k];
    } else {
      assert items[n].JObj? && l == Stamped(items[n].fields, first + n);
    }
  }

  /** When every element is an object, element k is written, unchanged but
      for its index, as the line with index first + k. */
  lemma {:induction false} StampAllObjects(items: seq<Json>, first: int)
    requires forall j :: 0 <= j < |items| ==> items[j].JObj?
    ensures |StampItems(items, first)| == |items|
    ensures forall j :: 0 <= j < |items| ==> StampItems(items, first)[j] == Stamped(items[j].fields, first + j)
    decreases |items|
  {
    if |items| > 0 {
      var k := |items| - 1;
      StampAllObjects(items[..k], first);
      assert StampItems(items, first) == StampItems(items[..k], first) + [Stamped(items[k].fields, first + k)];
    }
  }

  /** ... and so the lines carry exactly the indices first .. first + |items| - 1. */
  lemma StampAllObjectsIndexed(items: seq<Json>, first: int)
    requires forall j :: 0 <= j < |items| ==> items[j].JObj?
    ensures IndexedRun(StampItems(items, first), first, first + |items|)
  {
    StampAllObjects(items, first);
  }

  // ---------------------------------------------------------------------------
  // The batch loop

  /** The lines written for one batch whose first record has the global
      index first: element k of the returned list gets first + k. The
      isinstance(list) test of the driver is kept, though a translation is
      always a list. */
  function BatchLines(att: Outcomes, batch: seq<Json>, first: int, call: nat): seq<Line>
  {
    var t := Translation(att, batch, call);
    if t.value.JArr? then StampItems(t.value.items, first) else []
  }

  /** With a backend that never answers with more elements than it was sent,
      the lines of one batch carry strictly increasing indices inside
      first .. first + |batch| - 1. */
  lemma BatchLinesIncreasing(att: Outcomes, batch: seq<Json>, first: int, call: nat)
    requires NeverLonger(att)
    ensures IncreasingRun(BatchLines(att, batch, first, call), first, first + |batch|)
  {
    var items := Translation(att, batch, call).value.items;
    TranslationNeverLonger(att, batch, call);
    StampItemsIncreasing(items, first);
    IncreasingRunWiden(StampItems(items, first), first, first + |items|, first, first + |batch|);
  }

  /** With a fault-free backend one batch is written whole: its records get
      the indices first .. first + |batch| - 1, after a single request. */
  lemma BatchLinesFaultFree(att: Outcomes, batch: seq<Json>, first: int, call: nat)
    requires FaultFree(att)
    ensures Translation(att, batch, call).calls == 1
    ensures IndexedRun(BatchLines(att, batch, first, call), first, first + |batch|)
  {
    FaultFreeTranslation(att, batch, call);
    StampAllObjectsIndexed(Translation(att, batch, call).value.items, first);
  }

  /** What one turn of the batch loop yields: the lines it appends and the
      number of the run's next request. */
  datatype Written = Written(lines: seq<Line>, next: nat)

  /** A turn of the batch loop as a value: write(batch, first, call) is what
      translating batch, whose first record has the index first, and writing
      its objects yields when the run's next request is numbered call. */
  type Writer = (seq<Json>, int, nat) -> Written

  /** The turn normal mode takes: translate_batch, then write the list. */
  function Write(att: Outcomes): Writer
  {
    (batch: seq<Json>, first: int, call: nat) =>
      Written(BatchLines(att, batch, first, call), call + Translation(att, batch, call).calls)
  }

  /** Every turn writes strictly increasing indices inside the batch's own
      range first .. first + |batch| - 1. */
  ghost predicate WritesIncreasing(write: Writer)
  {
    forall batch, first, call :: IncreasingRun(write(batch, first, call).lines, first, first + |batch|)
  }

  /** Every turn writes each index of the batch's range once, in order. */
  ghost predicate WritesWhole(write: Writer)
  {
    forall batch, first, call :: IndexedRun(write(batch, first, call).lines, first, first + |batch|)
  }

  lemma WriteIncreasing(att: Outcomes)
    requires NeverLonger(att)
    ensures WritesIncreasing(Write(att))
  {
    forall batch, first, call ensures IncreasingRun(Write(att)(batch, first, call).lines, first, first + |batch|) {
      BatchLinesIncreasing(att, batch, first, call);
    }
  }

  lemma WriteWhole(att: Outcomes)
    requires FaultFree(att)
    ensures WritesWhole(Write(att))
  {
    forall batch, first, call ensures IndexedRun(Write(att)(batch, first, call).lines, first, first + |batch|) {
      BatchLinesFaultFree(att, batch, first, call);
    }
  }

  /** What the loop appends from position i of unprocessed on, when the run's
      next request is numbered call: the batch at i is unprocessed[i:i + size]
      and its first record has the index processed + i + 1. */
  function RunFrom(write: Writer, u: seq<Json>, i: nat, size: nat, processed: int, call: nat): seq<Line>
    requires size > 0
    decreases |u| - i
  {
    if i >= |u| then []
    else
      var turn := write(u[i..Min(i + size, |u|)], processed + i + 1, call);
      turn.lines + RunFrom(write, u, i + size, size, processed, turn.next)
  }

  /** One batch of the loop followed by the rest. */
  lemma RunFromUnfold(write: Writer, u: seq<Json>, i: nat, size: nat, processed: int, call: nat)
    requires size > 0 && i < |u|
    ensures var turn := write(u[i..Min(i + size, |u|)], processed + i + 1, call);
            RunFrom(write, u, i, size, processed, call) == turn.lines + RunFrom(write, u, i + size, size, processed, turn.next)
  {
  }

  /** If every turn stays inside its batch's range, the indices appended
      strictly increase and stay inside processed + i + 1 .. processed + |u|:
      a failed batch or a skipped element leaves a gap, never a duplicate. */
  lemma {:induction false} RunFromIncreasing(write: Writer, u: seq<Json>, i: nat, size: nat, processed: int, call: nat)
    requires WritesIncreasing(write) && size > 0 && i <= |u|
    ensures IncreasingRun(RunFrom(write, u, i, size, processed, call), processed + i + 1, processed + |u| + 1)
    decreases |u| - i
  {
    var hi := processed + |u| + 1;
    if i < |u| {
      var b := u[i..Min(i + size, |u|)];
      var turn := write(b, processed + i + 1, call);
      RunFromUnfold(write, u, i, size, processed, call);
      assert IncreasingRun(turn.lines, processed + i + 1, processed + i + 1 + |b|);
      var r := RunFrom(write, u, i + size, size, processed, turn.next);
      if i + size <= |u| {
        RunFromIncreasing(write, u, i + size, size, processed, turn.next);
        IncreasingRunJoin(turn.lines, r, processed + i + 1, processed + i + 1 + |b|, processed + (i + size) + 1, hi);
      } else {
        assert r == [];
        IncreasingRunJoin(turn.lines, r, processed + i + 1, processed + i + 1 + |b|, hi, hi);
      }
    }
  }

  /** What is left after the batch at i writes the indices from
      processed + Min(i + size, |u|) + 1 on, given that they are written from
      the next position when there is one. */
  lemma FaultFreeRest(u: seq<Json>, i: nat, size: nat, processed: int, r: seq<Line>)
    requires size > 0 && i < |u|
    requires i + size >= |u| ==> r == []
    requires i + size <= |u| ==> IndexedRun(r, processed + (i + size) + 1, processed + |u| + 1)
    ensures IndexedRun(r, processed + Min(i + size, |u|) + 1, processed + |u| + 1)
  {
  }

  /** If every turn writes its whole batch, every record from position i on
      is written, with the indices processed + i + 1, processed + i + 2, ...
      in order. */
  lemma {:induction false} RunFromWhole(write: Writer, u: seq<Json>, i: nat, size: nat, processed: int, call: nat)
    requires WritesWhole(write) && size > 0 && i <= |u|
    ensures IndexedRun(RunFrom(write, u, i, size, processed, call), processed + i + 1, processed + |u| + 1)
    decreases |u| - i
  {
    var hi := processed + |u| + 1;
    if i < |u| {
      var b := u[i..Min(i + size, |u|)];
      var turn := write(b, processed + i + 1, call);
      RunFromUnfold(write, u, i, size, processed, call);
      assert IndexedRun(turn.lines, processed + i + 1, processed + i + 1 + |b|);
      var r := RunFrom(write, u, i + size, size, processed, turn.next);
      if i + size <= |u| {
        RunFromWhole(write, u, i + size, size, processed, turn.next);
      } else {
        assert r == [];
      }
      FaultFreeRest(u, i, size, processed, r);
      assert processed + i + 1 + |b| == processed + Min(i + size, |u|) + 1;
      IndexedRunJoin(turn.lines, r, processed + i + 1, processed + Min(i + size, |u|) + 1, hi);
    }
  }

  // ---------------------------------------------------------------------------
  // The whole normal-mode run

  /** What a normal-mode run appends to an output file holding lines, or None
      when it stops with an exception before writing (a non-integer resume
      index, or a batch size of 0, which range() rejects). A negative batch
      size gives an empty range and nothing to do. */
  function NormalAppends(att: Outcomes, data: seq<Json>, lines: seq<Line>, batchSize: int): Option<seq<Line>>
  {
    match ResumePoint(lines)
    case BadIndex => None
    case ResumeAt(k) =>
      if batchSize == 0 then None
      else if batchSize < 0 then Some([])
      else Some(RunFrom(Write(att), PyDrop(data, k), 0, batchSize, k, 0))
  }

  /** The run from the start of unprocessed stays inside the indices
      processed + 1 .. n whenever unprocessed ends at or before n. */
  lemma RunIncreasingWithin(write: Writer, u: seq<Json>, size: nat, processed: int, n: int)
    requires WritesIncreasing(write) && size > 0 && (|u| == 0 || processed + |u| <= n)
    ensures IncreasingRun(RunFrom(write, u, 0, size, processed, 0), processed + 1, n + 1)
  {
    if |u| == 0 {
      assert RunFrom(write, u, 0, size, processed, 0) == [];
      return;
    }
    RunFromIncreasing(write, u, 0, size, processed, 0);
    IncreasingRunWiden(RunFrom(write, u, 0, size, processed, 0), processed + 0 + 1, processed + |u| + 1, processed + 1, n + 1);
  }

  /** A resumed run only appends indices above the resume point and at most
      the number of records, each at most once and in increasing order, for
      any backend that never answers with more elements than it was sent. */
  lemma ResumedRunAppendsFreshIndices(att: Outcomes, data: seq<Json>, lines: seq<Line>, batchSize: int)
    requires NeverLonger(att)
    requires ResumePoint(lines).ResumeAt?
    requires NormalAppends(att, data, lines, batchSize).Some?
    ensures IncreasingRun(NormalAppends(att, data, lines, batchSize).value, ResumePoint(lines).count + 1, |data| + 1)
  {
    var k := ResumePoint(lines).count;
    if batchSize > 0 {
      var u := PyDrop(data, k);
      WriteIncreasing(att);
      RunIncreasingWithin(Write(att), u, batchSize, k, |data|);
    }
  }

  /** In particular a fault-free backend, whatever file it resumes, appends
      only fresh indices above the resume point, each at most once. */
  lemma FaultFreeRunAppendsFreshIndices(att: Outcomes, data: seq<Json>, lines: seq<Line>, batchSize: int)
    requires FaultFree(att)
    requires ResumePoint(lines).ResumeAt?
    requires NormalAppends(att, data, lines, batchSize).Some?
    ensures IncreasingRun(NormalAppends(att, data, lines, batchSize).value, ResumePoint(lines).count + 1, |data| + 1)
  {
    FaultFreeNeverLonger(att);
    ResumedRunAppendsFreshIndices(att, data, lines, batchSize);
  }

  /** A backend that answers every request with one object more than it was
      sent. */
  function OverAnswer(): Outcomes
  {
    (batch: seq<Json>, call: nat) => Array(seq(|batch| + 1, k => JObj(map[])))
  }

  /** Against OverAnswer, a batch of one record is written as two lines. */
  lemma OverAnswerBatch(first: int, call: nat)
    ensures Translation(OverAnswer(), [JNull], call).calls == 1
    ensures BatchLines(OverAnswer(), [JNull], first, call) == [Stamped(map[], first), Stamped(map[], first + 1)]
  {
    var two := seq(2, k => JObj(map[]));
    assert OverAnswer()([JNull], call) == Array(two);
    StampAllObjects(two, first);
    assert two[0].fields == map[] && two[1].fields == map[];
  }

  /** The batch loop against OverAnswer over two records in batches of one. */
  lemma OverAnswerRun()
    ensures RunFrom(Write(OverAnswer()), [JNull, JNull], 0, 1, 0, 0)
            == [Stamped(map[], 1), Stamped(map[], 2), Stamped(map[], 2), Stamped(map[], 3)]
  {
    var write, data := Write(OverAnswer()), [JNull, JNull];
    assert data[0..Min(0 + 1, 2)] == [JNull] && data[1..Min(1 + 1, 2)] == [JNull];
    OverAnswerBatch(1, 0);
    OverAnswerBatch(2, 1);
    assert RunFrom(write, data, 2, 1, 0, 2) == [];
  }

  /** Why ResumedRunAppendsFreshIndices needs NeverLonger: with two records,
      an empty file, batch size 1 and a backend answering one object too
      many, the stamping loop writes the indices 1, 2, 2, 3, so index 2 twice
      and index 3 beyond the data. */
  lemma OverAnsweringRepeatsAnIndex()
    ensures var out := NormalAppends(OverAnswer(), [JNull, JNull], [], 1);
            && out.Some? && |out.value| == 4
            && IndexOf(out.value[0]) == 1 && IndexOf(out.value[1]) == 2
            && IndexOf(out.value[2]) == 2 && IndexOf(out.value[3]) == 3
            && !IncreasingRun(out.value, 1, 3)
  {
    var data := [JNull, JNull];
    assert PyDrop(data, 0) == data;
    OverAnswerRun();
    var l1, l2, l3 := Stamped(map[], 1), Stamped(map[], 2), Stamped(map[], 3);
    var out := [l1, l2, l2, l3];
    assert IndexOf(l1) == 1 && IndexOf(l2) == 2 && IndexOf(l3) == 3;
    if IncreasingRun(out, 1, 3) {
      IncreasingRunMeans(out, 1, 3);
      assert false;
    }
  }

  /** Resume is idempotent: if the file holds the indices 1..k in order, a
      fault-free run appends exactly k + 1..N, leaving the file with every
      index 1..N once, in order. Starting from an empty file this is a whole
      fault-free run. */
  lemma FaultFreeRunCompletes(att: Outcomes, data: seq<Json>, lines: seq<Line>, batchSize: int)
    requires FaultFree(att) && batchSize > 0
    requires IndexedRun(lines, 1, |lines| + 1) && |lines| <= |data|
    ensures NormalAppends(att, data, lines, batchSize).Some?
    ensures IndexedRun(lines + NormalAppends(att, data, lines, batchSize).value, 1, |data| + 1)
  {
    ResumeAfterOrderedLines(lines);
    var k := |lines|;
    var u := PyDrop(data, k);
    WriteWhole(att);
    RunFromWhole(Write(att), u, 0, batchSize, k, 0);
    assert k + 0 + 1 == |lines| + 1 && k + |u| + 1 == |data| + 1;
    IndexedRunJoin(lines, RunFrom(Write(att), u, 0, batchSize, k, 0), 1, |lines| + 1, |data| + 1);
  }

  /** The inner loop of normal mode: element k of the returned list gets the
      index batchStart + 1 + k and is written when it is an object. */
  method WriteItems(sink: Sink, items: seq<Json>, batchStart: int)
    modifies sink
    ensures sink.lines == old(sink.lines) + StampItems(items, batchStart + 1)
  {
    for k := 0 to |items|
      invariant sink.lines == old(sink.lines) + StampItems(items[..k], batchStart + 1)
    {
      assert items[..k + 1][..k] == items[..k];
      if items[k].JObj? {
        sink.Append(Stamped(items[k].fields, batchStart + 1 + k));
      }
    }
    assert items[..|items|] == items;
  }

  /** Translate one batch and write the objects of the returned list. */
  method TranslateAndWrite(svc: Service, batch: seq<Json>, sink: Sink, batchStart: int, call: nat)
    returns (next: nat)
    modifies sink
    ensures next == call + Translation(Attempts(svc), batch, call).calls
    ensures sink.lines == old(sink.lines) + BatchLines(Attempts(svc), batch, batchStart + 1, call)
  {
    var translated;
    translated, next := TranslateBatch(svc, batch, call);
    if translated.JArr? {
      WriteItems(sink, translated.items, batchStart);
    }
  }

  /** If the lines written so far followed by everything from position i
      make goal, then so do the lines after writing the batch at i followed
      by everything from the next position. */
  lemma StepKeepsGoal(att: Outcomes, u: seq<Json>, i: nat, size: nat, processed: int, call: nat,
                      before: seq<Line>, after: seq<Line>, next: nat, goal: seq<Line>)
    requires size > 0 && i < |u|
    requires goal == before + RunFrom(Write(att), u, i, size, processed, call)
    requires after == before + BatchLines(att, u[i..Min(i + size, |u|)], processed + i + 1, call)
    requires next == call + Translation(att, u[i..Min(i + size, |u|)], call).calls
    ensures goal == after + RunFrom(Write(att), u, i + size, size, processed, next)
  {
    var turn := Write(att)(u[i..Min(i + size, |u|)], processed + i + 1, call);
    RunFromUnfold(Write(att), u, i, size, processed, call);
    var rest := RunFrom(Write(att), u, i + size, size, processed, next);
    assert (before + turn.lines) + rest == before + (turn.lines + rest);
  }

  /** One turn of the batch loop: translate and write the batch at i and
      move on to the next position. */
  method BatchStep(svc: Service, u: seq<Json>, i: nat, size: nat, processed: int,
                   sink: Sink, call: nat, ghost goal: seq<Line>)
    returns (i': nat, next: nat)
    requires size > 0 && i < |u|
    requires goal == sink.lines + RunFrom(Write(Attempts(svc)), u, i, size, processed, call)
    modifies sink
    ensures i' == i + size
    ensures next == call + Translation(Attempts(svc), u[i..Min(i + size, |u|)], call).calls
    ensures sink.lines == old(sink.lines) + BatchLines(Attempts(svc), u[i..Min(i + size, |u|)], processed + i + 1, call)
    ensures goal == sink.lines + RunFrom(Write(Attempts(svc)), u, i', size, processed, next)
  {
    i' := i + size;
    var batch := u[i..Min(i + size, |u|)];
    ghost var before := sink.lines;
    next := TranslateAndWrite(svc, batch, sink, processed + i, call);
    StepKeepsGoal(Attempts(svc), u, i, size, processed, call, before, sink.lines, next, goal);
  }

  /** The batch loop: for i in range(0, len(unprocessed), batchSize). */
  method RunBatchLoop(svc: Service, data: seq<Json>, processed: int, sink: Sink, batchSize: nat)
    requires batchSize > 0
    modifies sink
    ensures sink.lines == old(sink.lines) + RunFrom(Write(Attempts(svc)), PyDrop(data, processed), 0, batchSize, processed, 0)
  {
    var unprocessed := PyDrop(data, processed);
    ghost var goal := sink.lines + RunFrom(Write(Attempts(svc)), unprocessed, 0, batchSize, processed, 0);
    var call: nat := 0;
    var i: nat := 0;
    while i < |unprocessed|
      invariant goal == sink.lines + RunFrom(Write(Attempts(svc)), unprocessed, i, batchSize, processed, call)
      decreases |unprocessed| - i
    {
      i, call := BatchStep(svc, unprocessed, i, batchSize, processed, sink, call, goal);
    }
  }

  /** A normal-mode run appending to sink. Returns false when the run stops
      with an exception before writing. */
  method RunNormal(svc: Service, data: seq<Json>, sink: Sink, batchSize: int) returns (ok: bool)
    modifies sink
    ensures ok == NormalAppends(Attempts(svc), data, old(sink.lines), batchSize).Some?
    ensures sink.lines == old(sink.lines) + (if ok then NormalAppends(Attempts(svc), data, old(sink.lines), batchSize).value else [])
  {
    var resume := ResumePoint(sink.lines);
    if resume.BadIndex? {
      return false;
    }
    if batchSize == 0 {
      return false;
    }
    if batchSize < 0 {
      return true;
    }
    RunBatchLoop(svc, data, resume.count, sink, batchSize);
    ok := true;
  }
}
