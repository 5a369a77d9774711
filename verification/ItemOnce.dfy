/** What deduplication achieves: a recorded fingerprint is dropped, and when lookups and records
    work and flushes do not overlap, no fingerprint is written twice. And what each counter counts. */
module ItemOnce {
  import opened Seqs
  import opened ItemBuffer
  import opened ItemOverlap

  // ---------------------------------------------------------------- a recorded row is dropped

  /** A lookup that works and finds the fingerprint recorded drops the row: it joins no group, so
      this flush never writes or dumps it, and the counter of duplicates goes up by one. */
  lemma RecordedIsDropped(plan: Plan, sink: Sink, fl: Flush)
    requires plan.filterOn && Can(plan, fl, Look(true, true))
    requires fl.batch[fl.next].fp.Some? && fl.batch[fl.next].fp.value in sink.recorded
    ensures
      var fl', t := FlushAfter(plan, sink, fl, Look(true, true)), SinkAfter(plan, sink, fl, Look(true, true));
      && fl'.groups == fl.groups && fl'.next == fl.next + 1
      && t.deduped == sink.deduped + 1 && t.written == sink.written && t.dumped == sink.dumped
  {
  }

  /** A row that is neither recorded nor seen in its batch, or has no fingerprint, is kept. */
  lemma NewIsKept(plan: Plan, sink: Sink, fl: Flush, getOk: bool)
    requires Can(plan, fl, Look(true, getOk))
    requires
      var fp := fl.batch[fl.next].fp;
      !plan.filterOn || fp.None? || (fp.value !in sink.recorded && fp.value !in fl.seen)
    ensures
      var row := fl.batch[fl.next];
      var fl' := FlushAfter(plan, sink, fl, Look(true, getOk));
      |Flat(fl'.groups)| == |Flat(fl.groups)| + 1 && row in Flat(fl'.groups)
      && SinkAfter(plan, sink, fl, Look(true, getOk)) == sink
  {
    InsertFlat(fl.groups, fl.batch[fl.next]);
  }

  // ---------------------------------------------------------------- counting fingerprints

  /** How many rows carry the fingerprint. */
  function Times(rows: seq<Row>, fp: string): nat {
    if rows == [] then 0 else (if rows[0].fp == Some(fp) then 1 else 0) + Times(rows[1..], fp)
  }

  lemma {:induction false} TimesConcat(a: seq<Row>, b: seq<Row>, fp: string)
    ensures Times(a + b, fp) == Times(a, fp) + Times(b, fp)
  {
    if a == [] {
      assert a + b == b;
    } else {
      TimesConcat(a[1..], b, fp);
      assert (a + b)[1..] == a[1..] + b;
    }
  }

  lemma {:induction false} TimesAt(rows: seq<Row>, i: nat, j: nat, fp: string)
    requires i < |rows| && rows[i].fp == Some(fp)
    ensures Times(rows, fp) >= 1
    ensures i < j < |rows| && rows[j].fp == Some(fp) ==> Times(rows, fp) >= 2
  {
    if i > 0 {
      TimesAt(rows[1..], i - 1, if i < j then j - 1 else 0, fp);
    } else if i < j < |rows| && rows[j].fp == Some(fp) {
      TimesAt(rows[1..], j - 1, 0, fp);
    }
  }

  lemma {:induction false} TimesFound(rows: seq<Row>, fp: string) returns (i: nat)
    requires Times(rows, fp) >= 1
    ensures i < |rows| && rows[i].fp == Some(fp)
  {
    if rows[0].fp == Some(fp) {
      i := 0;
    } else {
      i := TimesFound(rows[1..], fp);
      i := i + 1;
    }
  }

  lemma {:induction false} TimesInsert(groups: seq<Group>, row: Row, fp: string)
    ensures Times(Flat(Insert(groups, row)), fp) == Times(Flat(groups), fp) + if row.fp == Some(fp) then 1 else 0
  {
    var out := Insert(groups, row);
    FlatFront(out);
    if groups == [] {
      assert out[1..] == [] && [row][1..] == [];
    } else {
      FlatFront(groups);
      TimesConcat(groups[0].rows, Flat(groups[1..]), fp);
      TimesConcat(out[0].rows, Flat(out[1..]), fp);
      if groups[0].key == row.key {
        assert out[1..] == groups[1..];
        TimesConcat(groups[0].rows, [row], fp);
        assert [row][1..] == [];
      } else {
        assert out[1..] == Insert(groups[1..], row);
        TimesInsert(groups[1..], row, fp);
      }
    }
  }

  // ---------------------------------------------------------------- written at most once

  predicate Ended(fl: Flush) {
    fl.phase.Completed? || fl.phase.Raised?
  }

  /** The rows this flush may still write. */
  function Waiting(fl: Flush): seq<Row>
    requires fl.g <= |fl.groups|
  {
    if Ended(fl) then []
    else if fl.phase.Recording? && fl.g < |fl.groups| then Flat(fl.groups[fl.g + 1..])
    else Flat(fl.groups[fl.g..])
  }

  /** The rows that are written and whose fingerprints this flush is about to record. */
  function Unrecorded(fl: Flush): seq<Row> {
    if fl.phase.Recording? && fl.g < |fl.groups| && fl.phase.k <= |fl.groups[fl.g].rows|
    then fl.groups[fl.g].rows[fl.phase.k..] else []
  }

  /** For one fingerprint: written or waiting at most once, recorded once written, and noted in
      the batch once grouped. */
  ghost predicate Single(sink: Sink, fl: Flush, fp: string) {
    && fl.g <= |fl.groups| && (fl.phase.Looking? ==> fl.g == 0)
    && (fl.phase.Recording? ==> fl.g < |fl.groups| && fl.phase.k <= |fl.groups[fl.g].rows|)
    && Times(sink.written, fp) + Times(Waiting(fl), fp) <= 1
    && (Times(sink.written, fp) >= 1 ==> fp in sink.recorded || Times(Unrecorded(fl), fp) >= 1)
    && (fl.phase.Looking? && Times(Flat(fl.groups), fp) >= 1 ==> fp in fl.seen)
  }

  /** Lookups and records work. */
  predicate Works(act: Act) {
    && (act.Look? ==> act.getOk)
    && (act.Record? ==> act.ok)
  }

  lemma SingleLook(plan: Plan, sink: Sink, fl: Flush, normOk: bool, fp: string)
    requires plan.filterOn && Single(sink, fl, fp) && Can(plan, fl, Look(normOk, true))
    ensures
      var t := SinkAfter(plan, sink, fl, Look(normOk, true));
      Single(t, FlushAfter(plan, sink, fl, Look(normOk, true)), fp)
  {
    hide Flat, Insert;
    var row := fl.batch[fl.next];
    assert fl.groups[0..] == fl.groups;
    var fl' := FlushAfter(plan, sink, fl, Look(normOk, true));
    if normOk && !Duplicate(plan, sink, fl, true) {
      TimesInsert(fl.groups, row, fp);
      assert fl'.groups[0..] == fl'.groups;
    }
  }

  lemma WaitingNext(fl: Flush, fp: string)
    requires fl.g < |fl.groups|
    ensures Times(Flat(fl.groups[fl.g..]), fp)
         == Times(fl.groups[fl.g].rows, fp) + Times(Flat(fl.groups[fl.g + 1..]), fp)
  {
    hide Flat;
    FlatFront(fl.groups[fl.g..]);
    assert fl.groups[fl.g..][1..] == fl.groups[fl.g + 1..];
    TimesConcat(fl.groups[fl.g].rows, Flat(fl.groups[fl.g + 1..]), fp);
  }

  lemma SingleRecord(plan: Plan, sink: Sink, fl: Flush, fp: string)
    requires Single(sink, fl, fp) && Can(plan, fl, Record(true))
    ensures Single(SinkAfter(plan, sink, fl, Record(true)), FlushAfter(plan, sink, fl, Record(true)), fp)
  {
    hide Flat;
    var rows, k := fl.groups[fl.g].rows, fl.phase.k;
    assert rows[k..][1..] == rows[k + 1..];
  }

  lemma SingleAct(plan: Plan, sink: Sink, fl: Flush, act: Act, fp: string)
    requires plan.filterOn && Single(sink, fl, fp) && Can(plan, fl, act) && Works(act)
    ensures Single(SinkAfter(plan, sink, fl, act), FlushAfter(plan, sink, fl, act), fp)
  {
    hide Flat;
    match act {
      case Look(normOk, _) => SingleLook(plan, sink, fl, normOk, fp);
      case Record(_) => SingleRecord(plan, sink, fl, fp);
      case Accept =>
        WaitingNext(fl, fp);
        TimesConcat(sink.written, fl.groups[fl.g].rows, fp);
        assert fl.groups[fl.g].rows[0..] == fl.groups[fl.g].rows;
      case Dump(_) => WaitingNext(fl, fp);
      case Recorded => assert fl.groups[fl.g].rows[fl.phase.k..] == [];
      case _ =>
    }
  }

  /** Every flush but the last has ended: flushes do not overlap. */
  ghost predicate OneAtATime(fls: seq<Flush>) {
    forall f | 0 <= f < |fls| - 1 :: Ended(fls[f])
  }

  /** A step of a run in which lookups and records work and flushes do not overlap. */
  predicate Calm(w: World, step: Step) {
    match step
    case Begin(_) => w.flushes == [] || Ended(w.flushes[|w.flushes| - 1])
    case Do(_, act) => Works(act)
  }

  ghost predicate AllSingle(w: World, fp: string) {
    && OneAtATime(w.flushes)
    && (w.flushes == [] ==> w.sink.written == [])
    && (w.flushes != [] ==> Single(w.sink, w.flushes[|w.flushes| - 1], fp))
  }

  lemma SingleBegin(sink: Sink, fl: Flush, batch: seq<Row>, fp: string)
    requires Single(sink, fl, fp) && Ended(fl)
    ensures Single(sink, Begun(batch), fp)
  {
    assert Begun(batch).groups[0..] == [];
  }

  lemma FirstBegin(sink: Sink, batch: seq<Row>, fp: string)
    requires sink.written == []
    ensures Single(sink, Begun(batch), fp)
  {
    assert Begun(batch).groups[0..] == [];
  }

  lemma AllSingleStep(plan: Plan, w: World, step: Step, fp: string)
    requires plan.filterOn && AllSingle(w, fp) && Enabled(plan, w, step) && Calm(w, step)
    ensures AllSingle(Apply(plan, w, step), fp)
  {
    hide Single, FlushAfter, SinkAfter;
    match step
    case Begin(batch) =>
      if w.flushes == [] {
        FirstBegin(w.sink, batch, fp);
      } else {
        SingleBegin(w.sink, w.flushes[|w.flushes| - 1], batch, fp);
      }
    case Do(f, act) =>
      NotEnded(plan, w.flushes[f], act);
      assert f == |w.flushes| - 1;
      SingleAct(plan, w.sink, w.flushes[f], act, fp);
  }

  lemma NotEnded(plan: Plan, fl: Flush, act: Act)
    requires Can(plan, fl, act)
    ensures !Ended(fl)
  {
  }

  ghost predicate CalmRun(plan: Plan, steps: seq<Step>) {
    Exec(plan, steps).Some? &&
    forall i | 0 <= i < |steps| :: Exec(plan, steps[..i]).Some? && Calm(Exec(plan, steps[..i]).value, steps[i])
  }

  lemma {:induction false} CalmRunSingle(plan: Plan, steps: seq<Step>, fp: string)
    requires plan.filterOn && CalmRun(plan, steps)
    ensures AllSingle(Exec(plan, steps).value, fp)
  {
    hide AllSingle, Apply, Calm;
    if steps == [] {
      NothingSingle(fp);
    } else {
      var n := |steps| - 1;
      forall i | 0 <= i < n
        ensures Exec(plan, steps[..n][..i]).Some? && Calm(Exec(plan, steps[..n][..i]).value, steps[..n][i])
      {
        assert steps[..n][..i] == steps[..i];
      }
      CalmRunSingle(plan, steps[..n], fp);
      assert Calm(Exec(plan, steps[..n]).value, steps[n]);
      AllSingleStep(plan, Exec(plan, steps[..n]).value, steps[n], fp);
    }
  }

  lemma NothingSingle(fp: string)
    ensures AllSingle(NOTHING, fp)
  {
  }

  /** With the filter on, working lookups and records, and flushes one after the other, no two
      written rows carry the same fingerprint, whatever the writes, dumps and normalizations do. */
  lemma WrittenAtMostOnce(plan: Plan, steps: seq<Step>, i: nat, j: nat)
    requires plan.filterOn && CalmRun(plan, steps)
    requires
      var rows := Exec(plan, steps).value.sink.written;
      i < j < |rows| && rows[i].fp.Some?
    ensures var rows := Exec(plan, steps).value.sink.written; rows[i].fp != rows[j].fp
  {
    hide Exec, OneAtATime, Calm;
    var w := Exec(plan, steps).value;
    var rows := w.sink.written;
    if rows[i].fp == rows[j].fp {
      CalmRunSingle(plan, steps, rows[i].fp.value);
      TimesAt(rows, i, j, rows[i].fp.value);
      assert false;
    }
  }

  // ---------------------------------------------------------------- what each counter counts

  function Drops(fls: seq<Flush>): nat {
    if fls == [] then 0 else Drops(fls[..|fls| - 1]) + fls[|fls| - 1].dropped
  }

  lemma {:induction false} DropsUpdate(fls: seq<Flush>, f: nat, fl: Flush)
    requires f < |fls|
    ensures Drops(fls[f := fl]) == Drops(fls) - fls[f].dropped + fl.dropped
  {
    var n := |fls| - 1;
    if f < n {
      DropsUpdate(fls[..n], f, fl);
      assert fls[f := fl][..n] == fls[..n][f := fl];
    } else {
      assert fls[f := fl][..n] == fls[..n];
    }
  }

  ghost predicate EachCounts(w: World) {
    w.sink.item == |w.sink.written| && w.sink.failed == |w.sink.dumped| && w.sink.deduped == Drops(w.flushes)
  }

  lemma EachCountsStep(plan: Plan, w: World, step: Step)
    requires EachCounts(w) && Enabled(plan, w, step)
    ensures EachCounts(Apply(plan, w, step))
  {
    hide Insert;
    match step
    case Begin(batch) => assert (w.flushes + [Begun(batch)])[..|w.flushes|] == w.flushes;
    case Do(f, act) => DropsUpdate(w.flushes, f, FlushAfter(plan, w.sink, w.flushes[f], act));
  }

  /** In every run: item counts the written rows, item_failed the dumped ones, and
      item_dedup_dropped the duplicates, each row once. */
  lemma {:induction false} EachCounterCounts(plan: Plan, steps: seq<Step>)
    requires Exec(plan, steps).Some?
    ensures EachCounts(Exec(plan, steps).value)
  {
    hide Apply, Enabled;
    if steps != [] {
      var n := |steps| - 1;
      EachCounterCounts(plan, steps[..n]);
      EachCountsStep(plan, Exec(plan, steps[..n]).value, steps[n]);
    }
  }
}
