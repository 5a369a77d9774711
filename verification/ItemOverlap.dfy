/** Flushes of the item buffer that overlap: several threads persist their batches at once, and
    every lookup, write, record and dump is a step of its own. Any of them may fail. */
module ItemOverlap {
  import opened Seqs
  import opened ItemBuffer

  /** Whether items are deduplicated, and how many pipelines a group of a key goes to. */
  datatype Plan = Plan(filterOn: bool, width: Key -> nat)

  /** Looking items up, writing to pipeline `p`, recording row `k`, dumping, and the two ends. */
  datatype Phase = Looking | Saving(p: nat) | Recording(k: nat) | Dumping | Completed | Raised

  /** One flush: `next` items have been looked up, `g` groups are done. */
  datatype Flush = Flush(batch: seq<Row>, next: nat, seen: set<string>, groups: seq<Group>, g: nat, phase: Phase,
        dropped: nat)

  datatype Act =
    | Look(normOk: bool, getOk: bool)
    | Grouped
    | LoadFails
    | Write(ok: bool)
    | Accept
    | Record(ok: bool)
    | Recorded
    | Dump(ok: bool)
    | Finish

  function Begun(batch: seq<Row>): Flush {
    Flush(batch, 0, {}, [], 0, Looking, 0)
  }

  predicate Can(plan: Plan, fl: Flush, act: Act) {
    match act
    case Look(_, _) => fl.phase.Looking? && fl.next < |fl.batch|
    case Grouped => fl.phase.Looking? && fl.next == |fl.batch|
    case LoadFails => fl.phase == Saving(0) && fl.g < |fl.groups|
    case Write(_) => fl.phase.Saving? && fl.g < |fl.groups| && fl.phase.p < plan.width(fl.groups[fl.g].key)
    case Accept => fl.phase.Saving? && fl.g < |fl.groups| && fl.phase.p == plan.width(fl.groups[fl.g].key)
    case Record(_) => fl.phase.Recording? && fl.g < |fl.groups| && fl.phase.k < |fl.groups[fl.g].rows|
    case Recorded => fl.phase.Recording? && fl.g < |fl.groups| && fl.phase.k == |fl.groups[fl.g].rows|
    case Dump(_) => fl.phase.Dumping? && fl.g < |fl.groups|
    case Finish => fl.phase.Saving? && fl.g == |fl.groups|
  }

  /** A lookup that fails lets the item pass. */
  predicate Duplicate(plan: Plan, sink: Sink, fl: Flush, getOk: bool)
    requires fl.next < |fl.batch|
  {
    var fp := fl.batch[fl.next].fp;
    plan.filterOn && fp.Some? && (fp.value in fl.seen || (getOk && fp.value in sink.recorded))
  }

  function Looked(plan: Plan, sink: Sink, fl: Flush, normOk: bool, getOk: bool): Flush
    requires fl.next < |fl.batch|
  {
    var row := fl.batch[fl.next];
    if !normOk then fl.(phase := Raised)
    else if Duplicate(plan, sink, fl, getOk) then fl.(next := fl.next + 1, dropped := fl.dropped + 1)
    else fl.(next := fl.next + 1, groups := Insert(fl.groups, row),
             seen := if plan.filterOn && row.fp.Some? then fl.seen + {row.fp.value} else fl.seen)
  }

  function FlushAfter(plan: Plan, sink: Sink, fl: Flush, act: Act): Flush
    requires Can(plan, fl, act)
  {
    match act
    case Look(normOk, getOk) => Looked(plan, sink, fl, normOk, getOk)
    case Grouped => fl.(phase := Saving(0))
    case LoadFails => fl.(phase := Raised)
    case Write(ok) => fl.(phase := if ok then Saving(fl.phase.p + 1) else Dumping)
    case Accept => if plan.filterOn then fl.(phase := Recording(0)) else fl.(g := fl.g + 1, phase := Saving(0))
    case Record(ok) =>
      // the first failure leaves the rest of the group unrecorded
      if fl.groups[fl.g].rows[fl.phase.k].fp.None? || ok then fl.(phase := Recording(fl.phase.k + 1))
      else fl.(g := fl.g + 1, phase := Saving(0))
    case Recorded => fl.(g := fl.g + 1, phase := Saving(0))
    case Dump(ok) => if ok then fl.(g := fl.g + 1, phase := Saving(0)) else fl.(phase := Raised)
    case Finish => fl.(phase := Completed)
  }

  function SinkAfter(plan: Plan, sink: Sink, fl: Flush, act: Act): Sink
    requires Can(plan, fl, act)
  {
    match act
    case Look(normOk, getOk) =>
      if normOk && Duplicate(plan, sink, fl, getOk) then sink.(deduped := sink.deduped + 1) else sink
    case Accept =>
      var rows := fl.groups[fl.g].rows;
      sink.(written := sink.written + rows, item := sink.item + |rows|)
    case Record(ok) =>
      var fp := fl.groups[fl.g].rows[fl.phase.k].fp;
      if fp.Some? && ok then sink.(recorded := sink.recorded + {fp.value}) else sink
    case Dump(ok) =>
      var rows := fl.groups[fl.g].rows;
      if ok then sink.(dumped := sink.dumped + rows, failed := sink.failed + |rows|) else sink
    case _ => sink
  }

  // ---------------------------------------------------------------- runs

  datatype World = World(sink: Sink, flushes: seq<Flush>)

  const NOTHING := World(Sink([], [], {}, 0, 0, 0), [])

  datatype Step = Begin(batch: seq<Row>) | Do(f: nat, act: Act)

  predicate Enabled(plan: Plan, w: World, step: Step) {
    match step
    case Begin(_) => true
    case Do(f, act) => f < |w.flushes| && Can(plan, w.flushes[f], act)
  }

  function Apply(plan: Plan, w: World, step: Step): World
    requires Enabled(plan, w, step)
  {
    match step
    case Begin(batch) => w.(flushes := w.flushes + [Begun(batch)])
    case Do(f, act) =>
      World(SinkAfter(plan, w.sink, w.flushes[f], act),
            w.flushes[f := FlushAfter(plan, w.sink, w.flushes[f], act)])
  }

  function Exec(plan: Plan, steps: seq<Step>): Option<World> {
    if steps == [] then Some(NOTHING)
    else
      var n := |steps| - 1;
      var w := Exec(plan, steps[..n]);
      if w.Some? && Enabled(plan, w.value, steps[n]) then Some(Apply(plan, w.value, steps[n])) else None
  }

  // ---------------------------------------------------------------- what a flush knows

  /** Grouped, or a duplicate of a written or a grouped row. */
  ghost predicate Known(plan: Plan, sink: Sink, rows: seq<Row>, row: Row) {
    row in rows || (plan.filterOn && row.fp.Some? && (HasFp(sink.written, row.fp.value) || HasFp(rows, row.fp.value)))
  }

  ghost predicate LookedOk(plan: Plan, sink: Sink, fl: Flush) {
    && fl.next <= |fl.batch|
    && (forall i | 0 <= i < fl.next :: Known(plan, sink, Flat(fl.groups), fl.batch[i]))
    && AllShown(fl.seen, Flat(fl.groups))
    && (forall r | r in Flat(fl.groups) :: r in fl.batch)
    && fl.dropped + |Flat(fl.groups)| == fl.next
  }

  ghost predicate Out(sink: Sink, rows: seq<Row>) {
    forall r | r in rows :: r in sink.written || r in sink.dumped
  }

  ghost predicate SavedOk(sink: Sink, fl: Flush) {
    && fl.g <= |fl.groups| && Out(sink, Flat(fl.groups[..fl.g]))
    && (fl.phase.Looking? ==> fl.g == 0)
    && (fl.phase.Saving? || fl.phase.Recording? || fl.phase.Dumping? || fl.phase.Completed? ==> fl.next == |fl.batch|)
    && (fl.phase.Recording? ==> fl.g < |fl.groups| && forall r | r in fl.groups[fl.g].rows :: r in sink.written)
    && (fl.phase.Completed? ==> fl.g == |fl.groups|)
  }

  ghost predicate Grows(s: Sink, t: Sink) {
    s.written <= t.written && s.dumped <= t.dumped && s.recorded <= t.recorded
  }

  lemma SinkGrows(plan: Plan, sink: Sink, fl: Flush, act: Act)
    requires Can(plan, fl, act)
    ensures Grows(sink, SinkAfter(plan, sink, fl, act))
  {
  }

  lemma HasFpStays(rows: seq<Row>, more: seq<Row>, fp: string)
    requires rows <= more && HasFp(rows, fp)
    ensures HasFp(more, fp)
  {
    var r :| r in rows && r.fp == Some(fp);
    assert r in more;
  }

  lemma LookedStays(plan: Plan, s: Sink, t: Sink, fl: Flush)
    requires Grows(s, t) && LookedOk(plan, s, fl)
    ensures LookedOk(plan, t, fl)
  {
    hide HasFp, AllShown, Flat;
    forall i | 0 <= i < fl.next ensures Known(plan, t, Flat(fl.groups), fl.batch[i]) {
      assert Known(plan, s, Flat(fl.groups), fl.batch[i]);
      var fp := fl.batch[i].fp;
      if fp.Some? && HasFp(s.written, fp.value) {
        HasFpStays(s.written, t.written, fp.value);
      }
    }
  }

  lemma OutStays(s: Sink, t: Sink, rows: seq<Row>)
    requires Grows(s, t) && Out(s, rows)
    ensures Out(t, rows)
  {
    forall r | r in rows ensures r in t.written || r in t.dumped {
      if r in s.written {
        assert r in t.written;
      } else {
        assert r in t.dumped;
      }
    }
  }

  lemma SavedStays(s: Sink, t: Sink, fl: Flush)
    requires Grows(s, t) && SavedOk(s, fl)
    ensures SavedOk(t, fl)
  {
    hide Flat, Out;
    OutStays(s, t, Flat(fl.groups[..fl.g]));
    if fl.phase.Recording? {
      forall r | r in fl.groups[fl.g].rows ensures r in t.written {
        assert r in s.written;
      }
    }
  }

  /** Grouping one more item keeps what is known of the earlier ones. */
  lemma LookKnown(plan: Plan, sink: Sink, fl: Flush, getOk: bool)
    requires LookedOk(plan, sink, fl) && RecordedOnlyIfWritten(sink) && fl.next < |fl.batch|
    ensures LookedOk(plan, sink, Looked(plan, sink, fl, true, getOk))
  {
    var row, rows := fl.batch[fl.next], Flat(fl.groups);
    if Duplicate(plan, sink, fl, getOk) {
      DuplicateKnown(plan, sink, fl, getOk);
    } else {
      InsertFlat(fl.groups, row);
      InsertKnown(plan, sink, fl, row, Flat(Insert(fl.groups, row)));
    }
  }

  lemma DuplicateKnown(plan: Plan, sink: Sink, fl: Flush, getOk: bool)
    requires LookedOk(plan, sink, fl) && RecordedOnlyIfWritten(sink)
    requires fl.next < |fl.batch| && Duplicate(plan, sink, fl, getOk)
    ensures Known(plan, sink, Flat(fl.groups), fl.batch[fl.next])
  {
    hide Flat, HasFp, Known;
    assert Known(plan, sink, Flat(fl.groups), fl.batch[fl.next]) by {
      KnownByFp(plan, sink, Flat(fl.groups), fl.batch[fl.next]);
    }
  }

  lemma KnownByFp(plan: Plan, sink: Sink, rows: seq<Row>, row: Row)
    requires plan.filterOn && row.fp.Some? && (HasFp(sink.written, row.fp.value) || HasFp(rows, row.fp.value))
    ensures Known(plan, sink, rows, row)
  {
  }

  lemma InsertKnown(plan: Plan, sink: Sink, fl: Flush, row: Row, rows: seq<Row>)
    requires LookedOk(plan, sink, fl) && fl.next < |fl.batch| && row == fl.batch[fl.next]
    requires forall r :: r in rows <==> r in Flat(fl.groups) || r == row
    ensures forall i | 0 <= i <= fl.next :: Known(plan, sink, rows, fl.batch[i])
    ensures AllShown(fl.seen, rows) && (row.fp.Some? ==> HasFp(rows, row.fp.value))
    ensures forall r | r in rows :: r in fl.batch
  {
    hide Flat;
    forall fp | HasFp(Flat(fl.groups), fp) ensures HasFp(rows, fp) {
      var r :| r in Flat(fl.groups) && r.fp == Some(fp);
      assert r in rows;
    }
    forall i | 0 <= i <= fl.next ensures Known(plan, sink, rows, fl.batch[i]) {
      if i < fl.next {
        assert Known(plan, sink, Flat(fl.groups), fl.batch[i]);
      }
    }
  }

  lemma FlatNext(groups: seq<Group>, g: nat)
    requires g < |groups|
    ensures Flat(groups[..g + 1]) == Flat(groups[..g]) + groups[g].rows
  {
    assert groups[..g + 1][..g] == groups[..g];
  }

  /** The flush that acts keeps its own invariant. */
  lemma ActLooked(plan: Plan, sink: Sink, fl: Flush, act: Act)
    requires LookedOk(plan, sink, fl) && RecordedOnlyIfWritten(sink) && Can(plan, fl, act)
    ensures LookedOk(plan, SinkAfter(plan, sink, fl, act), FlushAfter(plan, sink, fl, act))
  {
    hide LookedOk, RecordedOnlyIfWritten, Looked, Duplicate;
    SinkGrows(plan, sink, fl, act);
    var t, fl' := SinkAfter(plan, sink, fl, act), FlushAfter(plan, sink, fl, act);
    if act.Look? && act.normOk {
      LookKnown(plan, sink, fl, act.getOk);
      LookedStays(plan, sink, t, fl');
    } else {
      SamePart(plan, sink, fl, act);
      LookedStays(plan, sink, t, fl);
      LookedSame(plan, t, fl, fl');
    }
  }

  ghost predicate SameLook(fl: Flush, fl': Flush) {
    fl'.batch == fl.batch && fl'.next == fl.next && fl'.seen == fl.seen && fl'.groups == fl.groups
        && fl'.dropped == fl.dropped
  }

  lemma SamePart(plan: Plan, sink: Sink, fl: Flush, act: Act)
    requires Can(plan, fl, act) && !(act.Look? && act.normOk)
    ensures SameLook(fl, FlushAfter(plan, sink, fl, act))
  {
  }

  lemma LookedSame(plan: Plan, sink: Sink, fl: Flush, fl': Flush)
    requires LookedOk(plan, sink, fl) && SameLook(fl, fl')
    ensures LookedOk(plan, sink, fl')
  {
  }

  lemma ActSaved(plan: Plan, sink: Sink, fl: Flush, act: Act)
    requires SavedOk(sink, fl) && Can(plan, fl, act)
    ensures SavedOk(SinkAfter(plan, sink, fl, act), FlushAfter(plan, sink, fl, act))
  {
    hide Flat, Out, Insert;
    SinkGrows(plan, sink, fl, act);
    var t, fl' := SinkAfter(plan, sink, fl, act), FlushAfter(plan, sink, fl, act);
    OutStays(sink, t, Flat(fl.groups[..fl.g]));
    if act.Look? {
      NoneOut(t, fl'.groups);
    } else if fl'.g == fl.g + 1 {
      FlatNext(fl.groups, fl.g);
      GroupOut(plan, sink, fl, act);
      OutConcat(t, Flat(fl.groups[..fl.g]), fl.groups[fl.g].rows);
    }
    if fl'.phase.Recording? {
      GroupWritten(plan, sink, fl, act);
    }
  }

  lemma NoneOut(sink: Sink, groups: seq<Group>)
    ensures Out(sink, Flat(groups[..0]))
  {
  }

  lemma OutConcat(sink: Sink, a: seq<Row>, b: seq<Row>)
    requires Out(sink, a) && Out(sink, b)
    ensures Out(sink, a + b)
  {
  }

  /** A group that is done has left. */
  lemma GroupOut(plan: Plan, sink: Sink, fl: Flush, act: Act)
    requires SavedOk(sink, fl) && Can(plan, fl, act) && !act.Look? && FlushAfter(plan, sink, fl, act).g == fl.g + 1
    ensures fl.g < |fl.groups| && Out(SinkAfter(plan, sink, fl, act), fl.groups[fl.g].rows)
  {
    hide Flat;
  }

  lemma GroupWritten(plan: Plan, sink: Sink, fl: Flush, act: Act)
    requires SavedOk(sink, fl) && Can(plan, fl, act) && FlushAfter(plan, sink, fl, act).phase.Recording?
    ensures fl.g < |fl.groups| && forall r | r in fl.groups[fl.g].rows :: r in SinkAfter(plan, sink, fl, act).written
  {
    hide Flat, Out;
  }

  lemma ActRecorded(plan: Plan, sink: Sink, fl: Flush, act: Act)
    requires SavedOk(sink, fl) && Can(plan, fl, act) && RecordedOnlyIfWritten(sink)
    ensures RecordedOnlyIfWritten(SinkAfter(plan, sink, fl, act))
  {
    hide Flat, Out, Insert, HasFp;
    var t := SinkAfter(plan, sink, fl, act);
    SinkGrows(plan, sink, fl, act);
    forall fp | fp in t.recorded ensures HasFp(t.written, fp) {
      if fp in sink.recorded {
        HasFpStays(sink.written, t.written, fp);
      } else {
        RowShows(t.written, fl.groups[fl.g].rows[fl.phase.k], fp);
      }
    }
  }

  lemma RowShows(rows: seq<Row>, row: Row, fp: string)
    requires row in rows && row.fp == Some(fp)
    ensures HasFp(rows, fp)
  {
  }

  ghost predicate Inv(plan: Plan, w: World) {
    && RecordedOnlyIfWritten(w.sink)
    && forall f | 0 <= f < |w.flushes| :: LookedOk(plan, w.sink, w.flushes[f]) && SavedOk(w.sink, w.flushes[f])
  }

  lemma InvStep(plan: Plan, w: World, step: Step)
    requires Inv(plan, w) && Enabled(plan, w, step)
    ensures Inv(plan, Apply(plan, w, step))
  {
    hide RecordedOnlyIfWritten, LookedOk, SavedOk, FlushAfter, SinkAfter, Can;
    var t := Apply(plan, w, step);
    match step
    case Begin(batch) =>
      BegunOk(plan, w.sink, batch);
      forall f | 0 <= f < |t.flushes| ensures LookedOk(plan, t.sink, t.flushes[f]) && SavedOk(t.sink, t.flushes[f]) {
        if f < |w.flushes| {
          assert t.flushes[f] == w.flushes[f];
        }
      }
    case Do(d, act) =>
      SinkGrows(plan, w.sink, w.flushes[d], act);
      ActRecorded(plan, w.sink, w.flushes[d], act);
      ActLooked(plan, w.sink, w.flushes[d], act);
      ActSaved(plan, w.sink, w.flushes[d], act);
      forall f | 0 <= f < |t.flushes| ensures LookedOk(plan, t.sink, t.flushes[f]) && SavedOk(t.sink, t.flushes[f]) {
        if f != d {
          LookedStays(plan, w.sink, t.sink, w.flushes[f]);
          SavedStays(w.sink, t.sink, w.flushes[f]);
        }
      }
  }

  lemma BegunOk(plan: Plan, sink: Sink, batch: seq<Row>)
    ensures LookedOk(plan, sink, Begun(batch)) && SavedOk(sink, Begun(batch))
  {
    assert Begun(batch).groups[..0] == [];
  }

  lemma {:induction false} RunInv(plan: Plan, steps: seq<Step>)
    requires Exec(plan, steps).Some?
    ensures Inv(plan, Exec(plan, steps).value)
  {
    hide Inv, Apply, Enabled;
    if steps == [] {
      NothingInv(plan);
    } else {
      var n := |steps| - 1;
      RunInv(plan, steps[..n]);
      InvStep(plan, Exec(plan, steps[..n]).value, steps[n]);
    }
  }

  lemma NothingInv(plan: Plan)
    ensures Inv(plan, NOTHING)
  {
  }

  /** A flush that has completed has all of its items settled. */
  lemma FlushSettled(plan: Plan, sink: Sink, fl: Flush)
    requires LookedOk(plan, sink, fl) && SavedOk(sink, fl) && fl.phase.Completed?
    ensures BatchSettled(sink, plan.filterOn, fl.batch)
  {
    assert fl.groups[..fl.g] == fl.groups;
    hide Flat;
    forall i | 0 <= i < |fl.batch| ensures Settled(sink, plan.filterOn, fl.batch, fl.batch[i]) {
      var row := fl.batch[i];
      assert Known(plan, sink, Flat(fl.groups), row);
      if row !in Flat(fl.groups) && !HasFp(sink.written, row.fp.value) {
        var r :| r in Flat(fl.groups) && r.fp == row.fp;
        assert r in sink.dumped;
      }
    }
  }

  /** However flushes overlap and whatever fails: every item of a completed flush is written or
      dumped, or is a duplicate of a row written earlier or dumped by the same flush, and the
      filter holds fingerprints of written rows only. */
  lemma CompletedFlushIsSettled(plan: Plan, steps: seq<Step>, f: nat)
    requires Exec(plan, steps).Some? && f < |Exec(plan, steps).value.flushes|
    requires Exec(plan, steps).value.flushes[f].phase.Completed?
    ensures var w := Exec(plan, steps).value;
            RecordedOnlyIfWritten(w.sink) && BatchSettled(w.sink, plan.filterOn, w.flushes[f].batch)
  {
    hide Exec, RecordedOnlyIfWritten, BatchSettled, LookedOk, SavedOk;
    RunInv(plan, steps);
    FlushSettled(plan, Exec(plan, steps).value.sink, Exec(plan, steps).value.flushes[f]);
  }

  // ---------------------------------------------------------------- counters

  /** Items of a flush that have been counted: duplicates, and the rows of groups that left. */
  function Progress(fl: Flush): nat
    requires fl.g <= |fl.groups|
  {
    fl.dropped + |Flat(fl.groups[..fl.g])| +
    (if fl.phase.Recording? && fl.g < |fl.groups| then |fl.groups[fl.g].rows| else 0)
  }

  function Gain(plan: Plan, sink: Sink, fl: Flush, act: Act): int
    requires Can(plan, fl, act)
  {
    Counted(SinkAfter(plan, sink, fl, act)) - Counted(sink)
  }

  lemma ActCounts(plan: Plan, sink: Sink, fl: Flush, act: Act)
    requires SavedOk(sink, fl) && Can(plan, fl, act)
    ensures
      var fl' := FlushAfter(plan, sink, fl, act);
      fl'.g <= |fl'.groups| && Progress(fl') == Progress(fl) + Gain(plan, sink, fl, act)
  {
    hide Flat, Out, Insert;
    var fl' := FlushAfter(plan, sink, fl, act);
    if act.Look? {
      assert fl'.groups[..0] == fl.groups[..0];
    } else if fl.g < |fl.groups| {
      FlatNext(fl.groups, fl.g);
    }
  }

  lemma ProgressBounds(plan: Plan, sink: Sink, fl: Flush)
    requires LookedOk(plan, sink, fl) && SavedOk(sink, fl)
    ensures Progress(fl) <= |fl.batch| && (fl.phase.Completed? ==> Progress(fl) == |fl.batch|)
  {
    hide Flat, Out, Known, AllShown;
    FlatPrefix(fl.groups, fl.g);
    if fl.phase.Recording? {
      FlatNext(fl.groups, fl.g);
      FlatPrefix(fl.groups, fl.g + 1);
    }
    assert fl.g == |fl.groups| ==> fl.groups[..fl.g] == fl.groups;
  }

  /** What all flushes together have counted. */
  function TotalProgress(fls: seq<Flush>): nat
    requires forall f | 0 <= f < |fls| :: fls[f].g <= |fls[f].groups|
  {
    if fls == [] then 0 else TotalProgress(fls[..|fls| - 1]) + Progress(fls[|fls| - 1])
  }

  lemma {:induction false} TotalUpdate(fls: seq<Flush>, f: nat, fl: Flush)
    requires f < |fls| && fl.g <= |fl.groups| && forall i | 0 <= i < |fls| :: fls[i].g <= |fls[i].groups|
    ensures TotalProgress(fls[f := fl]) == TotalProgress(fls) - Progress(fls[f]) + Progress(fl)
  {
    hide Progress;
    var n := |fls| - 1;
    if f < n {
      TotalUpdate(fls[..n], f, fl);
      assert fls[f := fl][..n] == fls[..n][f := fl];
    } else {
      assert fls[f := fl][..n] == fls[..n];
    }
  }

  lemma GroupsInRange(plan: Plan, w: World)
    requires Inv(plan, w)
    ensures forall f | 0 <= f < |w.flushes| :: w.flushes[f].g <= |w.flushes[f].groups|
  {
    hide LookedOk, Flat, Out;
  }

  /** Whatever the interleaving, the three counters add up to what the flushes have done. */
  lemma {:induction false} CountersAddUp(plan: Plan, steps: seq<Step>)
    requires Exec(plan, steps).Some?
    ensures
      var w := Exec(plan, steps).value;
      && (forall f | 0 <= f < |w.flushes| :: w.flushes[f].g <= |w.flushes[f].groups|)
      && Counted(w.sink) == TotalProgress(w.flushes)
  {
    hide Inv, FlushAfter, SinkAfter, Can, Progress;
    RunInv(plan, steps);
    GroupsInRange(plan, Exec(plan, steps).value);
    if steps != [] {
      var n := |steps| - 1;
      CountersAddUp(plan, steps[..n]);
      RunInv(plan, steps[..n]);
      CountStep(plan, Exec(plan, steps[..n]).value, steps[n]);
    }
  }

  lemma CountStep(plan: Plan, w: World, step: Step)
    requires Inv(plan, w) && Enabled(plan, w, step)
    requires forall f | 0 <= f < |w.flushes| :: w.flushes[f].g <= |w.flushes[f].groups|
    requires Counted(w.sink) == TotalProgress(w.flushes)
    ensures
      var t := Apply(plan, w, step);
      && (forall f | 0 <= f < |t.flushes| :: t.flushes[f].g <= |t.flushes[f].groups|)
      && Counted(t.sink) == TotalProgress(t.flushes)
  {
    hide RecordedOnlyIfWritten, LookedOk, SavedOk, FlushAfter, SinkAfter, Can, Progress, Counted;
    var t := Apply(plan, w, step);
    match step
    case Begin(batch) =>
      assert t.flushes[..|w.flushes|] == w.flushes;
      NoProgress(batch);
    case Do(f, act) =>
      ActCounts(plan, w.sink, w.flushes[f], act);
      TotalUpdate(w.flushes, f, t.flushes[f]);
  }

  lemma NoProgress(batch: seq<Row>)
    ensures Progress(Begun(batch)) == 0
  {
    assert Begun(batch).groups[..0] == [];
  }

  /** Items of the completed flushes, or of all flushes. */
  function Size(fls: seq<Flush>, completedOnly: bool): nat {
    if fls == [] then 0
    else
      var fl := fls[|fls| - 1];
      Size(fls[..|fls| - 1], completedOnly) + (if fl.phase.Completed? || !completedOnly then |fl.batch| else 0)
  }

  lemma {:induction false} ProgressBetween(plan: Plan, sink: Sink, fls: seq<Flush>)
    requires forall f | 0 <= f < |fls| ::
               LookedOk(plan, sink, fls[f]) && SavedOk(sink, fls[f]) && fls[f].g <= |fls[f].groups|
    ensures Size(fls, true) <= TotalProgress(fls) <= Size(fls, false)
    ensures (forall f | 0 <= f < |fls| :: fls[f].phase.Completed?) ==> Size(fls, true) == Size(fls, false)
  {
    hide LookedOk, SavedOk, Progress;
    if fls != [] {
      ProgressBetween(plan, sink, fls[..|fls| - 1]);
      ProgressBounds(plan, sink, fls[|fls| - 1]);
    }
  }

  /** item + item_failed + item_dedup_dropped lies between the items of completed flushes and of
      all flushes, and equals their number when every flush has completed. */
  lemma CountersCountItems(plan: Plan, steps: seq<Step>)
    requires Exec(plan, steps).Some?
    ensures
      var w := Exec(plan, steps).value;
      && Size(w.flushes, true) <= Counted(w.sink) <= Size(w.flushes, false)
      && ((forall f | 0 <= f < |w.flushes| :: w.flushes[f].phase.Completed?)
          ==> Counted(w.sink) == Size(w.flushes, true))
  {
    hide Exec, LookedOk, SavedOk, RecordedOnlyIfWritten, Counted, Size, TotalProgress;
    RunInv(plan, steps);
    CountersAddUp(plan, steps);
    ProgressBetween(plan, Exec(plan, steps).value.sink, Exec(plan, steps).value.flushes);
  }
}
