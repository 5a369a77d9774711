/** The item sink object: persist one batch - group, deduplicate, write to every pipeline of the
    group, record fingerprints of what was written, dump what was not. Any call may fail. Each
    method runs as a sequence of the steps of ItemOverlap. */
module ItemSinks {
  import opened Seqs
  import opened ItemBuffer
  import opened ItemOverlap

  /** Outcomes of the calls made for one batch: normalizing item `i`, looking item `i` up in
      the filter, loading the pipelines of group `g`, writing group `g` to its `p`-th
      pipeline, recording row `k` of group `g`, and dumping group `g`. `width` is the number
      of pipelines of a key. */
  datatype Calls = Calls(normOk: nat -> bool, getOk: nat -> bool, loadOk: nat -> bool, writeOk: (nat, nat) -> bool,
                         addOk: (nat, nat) -> bool, dumpOk: nat -> bool, width: Key -> nat)

  // ---------------------------------------------------------------- one flush alone

  datatype Solo = Solo(sink: Sink, fl: Flush)

  /** The acts of one flush, without others in between. */
  function Acts(plan: Plan, p: Solo, acts: seq<Act>): Option<Solo> {
    if acts == [] then Some(p)
    else
      var n := |acts| - 1;
      var q := Acts(plan, p, acts[..n]);
      if q.Some? && Can(plan, q.value.fl, acts[n])
      then Some(Solo(SinkAfter(plan, q.value.sink, q.value.fl, acts[n]),
          FlushAfter(plan, q.value.sink, q.value.fl, acts[n])))
      else None
  }

  lemma ActsSnoc(plan: Plan, p: Solo, acts: seq<Act>, act: Act)
    requires Acts(plan, p, acts).Some? && Can(plan, Acts(plan, p, acts).value.fl, act)
    ensures
      var q := Acts(plan, p, acts).value;
      Acts(plan, p, acts + [act]) == Some(Solo(SinkAfter(plan, q.sink, q.fl, act), FlushAfter(plan, q.sink, q.fl, act)))
  {
    assert (acts + [act])[..|acts|] == acts;
  }

  lemma {:induction false} ActsConcat(plan: Plan, p: Solo, a: seq<Act>, b: seq<Act>)
    requires Acts(plan, p, a).Some?
    ensures Acts(plan, p, a + b) == Acts(plan, Acts(plan, p, a).value, b)
  {
    hide Can, SinkAfter, FlushAfter;
    if b == [] {
      assert a + b == a;
    } else {
      var n := |b| - 1;
      ActsConcat(plan, p, a, b[..n]);
      assert (a + b)[..|a + b| - 1] == a + b[..n];
    }
  }

  /** The last `n` acts were writes that went well. */
  ghost predicate WrittenWell(acts: seq<Act>, n: nat) {
    n <= |acts| && forall i | |acts| - n <= i < |acts| :: acts[i] == Write(true)
  }

  lemma {:induction false} SavingCountsWrites(plan: Plan, p: Solo, acts: seq<Act>)
    requires Acts(plan, p, acts).Some? && p.fl.phase.Looking?
    ensures var fl := Acts(plan, p, acts).value.fl; fl.phase.Saving? ==> WrittenWell(acts, fl.phase.p)
  {
    hide SinkAfter, Insert;
    if acts != [] {
      SavingCountsWrites(plan, p, acts[..|acts| - 1]);
    }
  }

  /** A group counts as written only after each of its pipelines, one after the other, has
      accepted it. */
  lemma AcceptedByEveryPipeline(plan: Plan, batch: seq<Row>, sink: Sink, acts: seq<Act>)
    requires
      var q := Acts(plan, Solo(sink, Begun(batch)), acts);
      q.Some? && Can(plan, q.value.fl, Accept)
    ensures
      var fl := Acts(plan, Solo(sink, Begun(batch)), acts).value.fl;
      fl.g < |fl.groups| && WrittenWell(acts, plan.width(fl.groups[fl.g].key))
  {
    hide Acts;
    SavingCountsWrites(plan, Solo(sink, Begun(batch)), acts);
  }

  lemma {:induction false} ActsKeep(plan: Plan, p: Solo, acts: seq<Act>)
    requires Acts(plan, p, acts).Some?
    requires RecordedOnlyIfWritten(p.sink) && LookedOk(plan, p.sink, p.fl) && SavedOk(p.sink, p.fl)
    ensures
      var q := Acts(plan, p, acts).value;
      && RecordedOnlyIfWritten(q.sink) && LookedOk(plan, q.sink, q.fl) && SavedOk(q.sink, q.fl) && Grows(p.sink, q.sink)
      && p.fl.g <= |p.fl.groups| && q.fl.g <= |q.fl.groups|
      && Counted(q.sink) - Counted(p.sink) == Progress(q.fl) - Progress(p.fl)
  {
    hide RecordedOnlyIfWritten, LookedOk, Progress, Counted, Can, SinkAfter, FlushAfter, Flat, Out;
    if acts != [] {
      var n := |acts| - 1;
      ActsKeep(plan, p, acts[..n]);
      var q := Acts(plan, p, acts[..n]).value;
      SinkGrows(plan, q.sink, q.fl, acts[n]);
      ActRecorded(plan, q.sink, q.fl, acts[n]);
      ActLooked(plan, q.sink, q.fl, acts[n]);
      ActSaved(plan, q.sink, q.fl, acts[n]);
      ActCounts(plan, q.sink, q.fl, acts[n]);
    }
  }

  class ItemSink {
    const filterOn: bool
    var written: seq<Row>
    var dumped: seq<Row>
    var recorded: set<string>
    var item: nat
    var failed: nat
    var deduped: nat

    ghost function View(): Sink
      reads this
    {
      Sink(written, dumped, recorded, item, failed, deduped)
    }

    constructor (filterOn: bool)
      ensures View() == Sink([], [], {}, 0, 0, 0) && this.filterOn == filterOn
    {
      this.filterOn := filterOn;
      written, dumped, recorded := [], [], {};
      item, failed, deduped := 0, 0, 0;
    }

    /** First pass: drop duplicates, group the rest. A lookup that fails lets the item pass. */
    method GroupBatch(batch: seq<Row>, calls: Calls)
          returns (ok: bool, groups: seq<Group>, ghost fl: Flush, ghost acts: seq<Act>)
      modifies this`deduped
      ensures Acts(Plan(filterOn, calls.width), Solo(old(View()), Begun(batch)), acts) == Some(Solo(View(), fl))
      ensures ok ==> fl.phase == Saving(0) && fl.g == 0 && fl.groups == groups
      ensures !ok ==> fl.phase.Raised?
      ensures WellGrouped(groups)
    {
      hide Insert, WellGrouped, Acts;
      groups := [];
      NoGroups();
      var seen: set<string> := {};
      ghost var plan, start := Plan(filterOn, calls.width), Solo(View(), Begun(batch));
      fl, acts := Begun(batch), [];
      NoActs(plan, start);
      for i := 0 to |batch|
        invariant WellGrouped(groups)
        invariant deduped >= old(deduped) && fl == Flush(batch, i, seen, groups, 0, Looking, deduped - old(deduped))
        invariant Acts(plan, start, acts) == Some(Solo(View(), fl))
      {
        var row := batch[i];
        ghost var act := Look(calls.normOk(i), calls.getOk(i));
        ActsSnoc(plan, start, acts, act);
        acts, fl := acts + [act], FlushAfter(plan, View(), fl, act);
        if !calls.normOk(i) {
          return false, groups, fl, acts;
        }
        var duplicate := filterOn && row.fp.Some? &&
          (row.fp.value in seen || (calls.getOk(i) && row.fp.value in recorded));
        if duplicate {
          deduped := deduped + 1;
        } else {
          InsertGrouped(groups, row);
          groups := Insert(groups, row);
          if filterOn && row.fp.Some? {
            seen := seen + {row.fp.value};
          }
        }
      }
      ActsSnoc(plan, start, acts, Grouped);
      acts, fl := acts + [Grouped], FlushAfter(plan, View(), fl, Grouped);
      ok := true;
    }

    /** Every pipeline of the group accepts it; the first refusal ends the attempt. */
    method WriteAll(g: nat, width: nat, calls: Calls, ghost plan: Plan, ghost p: Solo)
          returns (ok: bool, ghost acts: seq<Act>)
      requires p.fl.phase == Saving(0) && p.fl.g < |p.fl.groups| && width == plan.width(p.fl.groups[p.fl.g].key)
      ensures ok <==> forall k | 0 <= k < width :: calls.writeOk(g, k)
      ensures Acts(plan, p, acts) == Some(p.(fl := p.fl.(phase := if ok then Saving(width) else Dumping)))
    {
      hide Acts;
      acts := [];
      NoActs(plan, p);
      assert p.fl.(phase := Saving(0)) == p.fl;
      for k := 0 to width
        invariant forall q | 0 <= q < k :: calls.writeOk(g, q)
        invariant Acts(plan, p, acts) == Some(p.(fl := p.fl.(phase := Saving(k))))
      {
        ActsSnoc(plan, p, acts, Write(calls.writeOk(g, k)));
        acts := acts + [Write(calls.writeOk(g, k))];
        if !calls.writeOk(g, k) {
          return false, acts;
        }
      }
      ok := true;
    }

    /** Record the fingerprints of rows that were just written, up to the first failure. */
    method RecordRows(g: nat, rows: seq<Row>, calls: Calls, ghost plan: Plan, ghost fl: Flush)
          returns (ghost acts: seq<Act>)
      requires fl.phase == Recording(0) && fl.g < |fl.groups| && fl.groups[fl.g].rows == rows
      modifies this`recorded
      ensures Acts(plan, Solo(old(View()), fl), acts) == Some(Solo(View(), fl.(g := fl.g + 1, phase := Saving(0))))
      ensures (forall k | 0 <= k < |rows| :: calls.addOk(g, k)) ==>
                forall k | 0 <= k < |rows| && rows[k].fp.Some? :: rows[k].fp.value in recorded
    {
      hide Acts;
      acts := [];
      ghost var start := Solo(View(), fl);
      NoActs(plan, start);
      assert fl.(phase := Recording(0)) == fl;
      for k := 0 to |rows|
        invariant Acts(plan, start, acts) == Some(Solo(View(), fl.(phase := Recording(k))))
        invariant forall j | 0 <= j < k && rows[j].fp.Some? :: rows[j].fp.value in recorded
      {
        ghost var act := Record(calls.addOk(g, k));
        ActsSnoc(plan, start, acts, act);
        acts := acts + [act];
        if rows[k].fp.Some? {
          if !calls.addOk(g, k) {
            return;
          }
          recorded := recorded + {rows[k].fp.value};
        }
      }
      ActsSnoc(plan, start, acts, Recorded);
      acts := acts + [Recorded];
    }

    /** One group: all of its rows are written, or all are dumped, or the call raises and
        nothing changes. */
    method SaveGroup(g: nat, group: Group, calls: Calls, ghost fl: Flush) returns (raised: bool, ghost acts: seq<Act>)
      requires fl.phase == Saving(0) && fl.g == g < |fl.groups| && fl.groups[g] == group
      modifies this`written, this`dumped, this`recorded, this`item, this`failed
      ensures Acts(Plan(filterOn, calls.width), Solo(old(View()), fl), acts)
           == Some(Solo(View(), if raised then fl.(phase := Raised) else fl.(g := g + 1, phase := Saving(0))))
      ensures raised ==> View() == old(View())
      ensures !raised && (forall p | 0 <= p < calls.width(group.key) :: calls.writeOk(g, p)) ==>
                written == old(written) + group.rows && dumped == old(dumped)
      ensures !raised && !(forall p | 0 <= p < calls.width(group.key) :: calls.writeOk(g, p)) ==>
                written == old(written) && dumped == old(dumped) + group.rows && recorded == old(recorded)
    {
      hide Acts;
      ghost var plan, start := Plan(filterOn, calls.width), Solo(View(), fl);
      NoActs(plan, start);
      if !calls.loadOk(g) {
        ActsSnoc(plan, start, [], LoadFails);
        return true, [] + [LoadFails];
      }
      var ok;
      ok, acts := WriteAll(g, calls.width(group.key), calls, plan, start);
      if ok {
        ActsSnoc(plan, start, acts, Accept);
        acts := acts + [Accept];
        item := item + |group.rows|;
        written := written + group.rows;
        if filterOn {
          ghost var more := RecordRows(g, group.rows, calls, plan, fl.(phase := Recording(0)));
          ActsConcat(plan, start, acts, more);
          acts := acts + more;
        }
        return false, acts;
      }
      ActsSnoc(plan, start, acts, Dump(calls.dumpOk(g)));
      acts := acts + [Dump(calls.dumpOk(g))];
      if !calls.dumpOk(g) {
        return true, acts;
      }
      dumped := dumped + group.rows;
      failed := failed + |group.rows|;
      return false, acts;
    }

    /** Persist one batch: one flush of ItemOverlap from its beginning to its end. When it
        completes, every item has been counted once and is settled; when it raises, some items
        may have been counted but none twice. */
    method Persist(batch: seq<Row>, calls: Calls) returns (completed: bool, ghost fl: Flush, ghost acts: seq<Act>)
      requires RecordedOnlyIfWritten(View())
      modifies this
      ensures Acts(Plan(filterOn, calls.width), Solo(old(View()), Begun(batch)), acts) == Some(Solo(View(), fl))
      ensures if completed then fl.phase.Completed? else fl.phase.Raised?
      ensures RecordedOnlyIfWritten(View())
      ensures completed ==> Counted(View()) == Counted(old(View())) + |batch|
      ensures !completed ==> Counted(old(View())) <= Counted(View()) <= Counted(old(View())) + |batch|
      ensures completed ==> BatchSettled(View(), filterOn, batch)
      ensures Grows(old(View()), View())
    {
      hide Acts, WellGrouped, RecordedOnlyIfWritten, BatchSettled, Counted, Grows;
      ghost var plan, start := Plan(filterOn, calls.width), Solo(View(), Begun(batch));
      var ok, groups;
      ok, groups, fl, acts := GroupBatch(batch, calls);
      if !ok {
        PersistFacts(plan, start, acts);
        return false, fl, acts;
      }
      for g := 0 to |groups|
        invariant Acts(plan, start, acts) == Some(Solo(View(), fl))
        invariant fl.phase == Saving(0) && fl.g == g && fl.groups == groups
      {
        var raised;
        ghost var more;
        raised, more := SaveGroup(g, groups[g], calls, fl);
        ActsConcat(plan, start, acts, more);
        acts, fl := acts + more, if raised then fl.(phase := Raised) else fl.(g := g + 1, phase := Saving(0));
        if raised {
          PersistFacts(plan, start, acts);
          return false, fl, acts;
        }
      }
      ActsSnoc(plan, start, acts, Finish);
      acts, fl := acts + [Finish], fl.(phase := Completed);
      PersistFacts(plan, start, acts);
      completed := true;
    }
  }

  lemma NoActs(plan: Plan, p: Solo)
    ensures Acts(plan, p, []) == Some(p)
  {
  }

  lemma NoGroups()
    ensures WellGrouped([])
  {
  }

  /** The batch of a flush stays what it was. */
  lemma {:induction false} ActsBatch(plan: Plan, p: Solo, acts: seq<Act>)
    requires Acts(plan, p, acts).Some?
    ensures Acts(plan, p, acts).value.fl.batch == p.fl.batch
  {
    hide SinkAfter;
    if acts != [] {
      ActsBatch(plan, p, acts[..|acts| - 1]);
    }
  }

  lemma PersistFacts(plan: Plan, p: Solo, acts: seq<Act>)
    requires Acts(plan, p, acts).Some? && RecordedOnlyIfWritten(p.sink) && p.fl == Begun(p.fl.batch)
    ensures
      var q := Acts(plan, p, acts).value;
      && RecordedOnlyIfWritten(q.sink) && Grows(p.sink, q.sink)
      && Counted(p.sink) <= Counted(q.sink) <= Counted(p.sink) + |p.fl.batch|
      && (q.fl.phase.Completed?
          ==> Counted(q.sink) == Counted(p.sink) + |p.fl.batch| && BatchSettled(q.sink, plan.filterOn, p.fl.batch))
  {
    hide Acts, RecordedOnlyIfWritten, LookedOk, SavedOk, Progress, Counted, Grows, BatchSettled;
    var q := Acts(plan, p, acts).value;
    BegunOk(plan, p.sink, p.fl.batch);
    NoProgress(p.fl.batch);
    ActsKeep(plan, p, acts);
    ActsBatch(plan, p, acts);
    ProgressBounds(plan, q.sink, q.fl);
    if q.fl.phase.Completed? {
      FlushSettled(plan, q.sink, q.fl);
    }
  }
}
