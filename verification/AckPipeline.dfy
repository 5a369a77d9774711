/** Acknowledge after persist. Workers, item buffers and collectors of any number of nodes in
    pipeline mode: who acknowledges a request, and what has been settled by then. Persisting is
    the overlapping flushes of ItemOverlap; nodes crash anywhere. */
module AckPipeline {
  import opened Seqs
  import opened ItemBuffer
  import ItemOverlap

  /** A request object, that is, one delivery of a task. */
  type Req = nat

  datatype Worker = Worker(node: nat, index: nat)

  /** What a worker is processing; `deferred` is set once the request has put an item. */
  datatype Job = Job(req: Req, deferred: bool)

  datatype Entry = Entry(row: Row, owner: Req)

  /** Who acknowledged a request first. */
  datatype Ack = ByWorker | ByFlush(f: nat)

  /** `items` are the flushes and what they have left behind, `origin` and `unacked` the node of
      each flush and the owners it has still to acknowledge, `due` the requests their worker
      has still to acknowledge. `held` is what the collectors have in progress. What a crashed
      node had in memory stays in the state, but nobody acts on it. History: `home` maps every
      request ever started to its node, `owner` and `batch` map every row ever put to its
      request and to the flush that took it. */
  datatype State = State(items: ItemOverlap.World, origin: seq<nat>, unacked: seq<set<Req>>,
                         alive: set<nat>, jobs: map<Worker, Job>, held: set<Req>, due: set<Req>,
                         pending: map<nat, seq<Entry>>,
                         home: map<Req, nat>, owner: map<Row, Req>, batch: map<Row, nat>, acks: map<Req, Ack>)

  const INIT := State(ItemOverlap.NOTHING, [], [], {}, map[], {}, {}, map[], map[], map[], map[], map[])

  datatype Step =
    | Join(node: nat)
    | Begin(w: Worker, r: Req)
    | Yield(w: Worker, row: Row)
    | Finish(w: Worker)
    | Swap(node: nat)
    | Items(f: nat, act: ItemOverlap.Act)
    | AckByWorker(r: Req)
    | AckByFlush(f: nat, r: Req)
    | Crash(node: nat)

  predicate Enabled(plan: ItemOverlap.Plan, s: State, step: Step) {
    match step
    case Join(n) => n !in s.pending
    case Begin(w, r) => w.node in s.alive && w !in s.jobs && r !in s.home
    case Yield(w, row) => w.node in s.alive && w in s.jobs && row !in s.owner && w.node in s.pending
    case Finish(w) => w.node in s.alive && w in s.jobs
    case Swap(n) => n in s.alive && n in s.pending
    case Items(f, act) => f < |s.origin| && s.origin[f] in s.alive
        && ItemOverlap.Enabled(plan, s.items, ItemOverlap.Do(f, act))
    case AckByWorker(r) => r in s.due && r in s.home && s.home[r] in s.alive
    case AckByFlush(f, r) =>
      && f < |s.origin| && f < |s.unacked| && f < |s.items.flushes|
      && s.origin[f] in s.alive && s.items.flushes[f].phase.Completed? && r in s.unacked[f]
    case Crash(n) => n in s.alive
  }

  function Rows(es: seq<Entry>): seq<Row> {
    seq(|es|, i requires 0 <= i < |es| => es[i].row)
  }

  function Owners(es: seq<Entry>): set<Req> {
    set i | 0 <= i < |es| :: es[i].owner
  }

  // What each step does, component by component.

  function NextItems(plan: ItemOverlap.Plan, s: State, step: Step): ItemOverlap.World
    requires Enabled(plan, s, step)
  {
    match step
    case Swap(n) => ItemOverlap.Apply(plan, s.items, ItemOverlap.Begin(Rows(s.pending[n])))
    case Items(f, act) => ItemOverlap.Apply(plan, s.items, ItemOverlap.Do(f, act))
    case _ => s.items
  }

  function NextUnacked(plan: ItemOverlap.Plan, s: State, step: Step): seq<set<Req>>
    requires Enabled(plan, s, step)
  {
    match step
    case Swap(n) => s.unacked + [Owners(s.pending[n])]
    case AckByFlush(f, r) => s.unacked[f := s.unacked[f] - {r}]
    case _ => s.unacked
  }

  function NextAlive(s: State, step: Step): set<nat> {
    match step
    case Join(n) => s.alive + {n}
    case Crash(n) => s.alive - {n}
    case _ => s.alive
  }

  function NextJobs(plan: ItemOverlap.Plan, s: State, step: Step): map<Worker, Job>
    requires Enabled(plan, s, step)
  {
    match step
    case Begin(w, r) => s.jobs[w := Job(r, false)]
    case Yield(w, _) => s.jobs[w := s.jobs[w].(deferred := true)]
    case Finish(w) => s.jobs - {w}
    case _ => s.jobs
  }

  /** A worker acknowledges on its way out only if the request put no item. */
  function NextDue(plan: ItemOverlap.Plan, s: State, step: Step): set<Req>
    requires Enabled(plan, s, step)
  {
    match step
    case Finish(w) => if s.jobs[w].deferred then s.due else s.due + {s.jobs[w].req}
    case AckByWorker(r) => s.due - {r}
    case _ => s.due
  }

  function NextPending(plan: ItemOverlap.Plan, s: State, step: Step): map<nat, seq<Entry>>
    requires Enabled(plan, s, step)
  {
    match step
    case Join(n) => s.pending[n := []]
    case Yield(w, row) => s.pending[w.node := s.pending[w.node] + [Entry(row, s.jobs[w].req)]]
    case Swap(n) => s.pending[n := []]
    case _ => s.pending
  }

  function Acked(step: Step): set<Req> {
    if step.AckByWorker? || step.AckByFlush? then {step.r} else {}
  }

  function NextAcks(s: State, step: Step): map<Req, Ack> {
    match step
    case AckByWorker(r) => if r in s.acks then s.acks else s.acks[r := ByWorker]
    case AckByFlush(f, r) => if r in s.acks then s.acks else s.acks[r := ByFlush(f)]
    case _ => s.acks
  }

  /** The rows of `es` now belong to flush `f`. */
  function Assigned(batch: map<Row, nat>, es: seq<Entry>, f: nat): (r: map<Row, nat>)
    ensures forall x :: x in r <==> x in batch || x in Rows(es)
    ensures forall x | x in r :: r[x] == if x in Rows(es) then f else batch[x]
  {
    if es == [] then batch
    else
      var n := |es| - 1;
      assert Rows(es) == Rows(es[..n]) + [es[n].row];
      Assigned(batch, es[..n], f)[es[n].row := f]
  }

  function NextBatch(plan: ItemOverlap.Plan, s: State, step: Step): map<Row, nat>
    requires Enabled(plan, s, step)
  {
    if step.Swap? then Assigned(s.batch, s.pending[step.node], |s.origin|) else s.batch
  }

  function Apply(plan: ItemOverlap.Plan, s: State, step: Step): State
    requires Enabled(plan, s, step)
  {
    State(NextItems(plan, s, step), if step.Swap? then s.origin + [step.node] else s.origin,
          NextUnacked(plan, s, step), NextAlive(s, step), NextJobs(plan, s, step),
          if step.Begin? then s.held + {step.r} else s.held - Acked(step),
          NextDue(plan, s, step), NextPending(plan, s, step),
          if step.Begin? then s.home[step.r := step.w.node] else s.home,
          if step.Yield? then s.owner[step.row := s.jobs[step.w].req] else s.owner,
          NextBatch(plan, s, step), NextAcks(s, step))
  }

  function Exec(plan: ItemOverlap.Plan, steps: seq<Step>): Option<State> {
    if steps == [] then Some(INIT)
    else
      var n := |steps| - 1;
      var s := Exec(plan, steps[..n]);
      if s.Some? && Enabled(plan, s.value, steps[n]) then Some(Apply(plan, s.value, steps[n])) else None
  }

  // ---------------------------------------------------------------- workers and what they put

  ghost predicate PutsItem(s: State, r: Req) {
    exists x :: x in s.owner && s.owner[x] == r
  }

  /** Workers process distinct, started requests; what is not deferred has put no item. */
  ghost predicate JobsOk(s: State) {
    && (forall w | w in s.jobs :: s.jobs[w].req in s.home && s.jobs[w].req !in s.due)
    && (forall v, w | v in s.jobs && w in s.jobs && s.jobs[v].req == s.jobs[w].req :: v == w)
    && (forall w | w in s.jobs && !s.jobs[w].deferred :: !PutsItem(s, s.jobs[w].req))
    && (forall r | r in s.due :: r in s.home && !PutsItem(s, r))
    && (forall x | x in s.owner :: s.owner[x] in s.home)
  }

  /** A request is in progress exactly until it is acknowledged. */
  ghost predicate HeldUntilAcked(s: State) {
    && (forall r | r in s.home :: r in s.held <==> r !in s.acks)
    && (forall r | r in s.held || r in s.acks :: r in s.home)
  }

  lemma PutsStep(plan: ItemOverlap.Plan, s: State, step: Step, r: Req)
    requires Enabled(plan, s, step)
    ensures PutsItem(Apply(plan, s, step), r) ==> PutsItem(s, r) || (step.Yield? && s.jobs[step.w].req == r)
    ensures PutsItem(s, r) ==> PutsItem(Apply(plan, s, step), r)
  {
    hide NextItems, NextUnacked, NextAlive, NextJobs, NextDue, NextPending, NextBatch, NextAcks;
    var t := Apply(plan, s, step);
    if PutsItem(t, r) && !(step.Yield? && s.jobs[step.w].req == r) {
      var x :| x in t.owner && t.owner[x] == r;
      assert x in s.owner && s.owner[x] == r;
    }
    if PutsItem(s, r) {
      var x :| x in s.owner && s.owner[x] == r;
      assert x in t.owner && t.owner[x] == r;
    }
  }

  lemma JobsStep(plan: ItemOverlap.Plan, s: State, step: Step)
    requires JobsOk(s) && Enabled(plan, s, step)
    ensures JobsOk(Apply(plan, s, step))
  {
    hide PutsItem, NextItems, NextUnacked, NextAlive, NextPending, NextBatch, NextAcks;
    var t := Apply(plan, s, step);
    forall r ensures PutsItem(t, r) ==> PutsItem(s, r) || (step.Yield? && s.jobs[step.w].req == r) {
      PutsStep(plan, s, step, r);
    }
    if step.Begin? {
      NewPutsNothing(s, step.r);
    }
  }

  lemma NewPutsNothing(s: State, r: Req)
    requires JobsOk(s) && r !in s.home
    ensures !PutsItem(s, r)
  {
  }

  lemma HeldStep(plan: ItemOverlap.Plan, s: State, step: Step)
    requires JobsOk(s) && FlushesOk(s) && HeldUntilAcked(s) && Enabled(plan, s, step)
    ensures HeldUntilAcked(Apply(plan, s, step))
  {
    hide PutsItem, NextItems, NextUnacked, NextAlive, NextPending, NextBatch, NextDue, NextJobs;
    if step.AckByFlush? {
      UnackedStarted(s, step.f, step.r);
    }
  }

  // ---------------------------------------------------------------- rows and flushes

  /** Some row of `r` went with flush `f`. */
  ghost predicate InFlush(s: State, r: Req, f: nat) {
    exists x :: x in s.batch && s.batch[x] == f && x in s.owner && s.owner[x] == r
  }

  ghost predicate PendingOk(s: State) {
    forall n, k | n in s.pending && 0 <= k < |s.pending[n]| ::
      && s.pending[n][k].row in s.owner && s.owner[s.pending[n][k].row] == s.pending[n][k].owner
      && s.pending[n][k].row !in s.batch
  }

  ghost predicate FlushesOk(s: State) {
    && |s.origin| == |s.unacked| == |s.items.flushes|
    && (forall x | x in s.batch ::
          x in s.owner && s.batch[x] < |s.items.flushes| && x in s.items.flushes[s.batch[x]].batch)
    && (forall f, r | 0 <= f < |s.unacked| && r in s.unacked[f] :: InFlush(s, r, f))
    && (forall x | x in s.owner :: s.owner[x] in s.home)
  }

  lemma UnackedStarted(s: State, f: nat, r: Req)
    requires FlushesOk(s) && f < |s.unacked| && r in s.unacked[f]
    ensures r in s.home
  {
    var x :| x in s.batch && s.batch[x] == f && x in s.owner && s.owner[x] == r;
  }

  lemma PendingStep(plan: ItemOverlap.Plan, s: State, step: Step)
    requires PendingOk(s) && Disjoint(s) && FlushesOk(s) && Enabled(plan, s, step)
    ensures PendingOk(Apply(plan, s, step))
  {
    hide InFlush, NextItems, NextUnacked, NextAlive, NextDue, NextJobs, NextAcks;
    var t := Apply(plan, s, step);
    forall n, k | n in t.pending && 0 <= k < |t.pending[n]|
      ensures && t.pending[n][k].row in t.owner && t.owner[t.pending[n][k].row] == t.pending[n][k].owner
              && t.pending[n][k].row !in t.batch
    {
      PendingEntry(plan, s, step, n, k);
    }
  }

  /** No row waits in the buffers of two nodes. */
  ghost predicate Disjoint(s: State) {
    forall n, m, i, j |
      n in s.pending && m in s.pending && 0 <= i < |s.pending[n]| && 0 <= j < |s.pending[m]| && n != m ::
      s.pending[n][i].row != s.pending[m][j].row
  }

  lemma PendingEntry(plan: ItemOverlap.Plan, s: State, step: Step, n: nat, k: nat)
    requires PendingOk(s) && Disjoint(s) && FlushesOk(s) && Enabled(plan, s, step)
    requires var p := NextPending(plan, s, step); n in p && k < |p[n]|
    ensures
      var e, t := NextPending(plan, s, step)[n][k], Apply(plan, s, step);
      e.row in t.owner && t.owner[e.row] == e.owner && e.row !in t.batch
  {
    hide InFlush, NextItems, NextUnacked, NextAlive, NextDue, NextJobs, NextAcks;
    var e := NextPending(plan, s, step)[n][k];
    if step.Swap? {
      assert n != step.node && e == s.pending[n][k];
      forall i | 0 <= i < |s.pending[step.node]| ensures Rows(s.pending[step.node])[i] != e.row {
      }
    }
  }

  lemma DisjointStep(plan: ItemOverlap.Plan, s: State, step: Step)
    requires PendingOk(s) && Disjoint(s) && Enabled(plan, s, step)
    ensures Disjoint(Apply(plan, s, step))
  {
    hide NextItems, NextUnacked, NextAlive, NextDue, NextJobs, NextAcks, NextBatch;
  }

  lemma InFlushStep(plan: ItemOverlap.Plan, s: State, step: Step, r: Req, f: nat)
    requires PendingOk(s) && Enabled(plan, s, step) && InFlush(s, r, f)
    ensures InFlush(Apply(plan, s, step), r, f)
  {
    hide NextItems, NextUnacked, NextAlive, NextDue, NextJobs, NextAcks, NextPending;
    var t := Apply(plan, s, step);
    var x :| x in s.batch && s.batch[x] == f && x in s.owner && s.owner[x] == r;
    if step.Swap? {
      forall i | 0 <= i < |s.pending[step.node]| ensures Rows(s.pending[step.node])[i] != x {
        assert s.pending[step.node][i].row !in s.batch;
      }
    }
    assert x in t.batch && t.batch[x] == f && x in t.owner && t.owner[x] == r;
  }

  /** Taking the buffer assigns its owners to the new flush. */
  lemma SwapInFlush(plan: ItemOverlap.Plan, s: State, n: nat, r: Req)
    requires PendingOk(s) && Enabled(plan, s, Swap(n)) && r in Owners(s.pending[n])
    ensures InFlush(Apply(plan, s, Swap(n)), r, |s.origin|)
  {
    hide NextItems, NextUnacked, NextAlive, NextDue, NextJobs, NextAcks, NextPending;
    var es := s.pending[n];
    var i :| 0 <= i < |es| && es[i].owner == r;
    var t := Apply(plan, s, Swap(n));
    assert Rows(es)[i] == es[i].row;
    assert es[i].row in t.batch && t.batch[es[i].row] == |s.origin|;
    assert es[i].row in t.owner && t.owner[es[i].row] == r;
  }

  /** A flush keeps its batch. */
  lemma BatchKept(plan: ItemOverlap.Plan, s: State, step: Step, f: nat)
    requires Enabled(plan, s, step) && f < |s.items.flushes|
    ensures f < |NextItems(plan, s, step).flushes|
        && NextItems(plan, s, step).flushes[f].batch == s.items.flushes[f].batch
    ensures s.items.flushes[f].phase.Completed? ==> NextItems(plan, s, step).flushes[f] == s.items.flushes[f]
  {
  }

  lemma BatchStep(plan: ItemOverlap.Plan, s: State, step: Step, x: Row)
    requires PendingOk(s) && FlushesOk(s) && Enabled(plan, s, step) && x in NextBatch(plan, s, step)
    ensures
      var t := Apply(plan, s, step);
      x in t.owner && t.batch[x] < |t.items.flushes| && x in t.items.flushes[t.batch[x]].batch
  {
    hide InFlush, NextUnacked, NextAlive, NextDue, NextJobs, NextAcks, NextPending, NextItems, Rows;
    var t := Apply(plan, s, step);
    if step.Swap? && x in Rows(s.pending[step.node]) {
      SwapBatch(plan, s, step.node);
      RowOwned(s, step.node, x);
    } else {
      BatchKept(plan, s, step, s.batch[x]);
    }
  }

  lemma SwapBatch(plan: ItemOverlap.Plan, s: State, n: nat)
    requires Enabled(plan, s, Swap(n))
    ensures
      var w := NextItems(plan, s, Swap(n));
      |w.flushes| == |s.items.flushes| + 1 && w.flushes[|s.items.flushes|].batch == Rows(s.pending[n])
  {
  }

  lemma RowOwned(s: State, n: nat, x: Row)
    requires PendingOk(s) && n in s.pending && x in Rows(s.pending[n])
    ensures x in s.owner
  {
    var i :| 0 <= i < |s.pending[n]| && Rows(s.pending[n])[i] == x;
    assert s.pending[n][i].row == x;
  }

  lemma FlushesStep(plan: ItemOverlap.Plan, s: State, step: Step)
    requires JobsOk(s) && PendingOk(s) && FlushesOk(s) && Enabled(plan, s, step)
    ensures FlushesOk(Apply(plan, s, step))
  {
    hide InFlush, NextAlive, NextDue, NextJobs, NextAcks, NextPending, NextBatch, PendingOk, Owners;
    var t := Apply(plan, s, step);
    LengthsStep(plan, s, step);
    forall x | x in t.batch
      ensures x in t.owner && t.batch[x] < |t.items.flushes| && x in t.items.flushes[t.batch[x]].batch
    {
      BatchStep(plan, s, step, x);
    }
    forall f, r | 0 <= f < |t.unacked| && r in t.unacked[f] ensures InFlush(t, r, f) {
      if f < |s.unacked| {
        assert r in s.unacked[f];
        InFlushStep(plan, s, step, r, f);
      } else {
        SwapInFlush(plan, s, step.node, r);
      }
    }
  }

  lemma LengthsStep(plan: ItemOverlap.Plan, s: State, step: Step)
    requires Enabled(plan, s, step) && |s.origin| == |s.unacked| == |s.items.flushes|
    ensures var t := Apply(plan, s, step); |t.origin| == |t.unacked| == |t.items.flushes|
  {
    hide NextAlive, NextDue, NextJobs, NextAcks, NextPending, NextBatch;
  }

  // ---------------------------------------------------------------- acknowledgements

  /** An acknowledgement by the worker means that no item was ever put; one by a flush means that
      the flush has completed and carried an item of the request. */
  ghost predicate AckOk(s: State, r: Req) {
    r in s.acks ==>
      match s.acks[r]
      case ByWorker => !PutsItem(s, r) && (forall w | w in s.jobs :: s.jobs[w].req != r)
      case ByFlush(f) => f < |s.items.flushes| && s.items.flushes[f].phase.Completed? && InFlush(s, r, f)
  }

  lemma AckStep(plan: ItemOverlap.Plan, s: State, step: Step, r: Req)
    requires JobsOk(s) && PendingOk(s) && FlushesOk(s) && HeldUntilAcked(s) && AckOk(s, r) && Enabled(plan, s, step)
    ensures AckOk(Apply(plan, s, step), r)
  {
    hide PutsItem, InFlush, NextAlive, NextDue, NextUnacked, NextPending, NextBatch, NextItems, PendingOk;
    PutsStep(plan, s, step, r);
    if r in s.acks && s.acks[r].ByFlush? {
      InFlushStep(plan, s, step, r, s.acks[r].f);
      BatchKept(plan, s, step, s.acks[r].f);
    } else if r !in s.acks && step.AckByFlush? && step.r == r {
      InFlushStep(plan, s, step, r, step.f);
      BatchKept(plan, s, step, step.f);
    }
  }

  ghost predicate Inv(plan: ItemOverlap.Plan, s: State) {
    ItemOverlap.Inv(plan, s.items) && JobsOk(s) && PendingOk(s) && Disjoint(s) && FlushesOk(s) && HeldUntilAcked(s)
  }

  lemma ItemsStep(plan: ItemOverlap.Plan, s: State, step: Step)
    requires ItemOverlap.Inv(plan, s.items) && Enabled(plan, s, step)
    ensures ItemOverlap.Inv(plan, NextItems(plan, s, step))
  {
    hide ItemOverlap.Inv, ItemOverlap.Apply;
    match step
    case Swap(n) => ItemOverlap.InvStep(plan, s.items, ItemOverlap.Begin(Rows(s.pending[n])));
    case Items(f, act) => ItemOverlap.InvStep(plan, s.items, ItemOverlap.Do(f, act));
    case _ =>
  }

  lemma InvStep(plan: ItemOverlap.Plan, s: State, step: Step)
    requires Inv(plan, s) && Enabled(plan, s, step)
    ensures Inv(plan, Apply(plan, s, step))
  {
    hide ItemOverlap.Inv, JobsOk, PendingOk, Disjoint, FlushesOk, HeldUntilAcked, Enabled;
    ItemsStep(plan, s, step);
    JobsStep(plan, s, step);
    PendingStep(plan, s, step);
    DisjointStep(plan, s, step);
    FlushesStep(plan, s, step);
    HeldStep(plan, s, step);
  }

  lemma {:induction false} RunInvariant(plan: ItemOverlap.Plan, steps: seq<Step>, r: Req)
    requires Exec(plan, steps).Some?
    ensures Inv(plan, Exec(plan, steps).value) && AckOk(Exec(plan, steps).value, r)
  {
    hide Inv, AckOk, Apply, Enabled;
    if steps == [] {
      InitOk(plan, r);
    } else {
      var n := |steps| - 1;
      RunInvariant(plan, steps[..n], r);
      var s := Exec(plan, steps[..n]).value;
      InvStep(plan, s, steps[n]);
      InvAckStep(plan, s, steps[n], r);
    }
  }

  lemma InvAckStep(plan: ItemOverlap.Plan, s: State, step: Step, r: Req)
    requires Inv(plan, s) && AckOk(s, r) && Enabled(plan, s, step)
    ensures AckOk(Apply(plan, s, step), r)
  {
    hide ItemOverlap.Inv, JobsOk, PendingOk, Disjoint, FlushesOk, HeldUntilAcked, Enabled, AckOk, Apply;
    AckStep(plan, s, step, r);
  }

  lemma InitOk(plan: ItemOverlap.Plan, r: Req)
    ensures Inv(plan, INIT) && AckOk(INIT, r)
  {
    ItemOverlap.NothingInv(plan);
  }

  /** The worker itself acknowledges only requests that have put no item and never will. */
  lemma WorkerAcksOnlyItemless(plan: ItemOverlap.Plan, steps: seq<Step>, r: Req)
    requires Exec(plan, steps).Some? && Enabled(plan, Exec(plan, steps).value, AckByWorker(r))
    ensures var s := Exec(plan, steps).value; !PutsItem(s, r) && forall w | w in s.jobs :: s.jobs[w].req != r
  {
    hide Exec, ItemOverlap.Inv, PutsItem, PendingOk, Disjoint, FlushesOk, HeldUntilAcked, AckOk;
    RunInvariant(plan, steps, r);
  }

  /** Once a request has put an item it stays in progress until a completed flush that carried
      one of its items acknowledges it. */
  lemma DeferredStaysHeld(plan: ItemOverlap.Plan, steps: seq<Step>, r: Req)
    requires Exec(plan, steps).Some? && PutsItem(Exec(plan, steps).value, r)
    ensures
      var s := Exec(plan, steps).value;
      if r in s.acks then
        s.acks[r].ByFlush? && s.acks[r].f < |s.items.flushes| && s.items.flushes[s.acks[r].f].phase.Completed?
            && InFlush(s, r, s.acks[r].f)
      else r in s.held
  {
    hide Exec, ItemOverlap.Inv, PendingOk, Disjoint, FlushesOk, InFlush;
    RunInvariant(plan, steps, r);
    var s := Exec(plan, steps).value;
    assert r in s.home by {
      var x :| x in s.owner && s.owner[x] == r;
    }
  }

  /** All rows of `r` put so far left the buffer with flush `f`. */
  ghost predicate OneBatch(s: State, r: Req, f: nat) {
    forall x | x in s.owner && s.owner[x] == r :: x in s.batch && s.batch[x] == f
  }

  /** If all items of a request travel in one batch, then once it is acknowledged each of them is
      written or dumped, or a duplicate of a row written before or dumped with it. */
  lemma AckedIsSettled(plan: ItemOverlap.Plan, s: State, r: Req, f: nat, x: Row)
    requires Inv(plan, s) && AckOk(s, r) && r in s.acks && OneBatch(s, r, f) && x in s.owner && s.owner[x] == r
    ensures f < |s.items.flushes| && Settled(s.items.sink, plan.filterOn, s.items.flushes[f].batch, x)
  {
    hide JobsOk, PendingOk, Disjoint, HeldUntilAcked, Settled;
    assert PutsItem(s, r);
    var g := s.acks[r].f;
    var y :| y in s.batch && s.batch[y] == g && y in s.owner && s.owner[y] == r;
    assert g == f;
    CompletedSettled(plan, s.items, f);
    var batch := s.items.flushes[f].batch;
    var i :| 0 <= i < |batch| && batch[i] == x;
  }

  lemma CompletedSettled(plan: ItemOverlap.Plan, w: ItemOverlap.World, f: nat)
    requires ItemOverlap.Inv(plan, w) && f < |w.flushes| && w.flushes[f].phase.Completed?
    ensures BatchSettled(w.sink, plan.filterOn, w.flushes[f].batch)
  {
    hide ItemOverlap.LookedOk, ItemOverlap.SavedOk, BatchSettled;
    ItemOverlap.FlushSettled(plan, w.sink, w.flushes[f]);
  }

  lemma AckImpliesSettled(plan: ItemOverlap.Plan, steps: seq<Step>, r: Req, f: nat, x: Row)
    requires Exec(plan, steps).Some?
    requires var s := Exec(plan, steps).value; r in s.acks && OneBatch(s, r, f) && x in s.owner && s.owner[x] == r
    ensures var s := Exec(plan, steps).value;
            f < |s.items.flushes| && Settled(s.items.sink, plan.filterOn, s.items.flushes[f].batch, x)
  {
    hide Exec, Inv, AckOk, OneBatch, Settled;
    RunInvariant(plan, steps, r);
    AckedIsSettled(plan, Exec(plan, steps).value, r, f, x);
  }

  // ---------------------------------------------------------------- why one batch

  lemma ExecSnoc(plan: ItemOverlap.Plan, steps: seq<Step>, step: Step)
    requires Exec(plan, steps).Some? && Enabled(plan, Exec(plan, steps).value, step)
    ensures Exec(plan, steps + [step]) == Some(Apply(plan, Exec(plan, steps).value, step))
  {
    assert (steps + [step])[..|steps|] == steps;
  }

  const W := Worker(1, 0)

  /** One node, one worker on request 7; `put` are its rows in the buffer, `taken` says whether
      the first flush exists and `items` what it has done. */
  ghost predicate Scene(s: State, items: ItemOverlap.World, deferred: bool, put: seq<Entry>, rows: set<Row>,
                        taken: set<Row>)
  {
    && s.items == items && s.alive == {1} && s.jobs == map[W := Job(7, deferred)] && s.pending == map[1 := put]
    && s.home == map[7 := 1] && s.acks == map[] && s.batch.Keys == taken && s.owner.Keys == rows
    && (forall x | x in rows :: s.owner[x] == 7)
    && (if items.flushes == [] then s.origin == [] && s.unacked == [] else s.origin == [1] && s.unacked == [{7}])
  }

  lemma SceneOpens(plan: ItemOverlap.Plan) returns (steps: seq<Step>)
    ensures Exec(plan, steps).Some? && Scene(Exec(plan, steps).value, ItemOverlap.NOTHING, false, [], {}, {})
  {
    steps := [];
    ExecSnoc(plan, steps, Join(1));
    steps := steps + [Join(1)];
    hide Exec;
    ExecSnoc(plan, steps, Begin(W, 7));
    steps := steps + [Begin(W, 7)];
  }

  lemma SceneYield(plan: ItemOverlap.Plan, s: State, items: ItemOverlap.World, deferred: bool, put: seq<Entry>,
                   rows: set<Row>, taken: set<Row>, x: Row)
    requires Scene(s, items, deferred, put, rows, taken) && x !in rows
    ensures Enabled(plan, s, Yield(W, x))
    ensures Scene(Apply(plan, s, Yield(W, x)), items, true, put + [Entry(x, 7)], rows + {x}, taken)
  {
  }

  lemma SceneSwap(plan: ItemOverlap.Plan, s: State, x: Row)
    requires Scene(s, ItemOverlap.NOTHING, true, [Entry(x, 7)], {x}, {})
    ensures Enabled(plan, s, Swap(1))
    ensures Scene(Apply(plan, s, Swap(1)), ItemOverlap.World(ItemOverlap.NOTHING.sink, [ItemOverlap.Begun([x])]),
        true, [], {x}, {x})
  {
    var es := [Entry(x, 7)];
    assert s.pending[1] == es;
    assert Rows(es) == [x];
    assert Owners(es) == {7} by {
      assert es[0].owner in Owners(es);
    }
    hide ItemOverlap.Begun;
  }

  lemma SceneActs(plan: ItemOverlap.Plan, s: State, items: ItemOverlap.World, x: Row, act: ItemOverlap.Act)
    requires Scene(s, items, true, [], {x}, {x}) && |items.flushes| == 1
    requires ItemOverlap.Can(plan, items.flushes[0], act)
    ensures Enabled(plan, s, Items(0, act))
    ensures Scene(Apply(plan, s, Items(0, act)), ItemOverlap.Apply(plan, items, ItemOverlap.Do(0, act)), true, [],
        {x}, {x})
  {
    hide ItemOverlap.FlushAfter, ItemOverlap.SinkAfter, ItemOverlap.Can;
  }

  /** The flush of one row that every step of which goes well but the write, which is dumped. */
  function Path(): seq<ItemOverlap.Act> {
    [ItemOverlap.Look(true, true), ItemOverlap.Grouped, ItemOverlap.Write(false), ItemOverlap.Dump(true),
        ItemOverlap.Finish]
  }

  function Along(plan: ItemOverlap.Plan, fl: ItemOverlap.Flush, sink: Sink, n: nat): Option<ItemOverlap.World>
    requires n <= 5
  {
    if n == 0 then Some(ItemOverlap.World(sink, [fl]))
    else
      var w := Along(plan, fl, sink, n - 1);
      if w.Some? && ItemOverlap.Enabled(plan, w.value, ItemOverlap.Do(0, Path()[n - 1]))
      then Some(ItemOverlap.Apply(plan, w.value, ItemOverlap.Do(0, Path()[n - 1]))) else None
  }

  lemma PathDumps(plan: ItemOverlap.Plan, x: Row)
    requires plan.width(x.key) >= 1
    ensures
      var w := Along(plan, ItemOverlap.Begun([x]), ItemOverlap.NOTHING.sink, 5);
      && w.Some? && |w.value.flushes| == 1 && w.value.flushes[0].phase.Completed? && w.value.flushes[0].batch == [x]
      && w.value.sink.written == [] && w.value.sink.dumped == [x]
  {
    hide Along, ItemOverlap.Looked;
    var fl, sink := ItemOverlap.Begun([x]), ItemOverlap.NOTHING.sink;
    var f1 := ItemOverlap.Looked(plan, sink, fl, true, true);
    LookOne(plan, x);
    AlongNext(plan, fl, sink, 1, sink, fl);
    var f2 := f1.(phase := ItemOverlap.Saving(0));
    AlongNext(plan, fl, sink, 2, sink, f1);
    AlongNext(plan, fl, sink, 3, sink, f2);
    var f3 := f1.(phase := ItemOverlap.Dumping);
    AlongNext(plan, fl, sink, 4, sink, f3);
    var f4 := f1.(phase := ItemOverlap.Saving(0), g := 1);
    AlongNext(plan, fl, sink, 5, ItemOverlap.SinkAfter(plan, sink, f3, Path()[3]), f4);
  }

  lemma LookOne(plan: ItemOverlap.Plan, x: Row)
    ensures
      var fl, sink := ItemOverlap.Begun([x]), ItemOverlap.NOTHING.sink;
      var f := ItemOverlap.Looked(plan, sink, fl, true, true);
      && f.groups == [Group(x.key, [x])] && f.next == 1 && f.phase.Looking? && f.g == 0 && f.batch == [x]
      && Along(plan, fl, sink, 0) == Some(ItemOverlap.World(sink, [fl]))
      && ItemOverlap.SinkAfter(plan, sink, fl, ItemOverlap.Look(true, true)) == sink
  {
  }

  lemma AlongNext(plan: ItemOverlap.Plan, fl: ItemOverlap.Flush, sink: Sink, n: nat, now: Sink, fl': ItemOverlap.Flush)
    requires 1 <= n <= 5 && Along(plan, fl, sink, n - 1) == Some(ItemOverlap.World(now, [fl']))
        && ItemOverlap.Can(plan, fl', Path()[n - 1])
    ensures Along(plan, fl, sink, n)
         == Some(ItemOverlap.World(ItemOverlap.SinkAfter(plan, now, fl', Path()[n - 1]),
             [ItemOverlap.FlushAfter(plan, now, fl', Path()[n - 1])]))
  {
    var r := ItemOverlap.FlushAfter(plan, now, fl', Path()[n - 1]);
    hide ItemOverlap.FlushAfter, ItemOverlap.SinkAfter, ItemOverlap.Can;
    assert [fl'][0 := r] == [r];
  }

  lemma {:induction false} SceneFlushes(plan: ItemOverlap.Plan, x: Row, n: nat) returns (steps: seq<Step>)
    requires plan.width(x.key) >= 1 && n <= 5 && Along(plan, ItemOverlap.Begun([x]), ItemOverlap.NOTHING.sink, n).Some?
    ensures Exec(plan, steps).Some?
    ensures Scene(Exec(plan, steps).value, Along(plan, ItemOverlap.Begun([x]), ItemOverlap.NOTHING.sink, n).value,
        true, [], {x}, {x})
    ensures |Along(plan, ItemOverlap.Begun([x]), ItemOverlap.NOTHING.sink, n).value.flushes| == 1
  {
    hide Exec, Scene, Enabled, Apply, ItemOverlap.Begun;
    if n == 0 {
      steps := SceneOpens(plan);
      SceneYield(plan, Exec(plan, steps).value, ItemOverlap.NOTHING, false, [], {}, {}, x);
      ExecSnoc(plan, steps, Yield(W, x));
      steps := steps + [Yield(W, x)];
      assert [] + [Entry(x, 7)] == [Entry(x, 7)] && {} + {x} == {x};
      SceneSwap(plan, Exec(plan, steps).value, x);
      ExecSnoc(plan, steps, Swap(1));
      steps := steps + [Swap(1)];
    } else {
      steps := SceneFlushes(plan, x, n - 1);
      var items := Along(plan, ItemOverlap.Begun([x]), ItemOverlap.NOTHING.sink, n - 1).value;
      SceneActs(plan, Exec(plan, steps).value, items, x, Path()[n - 1]);
      ExecSnoc(plan, steps, Items(0, Path()[n - 1]));
      steps := steps + [Items(0, Path()[n - 1])];
    }
  }

  /** A flush that falls between two items of a request: there is a run in which the request has
      put `x` and `y` and nothing else and is acknowledged, while `y` waits in the buffer, carried
      by no flush, neither written nor dumped. */
  lemma FlushBetweenItemsAcksEarly(plan: ItemOverlap.Plan, x: Row, y: Row) returns (steps: seq<Step>, r: Req)
    requires plan.width(x.key) >= 1 && x != y
    ensures Exec(plan, steps).Some?
    ensures
      var s := Exec(plan, steps).value;
      && r in s.acks && PutsOnly(s, r, {x, y})
      && y in s.owner && s.owner[y] == r && 1 in s.pending && s.pending[1] == [Entry(y, r)]
      && y !in s.items.sink.written && y !in s.items.sink.dumped
      && forall f | 0 <= f < |s.items.flushes| :: y !in s.items.flushes[f].batch
  {
    hide Exec, Along, ItemOverlap.Begun;
    r := 7;
    PathDumps(plan, x);
    steps := SceneFlushes(plan, x, 5);
    var items := Along(plan, ItemOverlap.Begun([x]), ItemOverlap.NOTHING.sink, 5).value;
    SceneYield(plan, Exec(plan, steps).value, items, true, [], {x}, {x}, y);
    ExecSnoc(plan, steps, Yield(W, y));
    steps := steps + [Yield(W, y)];
    ExecSnoc(plan, steps, AckByFlush(0, 7));
    steps := steps + [AckByFlush(0, 7)];
  }

  // ---------------------------------------------------------------- the exact condition

  /** The request has put no row outside `rows`. */
  ghost predicate PutsOnly(s: State, r: Req, rows: set<Row>) {
    forall x | x in s.owner && s.owner[x] == r :: x in rows
  }

  /** Flush `f` carried the row, and it is settled there. */
  ghost predicate SettledIn(plan: ItemOverlap.Plan, s: State, x: Row, f: nat) {
    && f < |s.items.flushes| && x in s.items.flushes[f].batch
    && Settled(s.items.sink, plan.filterOn, s.items.flushes[f].batch, x)
  }

  /** Every row the request has put is settled in a flush that carried it. */
  ghost predicate AllSettled(plan: ItemOverlap.Plan, s: State, r: Req) {
    forall x | x in s.owner && s.owner[x] == r :: exists f: nat :: SettledIn(plan, s, x, f)
  }

  lemma OneBatchAllSettled(plan: ItemOverlap.Plan, s: State, r: Req, f: nat)
    requires Inv(plan, s) && AckOk(s, r) && r in s.acks && OneBatch(s, r, f)
    ensures AllSettled(plan, s, r)
  {
    hide AckOk, Settled, ItemOverlap.Inv, JobsOk, PendingOk, Disjoint, HeldUntilAcked, InFlush;
    forall x | x in s.owner && s.owner[x] == r ensures exists g: nat :: SettledIn(plan, s, x, g) {
      AckedIsSettled(plan, s, r, f, x);
      assert x in s.batch && s.batch[x] == f;
      assert SettledIn(plan, s, x, f);
    }
  }

  /** At most one row: it travels in one batch. */
  lemma FewRowsOneBatch(plan: ItemOverlap.Plan, s: State, r: Req)
    requires Inv(plan, s) && AckOk(s, r) && r in s.acks
    requires forall x, y | x in s.owner && y in s.owner && s.owner[x] == r && s.owner[y] == r :: x == y
    ensures exists f: nat :: OneBatch(s, r, f)
  {
    hide Inv;
    if s.acks[r].ByWorker? {
      assert !PutsItem(s, r);
      assert OneBatch(s, r, 0);
    } else {
      var f := s.acks[r].f;
      var y :| y in s.batch && s.batch[y] == f && y in s.owner && s.owner[y] == r;
      assert OneBatch(s, r, f);
    }
  }

  lemma FewRowsAllSettled(plan: ItemOverlap.Plan, s: State, r: Req)
    requires Inv(plan, s) && AckOk(s, r) && r in s.acks
    requires forall x, y | x in s.owner && y in s.owner && s.owner[x] == r && s.owner[y] == r :: x == y
    ensures AllSettled(plan, s, r)
  {
    hide Inv, AckOk, OneBatch, AllSettled;
    FewRowsOneBatch(plan, s, r);
    var f: nat :| OneBatch(s, r, f);
    OneBatchAllSettled(plan, s, r, f);
  }

  /** In every run, an acknowledged request that puts only rows of `rows` has all of them settled. */
  ghost predicate AckedMeansSettled(plan: ItemOverlap.Plan, rows: set<Row>) {
    forall steps, r |
      && Exec(plan, steps).Some? && r in Exec(plan, steps).value.acks
      && PutsOnly(Exec(plan, steps).value, r, rows) ::
      AllSettled(plan, Exec(plan, steps).value, r)
  }

  /** Acknowledged means settled, whatever the flushes do, if and only if the request puts at most
      one row. */
  lemma AckedMeansSettledIff(plan: ItemOverlap.Plan, rows: set<Row>)
    requires forall x | x in rows :: plan.width(x.key) >= 1
    ensures AckedMeansSettled(plan, rows) <==> |rows| <= 1
  {
    hide Exec, AllSettled, Inv, AckOk;
    if |rows| <= 1 {
      forall steps, r |
        && Exec(plan, steps).Some? && r in Exec(plan, steps).value.acks
        && PutsOnly(Exec(plan, steps).value, r, rows)
        ensures AllSettled(plan, Exec(plan, steps).value, r)
      {
        var s := Exec(plan, steps).value;
        RunInvariant(plan, steps, r);
        forall x, y | x in s.owner && y in s.owner && s.owner[x] == r && s.owner[y] == r ensures x == y {
          AtMostOne(rows, x, y);
        }
        FewRowsAllSettled(plan, s, r);
      }
    } else {
      var x :| x in rows;
      var y := Another(rows, x);
      var steps, r := FlushBetweenItemsAcksEarly(plan, x, y);
      EarlyIsUnsettled(plan, Exec(plan, steps).value, r, y);
      assert PutsOnly(Exec(plan, steps).value, r, rows);
    }
  }

  lemma EarlyIsUnsettled(plan: ItemOverlap.Plan, s: State, r: Req, y: Row)
    requires y in s.owner && s.owner[y] == r
    requires forall f | 0 <= f < |s.items.flushes| :: y !in s.items.flushes[f].batch
    ensures !AllSettled(plan, s, r)
  {
    hide Settled;
  }

  lemma AtMostOne<T>(s: set<T>, x: T, y: T)
    requires |s| <= 1 && x in s && y in s
    ensures x == y
  {
    CardSubset({x, y}, s);
  }

  lemma Another<T>(s: set<T>, x: T) returns (y: T)
    requires |s| > 1 && x in s
    ensures y in s && y != x
  {
    assert |s - {x}| == |s| - 1;
    y :| y in s - {x};
  }
}
