/** The leased queue and the acknowledgement pipeline together: a task leaves Redis only after
    what it produced has been settled. */
module EndToEnd {
  import opened Seqs
  import opened TaskQueue
  import opened ItemBuffer
  import ItemOverlap
  import Lease = LeaseProtocol
  import Pipe = AckPipeline

  /** `token` is the delivery a request object came from; `gone` are deliveries whose request
      object has been acknowledged in memory. */
  datatype World = World(lease: Lease.State, pipe: Pipe.State, token: map<Pipe.Req, Lease.Claim>,
        gone: set<Lease.Claim>)

  const START := World(Lease.INIT, Pipe.INIT, map[], {})

  /** A queue step, a pipeline step, or one of the steps they share. `Done` takes the request out
      of progress, `Zrem` then takes the token out of Redis; a crash may fall between, and a
      failing removal is no step. */
  datatype Step =
    | OnQueue(e: Lease.Event)
    | InNode(p: Pipe.Step)
    | Join(at: real, node: nat)
    | Start(w: Pipe.Worker, r: Pipe.Req, c: Lease.Claim)
    | Done(at: real, p: Pipe.Step)
    | Zrem(at: real, c: Lease.Claim)
    | Crash(at: real, node: nat)

  /** What the step does to the queue, if anything. */
  function LeaseEvent(w: World, step: Step): Option<Lease.Event> {
    match step
    case OnQueue(e) => Some(e)
    case Join(at, n) => Some(Lease.Event(at, Lease.Join(n)))
    case Done(at, p) =>
      if (p.AckByWorker? || p.AckByFlush?) && p.r in w.token && w.token[p.r] in w.lease.held
      then Some(Lease.Event(at, Lease.Release(w.token[p.r]))) else None
    case Zrem(at, c) => Some(Lease.Event(at, Lease.Ack(c)))
    case Crash(at, n) => Some(Lease.Event(at, Lease.Crash(n)))
    case _ => None
  }

  /** What the step does in the nodes, if anything. */
  function PipeStep(step: Step): Option<Pipe.Step> {
    match step
    case InNode(p) => Some(p)
    case Join(_, n) => Some(Pipe.Join(n))
    case Start(w, r, _) => Some(Pipe.Begin(w, r))
    case Done(_, p) => Some(p)
    case Crash(_, n) => Some(Pipe.Crash(n))
    case _ => None
  }

  ghost predicate Enabled(plan: ItemOverlap.Plan, w: World, step: Step) {
    && (LeaseEvent(w, step).Some? ==> Lease.Enabled(w.lease, LeaseEvent(w, step).value))
    && (PipeStep(step).Some? ==> Pipe.Enabled(plan, w.pipe, PipeStep(step).value))
    && match step {
         case OnQueue(e) => e.step.Put? || e.step.Take? || e.step.BzPop? || e.step.BzRecord? || e.step.Enter?
             || e.step.Snapshot? || e.step.Renew? || e.step.RenewFails? || e.step.Reclaim?
         case InNode(p) => p.Yield? || p.Finish? || p.Swap? || p.Items?
         case Start(k, r, c) => c in w.lease.held && c.node == k.node && forall q | q in w.token :: w.token[q] != c
         case Done(_, p) => (p.AckByWorker? || p.AckByFlush?) && p.r in w.token
         case Zrem(_, c) => c in w.gone
         case _ => true
       }
  }

  ghost function Apply(plan: ItemOverlap.Plan, w: World, step: Step, lease: real): World
    requires Enabled(plan, w, step)
  {
    var e, p := LeaseEvent(w, step), PipeStep(step);
    World(if e.Some? then Lease.Apply(w.lease, e.value, lease) else w.lease,
          if p.Some? then Pipe.Apply(plan, w.pipe, p.value) else w.pipe,
          if step.Start? then w.token[step.r := step.c] else w.token,
          if step.Done? then w.gone + {w.token[step.p.r]} else w.gone)
  }

  ghost predicate IsRun(plan: ItemOverlap.Plan, states: seq<World>, steps: seq<Step>, lease: real) {
    && |states| == |steps| + 1 && states[0] == START
    && (forall i | 0 <= i < |steps| ::
          Enabled(plan, states[i], steps[i]) && states[i + 1] == Apply(plan, states[i], steps[i], lease))
  }

  // ---------------------------------------------------------------- who vouches for a member

  /** Request `r` was delivered after the last put of `m` and has been acknowledged. */
  ghost predicate Vouches(w: World, r: Pipe.Req, m: Member) {
    r in w.token && w.token[r].member == m && Lease.Fresh(w.lease, w.token[r]) && r in w.pipe.acks
  }

  ghost predicate Vouched(w: World, m: Member) {
    exists r :: Vouches(w, r, m)
  }

  ghost predicate GoneOk(w: World) {
    forall c | c in w.gone :: exists r :: r in w.token && w.token[r] == c && r in w.pipe.acks
  }

  ghost predicate TokensOk(w: World) {
    forall r | r in w.token :: r in w.pipe.home
  }

  lemma AcksGrow(plan: ItemOverlap.Plan, s: Pipe.State, p: Pipe.Step)
    requires Pipe.Enabled(plan, s, p)
    ensures
      var t := Pipe.Apply(plan, s, p);
      && (forall r | r in s.acks :: r in t.acks) && (forall r | r in s.home :: r in t.home)
      && ((p.AckByWorker? || p.AckByFlush?) ==> p.r in t.acks)
      && (p.Begin? ==> p.r in t.home)
  {
    hide Pipe.NextItems, Pipe.NextUnacked, Pipe.NextAlive, Pipe.NextJobs, Pipe.NextDue, Pipe.NextPending,
        Pipe.NextBatch;
  }

  /** Acknowledged requests and their tokens stay. */
  lemma GrowsStep(plan: ItemOverlap.Plan, w: World, step: Step, lease: real)
    requires Enabled(plan, w, step) && TokensOk(w)
    ensures
      var t := Apply(plan, w, step, lease);
      && TokensOk(t)
      && (forall r | r in w.token :: r in t.token && t.token[r] == w.token[r])
      && (forall r | r in w.pipe.acks :: r in t.pipe.acks)
      && (step.Done? ==> step.p.r in t.pipe.acks)
  {
    hide Pipe.Apply, Lease.Apply, Lease.Enabled;
    if PipeStep(step).Some? {
      AcksGrow(plan, w.pipe, PipeStep(step).value);
    }
    assert step.Start? ==> step.r !in w.pipe.home;
    hide Pipe.Enabled;
  }

  lemma GoneStep(plan: ItemOverlap.Plan, w: World, step: Step, lease: real)
    requires Enabled(plan, w, step) && TokensOk(w) && GoneOk(w)
    ensures GoneOk(Apply(plan, w, step, lease))
  {
    hide Pipe.Apply, Lease.Apply, Lease.Enabled, Pipe.Enabled, TokensOk;
    GrowsStep(plan, w, step, lease);
    var t := Apply(plan, w, step, lease);
    forall c | c in t.gone ensures exists r :: r in t.token && t.token[r] == c && r in t.pipe.acks {
      if c in w.gone {
        var r :| r in w.token && w.token[r] == c && r in w.pipe.acks;
        assert r in t.token && t.token[r] == c && r in t.pipe.acks;
      } else {
        assert step.p.r in t.token && t.token[step.p.r] == c;
      }
    }
  }

  /** Only a put makes a delivery stale. */
  lemma FreshStays(s: Lease.State, e: Lease.Event, lease: real, c: Lease.Claim)
    requires Lease.Fresh(s, c) && !(e.step.Put? && e.step.member == c.member)
    ensures Lease.Fresh(Lease.Apply(s, e, lease), c)
  {
    hide Lease.Queue, Lease.Inflight, Lease.Transit, Lease.Held, Lease.Entered, Lease.Beats, Lease.Snaps,
        Lease.LeasedAt, Lease.Settled, Lease.Gets;
  }

  lemma SettledAt(s: Lease.State, e: Lease.Event, lease: real, m: Member)
    requires m in Lease.Apply(s, e, lease).settled
    ensures !(e.step.Put? && e.step.member == m)
    ensures m in s.settled || (e.step.Ack? && e.step.claim.member == m && Lease.Fresh(s, e.step.claim))
  {
    hide Lease.Queue, Lease.Inflight, Lease.Transit, Lease.Held, Lease.Entered, Lease.Beats, Lease.Snaps,
        Lease.LeasedAt, Lease.Gets, Lease.Fresh;
  }

  lemma VouchesStep(plan: ItemOverlap.Plan, w: World, step: Step, lease: real, r: Pipe.Req, m: Member)
    requires Enabled(plan, w, step) && TokensOk(w)
    requires r in w.token && w.token[r].member == m && Lease.Fresh(w.lease, w.token[r]) && r in w.pipe.acks
    requires var e := LeaseEvent(w, step); e.Some? ==> !(e.value.step.Put? && e.value.step.member == m)
    ensures Vouches(Apply(plan, w, step, lease), r, m)
  {
    hide Pipe.Apply, Lease.Apply, Lease.Enabled, Pipe.Enabled, TokensOk, Lease.Fresh;
    GrowsStep(plan, w, step, lease);
    if LeaseEvent(w, step).Some? {
      FreshStays(w.lease, LeaseEvent(w, step).value, lease, w.token[r]);
    }
  }

  ghost predicate Inv(plan: ItemOverlap.Plan, w: World, m: Member) {
    && TokensOk(w) && GoneOk(w)
    && (m in w.lease.lastPut ==> Lease.Somewhere(w.lease, m))
    && (m in w.lease.settled ==> Vouched(w, m))
  }

  lemma VouchedStep(plan: ItemOverlap.Plan, w: World, step: Step, lease: real, m: Member)
    requires Enabled(plan, w, step) && Inv(plan, w, m)
    requires m in Apply(plan, w, step, lease).lease.settled
    ensures Vouched(Apply(plan, w, step, lease), m)
  {
    hide Pipe.Apply, Lease.Apply, Lease.Enabled, Pipe.Enabled, TokensOk, Lease.Fresh, Lease.Somewhere;
    var t, e := Apply(plan, w, step, lease), LeaseEvent(w, step);
    if e.Some? {
      SettledAt(w.lease, e.value, lease, m);
    }
    if m in w.lease.settled {
      var r :| Vouches(w, r, m);
      VouchesStep(plan, w, step, lease, r, m);
    } else {
      assert step.Zrem? && step.c.member == m;
      var r :| r in w.token && w.token[r] == step.c && r in w.pipe.acks;
      VouchesStep(plan, w, step, lease, r, m);
    }
  }

  /** The queue step, if any, does no harm to `m`. */
  ghost predicate Gentle(w: World, step: Step, m: Member) {
    LeaseEvent(w, step).Some? ==> !Lease.Harmful(w.lease, LeaseEvent(w, step).value, m)
  }

  lemma InvStep(plan: ItemOverlap.Plan, w: World, step: Step, lease: real, m: Member)
    requires Enabled(plan, w, step) && Inv(plan, w, m) && Gentle(w, step, m)
    ensures Inv(plan, Apply(plan, w, step, lease), m)
  {
    hide Pipe.Apply, Lease.Apply, Lease.Enabled, Pipe.Enabled, Lease.Fresh, Lease.Somewhere, Lease.Harmful, Vouched,
        GoneOk, TokensOk;
    GrowsStep(plan, w, step, lease);
    GoneStep(plan, w, step, lease);
    if LeaseEvent(w, step).Some? {
      Lease.SomewhereStep(w.lease, LeaseEvent(w, step).value, lease, m);
    }
    if m in Apply(plan, w, step, lease).lease.settled {
      VouchedStep(plan, w, step, lease, m);
    }
  }

  lemma {:induction false} RunInv(plan: ItemOverlap.Plan, states: seq<World>, steps: seq<Step>, lease: real, i: nat,
        m: Member)
    requires IsRun(plan, states, steps, lease) && i < |states|
    requires forall k | 0 <= k < |steps| :: Gentle(states[k], steps[k], m)
    ensures Inv(plan, states[i], m)
  {
    hide Inv, Enabled, Apply, Gentle;
    if i == 0 {
      StartInv(plan, m);
    } else {
      RunInv(plan, states, steps, lease, i - 1, m);
      InvStep(plan, states[i - 1], steps[i - 1], lease, m);
    }
  }

  lemma StartInv(plan: ItemOverlap.Plan, m: Member)
    ensures Inv(plan, START, m)
  {
  }

  lemma {:induction false} PipeInv(plan: ItemOverlap.Plan, states: seq<World>, steps: seq<Step>, lease: real, i: nat,
        r: Pipe.Req)
    requires IsRun(plan, states, steps, lease) && i < |states|
    ensures Pipe.Inv(plan, states[i].pipe) && Pipe.AckOk(states[i].pipe, r)
  {
    hide Pipe.Inv, Pipe.AckOk, Pipe.Apply, Pipe.Enabled, Lease.Enabled, Lease.Apply;
    if i == 0 {
      Pipe.InitOk(plan, r);
    } else {
      PipeInv(plan, states, steps, lease, i - 1, r);
      var w, p := states[i - 1], PipeStep(steps[i - 1]);
      assert Enabled(plan, w, steps[i - 1]);
      if p.Some? {
        Pipe.InvStep(plan, w.pipe, p.value);
        Pipe.InvAckStep(plan, w.pipe, p.value, r);
      }
    }
  }

  // ---------------------------------------------------------------- end to end

  ghost predicate InOneBatch(s: Pipe.State, r: Pipe.Req) {
    exists f :: Pipe.OneBatch(s, r, f)
  }

  /** The rows of each acknowledged request travelled in one batch. */
  ghost predicate Together(s: Pipe.State) {
    forall r | r in s.acks :: InOneBatch(s, r)
  }

  /** Where a task is: queued, in flight, in one unfinished blocking pop, or acknowledged by a
      delivery later than its last put, with everything that delivery put settled. */
  ghost predicate Accounted(plan: ItemOverlap.Plan, w: World, m: Member) {
    || m in w.lease.queue || m in w.lease.inflight || Lease.InGet(w.lease, m)
    || exists r :: Vouches(w, r, m) && Pipe.AllSettled(plan, w.pipe, r)
  }

  lemma AckedAllSettled(plan: ItemOverlap.Plan, s: Pipe.State, r: Pipe.Req)
    requires Pipe.Inv(plan, s) && Pipe.AckOk(s, r) && r in s.acks && Together(s)
    ensures Pipe.AllSettled(plan, s, r)
  {
    hide Pipe.Inv, Pipe.AckOk, Pipe.OneBatch, Pipe.AllSettled;
    assert InOneBatch(s, r);
    var f :| Pipe.OneBatch(s, r, f);
    Pipe.OneBatchAllSettled(plan, s, r, f);
  }

  /** At every moment of every run of any nodes, with crashes anywhere: a task ever put is queued,
      in flight, in one unfinished pop, or was acknowledged after all it put had been settled.
      Hypotheses: no harmful acknowledgement of it, and no request spread over two batches. */
  lemma TasksAreAccountedFor(plan: ItemOverlap.Plan, states: seq<World>, steps: seq<Step>, lease: real, i: nat,
        m: Member)
    requires IsRun(plan, states, steps, lease) && i < |states| && m in states[i].lease.lastPut
    requires forall k | 0 <= k < |steps| :: Gentle(states[k], steps[k], m)
    requires Together(states[i].pipe)
    ensures Accounted(plan, states[i], m)
  {
    hide Enabled, Apply, Gentle, Pipe.AllSettled, Together, Vouches, Lease.InGet, GoneOk, TokensOk;
    RunInv(plan, states, steps, lease, i, m);
    var w := states[i];
    if m in w.lease.settled {
      var r :| Vouches(w, r, m);
      VouchIsAcked(w, r, m);
      PipeInv(plan, states, steps, lease, i, r);
      AckedAllSettled(plan, w.pipe, r);
    }
  }

  lemma VouchIsAcked(w: World, r: Pipe.Req, m: Member)
    requires Vouches(w, r, m)
    ensures r in w.pipe.acks
  {
  }

  // ---------------------------------------------------------------- tasks put once

  lemma {:induction false} PutOnceAfter(plan: ItemOverlap.Plan, states: seq<World>, steps: seq<Step>, lease: real,
        i: nat, m: Member)
    requires IsRun(plan, states, steps, lease) && i < |states| && PutOnce(states, steps, m)
    ensures Lease.After(states[i].lease, m)
  {
    hide Lease.After, Lease.Apply, Lease.Enabled, Pipe.Apply, Pipe.Enabled;
    if i == 0 {
      InitAfter(m);
    } else {
      PutOnceAfter(plan, states, steps, lease, i - 1, m);
      var w, e := states[i - 1], LeaseEvent(states[i - 1], steps[i - 1]);
      assert Enabled(plan, w, steps[i - 1]);
      if e.Some? {
        Lease.AfterStep(w.lease, e.value, lease, m);
      }
    }
  }

  lemma InitAfter(m: Member)
    ensures Lease.After(Lease.INIT, m)
  {
  }

  ghost predicate PutOnce(states: seq<World>, steps: seq<Step>, m: Member)
    requires |states| == |steps| + 1
  {
    forall i | 0 <= i < |steps| :: steps[i].OnQueue? && steps[i].e.step.Put? && steps[i].e.step.member == m
        ==> m !in states[i].lease.lastPut
  }

  lemma LateIsHarmless(s: Lease.State, e: Lease.Event, m: Member)
    requires Lease.After(s, m) && Lease.Enabled(s, e)
    ensures !Lease.Harmful(s, e, m)
  {
    hide Lowest, Expired, Lease.InGet;
  }

  /** A task put once needs no hypothesis about acknowledgements. */
  lemma TasksPutOnceAreAccountedFor(plan: ItemOverlap.Plan, states: seq<World>, steps: seq<Step>, lease: real,
        i: nat, m: Member)
    requires IsRun(plan, states, steps, lease) && i < |states| && m in states[i].lease.lastPut
    requires PutOnce(states, steps, m) && Together(states[i].pipe)
    ensures Accounted(plan, states[i], m)
  {
    hide Apply, Accounted, Together, Lease.After, Lease.Enabled, Lease.Harmful, Pipe.Enabled;
    forall k | 0 <= k < |steps| ensures Gentle(states[k], steps[k], m) {
      PutOnceAfter(plan, states, steps, lease, k, m);
      assert Enabled(plan, states[k], steps[k]);
      if LeaseEvent(states[k], steps[k]).Some? {
        LateIsHarmless(states[k].lease, LeaseEvent(states[k], steps[k]).value, m);
      }
    }
    TasksAreAccountedFor(plan, states, steps, lease, i, m);
  }

  // ---------------------------------------------------------------- requests that put one row

  /** No acknowledged request has put two rows. */
  ghost predicate OneRowEach(s: Pipe.State) {
    forall x, y | x in s.owner && y in s.owner && s.owner[x] == s.owner[y] && s.owner[x] in s.acks :: x == y
  }

  lemma OneRowTogether(plan: ItemOverlap.Plan, s: Pipe.State)
    requires Pipe.Inv(plan, s) && (forall r :: Pipe.AckOk(s, r)) && OneRowEach(s)
    ensures Together(s)
  {
    hide Pipe.Inv, Pipe.AckOk, Pipe.OneBatch;
    forall r | r in s.acks ensures InOneBatch(s, r) {
      assert Pipe.AckOk(s, r);
      Pipe.FewRowsOneBatch(plan, s, r);
    }
  }

  /** With requests that put at most one row nothing about batches needs to be assumed. */
  lemma OneRowTasksAreAccountedFor(plan: ItemOverlap.Plan, states: seq<World>, steps: seq<Step>, lease: real, i: nat,
        m: Member)
    requires IsRun(plan, states, steps, lease) && i < |states| && m in states[i].lease.lastPut
    requires forall k | 0 <= k < |steps| :: Gentle(states[k], steps[k], m)
    requires OneRowEach(states[i].pipe)
    ensures Accounted(plan, states[i], m)
  {
    hide Enabled, Apply, Gentle, Accounted, Together, OneRowEach, Pipe.Inv, Pipe.AckOk;
    forall r ensures Pipe.Inv(plan, states[i].pipe) && Pipe.AckOk(states[i].pipe, r) {
      PipeInv(plan, states, steps, lease, i, r);
    }
    PipeInv(plan, states, steps, lease, i, 0);
    OneRowTogether(plan, states[i].pipe);
    TasksAreAccountedFor(plan, states, steps, lease, i, m);
  }
}
