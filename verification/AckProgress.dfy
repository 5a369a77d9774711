/** No request is forgotten: until it is acknowledged, somebody still has it to process, to persist
    or to acknowledge. */
module AckProgress {
  import opened Seqs
  import opened ItemBuffer
  import ItemOverlap
  import opened AckPipeline

  /** A worker is processing the request. */
  ghost predicate InJob(s: State, r: Req) {
    exists w :: w in s.jobs && s.jobs[w].req == r
  }

  /** A row of the request waits in a buffer. */
  ghost predicate InBuffer(s: State, r: Req) {
    exists n, k :: n in s.pending && 0 <= k < |s.pending[n]| && s.pending[n][k].owner == r
  }

  /** A flush has the request among those to acknowledge when it completes. */
  ghost predicate OnList(s: State, r: Req) {
    exists f :: 0 <= f < |s.unacked| && r in s.unacked[f]
  }

  ghost predicate Remembered(s: State, r: Req) {
    r in s.home && r !in s.acks ==>
      && (InJob(s, r) || r in s.due || PutsItem(s, r))
      && (PutsItem(s, r) ==> InBuffer(s, r) || OnList(s, r))
      && (forall w | w in s.jobs && s.jobs[w].req == r && s.jobs[w].deferred :: PutsItem(s, r))
  }

  lemma BufferStep(plan: ItemOverlap.Plan, s: State, step: Step, r: Req)
    requires Enabled(plan, s, step) && InBuffer(s, r)
    ensures var t := Apply(plan, s, step); InBuffer(t, r) || OnList(t, r)
  {
    hide NextItems, NextAlive, NextJobs, NextDue, NextBatch, NextAcks;
    var t := Apply(plan, s, step);
    var n, k :| n in s.pending && 0 <= k < |s.pending[n]| && s.pending[n][k].owner == r;
    if step.Swap? && step.node == n {
      assert r in Owners(s.pending[n]);
      var f := |s.unacked|;
      assert r in t.unacked[f];
    } else {
      assert n in t.pending && k < |t.pending[n]| && t.pending[n][k] == s.pending[n][k];
    }
  }

  lemma ListStep(plan: ItemOverlap.Plan, s: State, step: Step, r: Req)
    requires Enabled(plan, s, step) && OnList(s, r) && !(step.AckByFlush? && step.r == r)
    ensures OnList(Apply(plan, s, step), r)
  {
    hide NextItems, NextAlive, NextJobs, NextDue, NextBatch, NextAcks, NextPending;
    var f :| 0 <= f < |s.unacked| && r in s.unacked[f];
    assert r in NextUnacked(plan, s, step)[f];
  }

  lemma YieldBuffers(plan: ItemOverlap.Plan, s: State, w: Worker, row: Row)
    requires Enabled(plan, s, Yield(w, row))
    ensures var t := Apply(plan, s, Yield(w, row)); InBuffer(t, s.jobs[w].req) && PutsItem(t, s.jobs[w].req)
  {
    hide NextItems, NextAlive, NextJobs, NextDue, NextBatch, NextAcks, NextUnacked;
    var t := Apply(plan, s, Yield(w, row));
    var k := |s.pending[w.node]|;
    assert t.pending[w.node][k].owner == s.jobs[w].req;
    assert row in t.owner && t.owner[row] == s.jobs[w].req;
  }

  lemma JobStep(plan: ItemOverlap.Plan, s: State, step: Step, r: Req)
    requires Enabled(plan, s, step) && InJob(s, r)
    ensures
      var t := Apply(plan, s, step);
      InJob(t, r) || (step.Finish? && s.jobs[step.w].req == r && (s.jobs[step.w].deferred || r in t.due))
  {
    hide NextItems, NextAlive, NextBatch, NextAcks, NextUnacked, NextPending;
    var t := Apply(plan, s, step);
    var w :| w in s.jobs && s.jobs[w].req == r;
    if !(step.Finish? && step.w == w) {
      assert w in t.jobs && t.jobs[w].req == r;
    }
  }

  lemma AckedNow(plan: ItemOverlap.Plan, s: State, step: Step, r: Req)
    requires Enabled(plan, s, step) && (step.AckByFlush? || step.AckByWorker?) && step.r == r
    ensures r in Apply(plan, s, step).acks
  {
    hide NextItems, NextAlive, NextJobs, NextDue, NextBatch, NextUnacked, NextPending;
  }

  lemma BeganNow(plan: ItemOverlap.Plan, s: State, step: Step)
    requires Enabled(plan, s, step) && step.Begin?
    ensures InJob(Apply(plan, s, step), step.r)
  {
    hide NextItems, NextAlive, NextDue, NextBatch, NextUnacked, NextPending, NextAcks;
    assert Apply(plan, s, step).jobs[step.w].req == step.r;
  }

  /** What a step leaves of `home`, `acks`, `due` and the deferred jobs of `r`. */
  lemma SmallStep(plan: ItemOverlap.Plan, s: State, step: Step, r: Req)
    requires JobsOk(s) && Enabled(plan, s, step)
    ensures
      var t := Apply(plan, s, step);
      && (r in t.home ==> r in s.home || (step.Begin? && step.r == r))
      && (r !in t.acks ==> r !in s.acks)
      && (r in s.due && r !in t.acks ==> r in t.due)
      && (forall w | w in t.jobs && t.jobs[w].req == r && t.jobs[w].deferred ::
            (w in s.jobs && s.jobs[w].req == r && s.jobs[w].deferred)
                || (step.Yield? && step.w == w && s.jobs[w].req == r))
  {
    hide NextItems, NextAlive, NextBatch, NextUnacked, NextPending, PutsItem;
  }

  lemma RememberedStep(plan: ItemOverlap.Plan, s: State, step: Step, r: Req)
    requires JobsOk(s) && Remembered(s, r) && Enabled(plan, s, step)
    ensures Remembered(Apply(plan, s, step), r)
  {
    hide InJob, InBuffer, OnList, PutsItem, JobsOk, Apply, Enabled;
    var t := Apply(plan, s, step);
    FinishedJob(plan, s, step);
    SmallStep(plan, s, step, r);
    PutsStep(plan, s, step, r);
    if r in t.home && r !in t.acks {
      if step.Begin? && step.r == r {
        BeganNow(plan, s, step);
      }
      if (step.AckByFlush? || step.AckByWorker?) && step.r == r {
        AckedNow(plan, s, step, r);
      }
      if step.Yield? && step.w in s.jobs && s.jobs[step.w].req == r {
        YieldBuffers(plan, s, step.w, step.row);
      }
      if InJob(s, r) {
        JobStep(plan, s, step, r);
      }
      if InBuffer(s, r) {
        BufferStep(plan, s, step, r);
      }
      if OnList(s, r) && !(step.AckByFlush? && step.r == r) {
        ListStep(plan, s, step, r);
      }
      if r !in s.home {
        NewPutsNothingHere(s, r);
      }
    }
  }

  lemma FinishedJob(plan: ItemOverlap.Plan, s: State, step: Step)
    requires Enabled(plan, s, step)
    ensures step.Finish? || step.Yield? ==> step.w in s.jobs
    ensures step.Begin? ==> step.r !in s.home
  {
  }

  lemma NewPutsNothingHere(s: State, r: Req)
    requires JobsOk(s) && r !in s.home
    ensures !PutsItem(s, r) && forall w | w in s.jobs :: s.jobs[w].req != r
  {
    NewPutsNothing(s, r);
  }

  /** In every run of any nodes: a request started and not yet acknowledged is being processed, or
      waits for its worker's acknowledgement, or has a row in a buffer or in a flush that will
      acknowledge it on completion. */
  lemma {:induction false} NobodyIsForgotten(plan: ItemOverlap.Plan, steps: seq<Step>, r: Req)
    requires Exec(plan, steps).Some?
    ensures Remembered(Exec(plan, steps).value, r)
  {
    hide Remembered, Apply, Enabled, Inv, AckOk;
    if steps == [] {
      NothingYet(r);
    } else {
      var n := |steps| - 1;
      NobodyIsForgotten(plan, steps[..n], r);
      RunInvariant(plan, steps[..n], r);
      InvJobs(plan, Exec(plan, steps[..n]).value);
      RememberedStep(plan, Exec(plan, steps[..n]).value, steps[n], r);
    }
  }

  lemma InvJobs(plan: ItemOverlap.Plan, s: State)
    requires Inv(plan, s)
    ensures JobsOk(s)
  {
    hide JobsOk, PendingOk, Disjoint, FlushesOk, HeldUntilAcked, ItemOverlap.Inv;
  }

  lemma NothingYet(r: Req)
    ensures Remembered(INIT, r)
  {
  }
}
