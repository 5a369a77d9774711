/** The master of a batch: one patrol, and what holds over whole runs with workers marking
    tasks in between. */
module BatchMonitor {
  import opened Seqs
  import opened BatchStore

  datatype Record = Record(total: nat, done: nat, failed: nat, isDone: bool)

  ghost predicate AllSettled(t: Table) {
    forall i | 0 <= i < |t.rows| :: Settled(t.rows[i])
  }

  class Monitor {
    const store: MemoryBatchStore
    const stale: real
    const pushLimit: int
    var pending: seq<Row>
    var doneFlag: bool
    var batch: Record

    constructor (store: MemoryBatchStore, stale: real, pushLimit: int, batch: Record)
      ensures this.store == store && this.stale == stale && this.pushLimit == pushLimit
      ensures pending == [] && !doneFlag && this.batch == batch
    {
      this.store, this.stale, this.pushLimit := store, stale, pushLimit;
      pending, doneFlag := [], false;
      this.batch := batch;
    }

    /** Start a batch: every task waits again, the pending list and the done flag are gone. */
    method OpenBatch(ghost at: real)
      modifies this, store
      ensures store.View() == Apply(old(store.View()), Event(at, ResetAll))
      ensures pending == [] && !doneFlag
      ensures batch == Record(|old(store.rows)|, 0, 0, false)
    {
      store.ResetAllTasks(at);
      pending, doneFlag := [], false;
      var c := store.CountTasks();
      batch := Record(c.total, 0, 0, false);
    }

    /** One patrol: give back what got stuck, push what waits, count, and close the batch when
        nothing is left to do. */
    method Tick(now: real, ghost at: real, clock: nat -> real, ghost claimAt: real) returns (finished: bool)
      modifies this, store
      ensures
        var freed := Apply(old(store.View()), Event(at, ResetLost(now, stale)));
        && store.View() == Apply(freed, Event(claimAt, Claim(pushLimit, clock)))
        && pending == old(pending) + ClaimedRows(freed.rows, pushLimit, |freed.rows|)
      ensures finished <==> AllSettled(store.View())
      ensures
        var c := CountsOf(store.rows);
        batch == Record(c.total, c.done, c.failed, finished || old(batch.isDone))
      ensures doneFlag == (finished || old(doneFlag))
    {
      hide Apply, CountsOf, ClaimedRows;
      var lost := store.ResetLostTasks(now, stale, at);
      var claimed := store.ClaimTasks(pushLimit, clock, claimAt);
      pending := pending + claimed;
      var c := store.CountTasks();
      batch := batch.(total := c.total, done := c.done, failed := c.failed);
      CountsTotal(store.rows);
      finished := c.total == 0 || Finished(c);
      if finished {
        batch := batch.(isDone := true);
        doneFlag := true;
      }
    }
  }

  lemma CountsTotal(rows: seq<Row>)
    ensures CountsOf(rows).total == |rows|
  {
  }

  /** A claim takes as many waiting rows as there are, up to the limit, and none twice. */
  lemma {:induction false} ClaimTakesUpToTheLimit(rows: seq<Row>, limit: int, n: nat)
    requires n <= |rows|
    ensures
      var waiting := InState(rows, TODO, n);
      |ClaimedRows(rows, limit, n)| == if waiting < Max(1, limit) then waiting else Max(1, limit)
  {
    if n > 0 {
      ClaimTakesUpToTheLimit(rows, limit, n - 1);
    }
  }

  // ---------------------------------------------------------------- runs

  /** The table after the first `n` operations of master and workers. */
  function After(t: Table, es: seq<Event>, n: nat): (r: Table)
    requires n <= |es|
    ensures |r.rows| == |t.rows|
  {
    if n == 0 then t else Apply(After(t, es, n - 1), es[n - 1])
  }

  /** The clock readings of a claim that starts at `at` do not go back. */
  ghost predicate Ticking(clock: nat -> real, at: real) {
    && (forall i :: at <= clock(i))
    && (forall i, j | 0 <= i < j :: clock(i) <= clock(j))
  }

  /** Times do not decrease, the time a reset works with was read before it ran, and a claim takes
      its readings between its own start and the next operation. */
  ghost predicate Timed(es: seq<Event>) {
    && (forall i, j | 0 <= i < j < |es| :: es[i].at <= es[j].at)
    && (forall i | 0 <= i < |es| && es[i].step.Claim? :: Ticking(es[i].step.clock, es[i].at))
    && (forall i, k: nat | 0 <= i < |es| - 1 && es[i].step.Claim? :: es[i].step.clock(k) <= es[i + 1].at)
    && (forall i | 0 <= i < |es| && es[i].step.ResetLost? :: es[i].step.now <= es[i].at)
  }

  /** This step makes row `r` wait again: a full reset, or a worker that marks the task neither
      done nor failed, which `update_task` never does. */
  predicate Reopens(t: Table, e: Event, r: nat)
    requires r < |t.rows|
  {
    || e.step.ResetAll?
    || (e.step.Mark? && e.step.state != DONE && e.step.state != FAILED && FirstWith(t.rows, e.step.id, 0) == r)
  }

  ghost predicate NotReopened(t: Table, es: seq<Event>, i: nat, j: nat, r: nat)
    requires j <= |es| && r < |t.rows|
  {
    forall k | i <= k < j :: !Reopens(After(t, es, k), es[k], r)
  }

  ghost predicate NoneReopened(t: Table, es: seq<Event>, i: nat, j: nat)
    requires j <= |es|
  {
    forall r | 0 <= r < |t.rows| :: NotReopened(t, es, i, j, r)
  }

  lemma SettledStep(t: Table, e: Event, r: nat)
    requires r < |t.rows| && Settled(t.rows[r]) && !Reopens(t, e, r)
    ensures Settled(Apply(t, e).rows[r])
  {
    hide FirstWith, InState;
  }

  /** Only such a step takes a settled task back. */
  lemma {:induction false} SettledStays(t: Table, es: seq<Event>, i: nat, j: nat, r: nat)
    requires i <= j <= |es| && r < |t.rows| && NotReopened(t, es, i, j, r)
    requires Settled(After(t, es, i).rows[r])
    ensures Settled(After(t, es, j).rows[r])
    decreases j
  {
    hide Apply, Settled;
    if i < j {
      SettledStays(t, es, i, j - 1, r);
      SettledStep(After(t, es, j - 1), es[j - 1], r);
    }
  }

  /** When workers mark tasks done or failed and nothing else, as `update_task` does, a task that
      was done and waits again went through a full reset. */
  lemma DoneWaitsOnlyAfterReset(t: Table, es: seq<Event>, i: nat, j: nat, r: nat)
    requires i <= j <= |es| && r < |t.rows|
    requires After(t, es, i).rows[r].state == DONE && After(t, es, j).rows[r].state == TODO
    requires forall k | i <= k < j && es[k].step.Mark? :: es[k].step.state == DONE || es[k].step.state == FAILED
    ensures exists k :: i <= k < j && es[k].step.ResetAll?
  {
    hide Apply, After;
    if forall k | i <= k < j :: !es[k].step.ResetAll? {
      SettledStays(t, es, i, j, r);
      assert false;
    }
  }

  /** A batch that the counters call finished has every task settled, and it stays so for all
      that workers and patrols do until the next batch is opened. */
  lemma FinishedBatchIsSettled(t: Table, es: seq<Event>, i: nat, j: nat)
    requires i <= j <= |es| && NoneReopened(t, es, i, j)
    requires Finished(CountsOf(After(t, es, i).rows))
    ensures t.rows != [] && AllSettled(After(t, es, j)) && Finished(CountsOf(After(t, es, j).rows))
  {
    hide Finished, CountsOf, Apply;
    FinishedIff(After(t, es, i).rows);
    FinishedIff(After(t, es, j).rows);
    forall r | 0 <= r < |t.rows| ensures Settled(After(t, es, j).rows[r]) {
      SettledStays(t, es, i, j, r);
    }
  }

  // ---------------------------------------------------------------- claims

  /** Event `i` claims row `r`. */
  predicate ClaimsAt(t: Table, es: seq<Event>, i: nat, r: nat)
    requires i < |es| && r < |t.rows|
  {
    es[i].step.Claim? && Claims(After(t, es, i).rows, es[i].step.limit, r)
  }

  lemma {:induction false} TouchedKeeps(t: Table, limit: int, clock: nat -> real, n: nat, id: Id, since: real)
    requires n <= |t.rows| && id in t.touched && t.touched[id] >= since && forall i :: clock(i) >= since
    ensures id in TouchedBy(t, limit, clock, n) && TouchedBy(t, limit, clock, n)[id] >= since
  {
    hide Claims;
    if n > 0 {
      TouchedKeeps(t, limit, clock, n - 1, id, since);
    }
  }

  lemma {:induction false} ClaimTouches(t: Table, limit: int, clock: nat -> real, n: nat, r: nat)
    requires r < n <= |t.rows| && Claims(t.rows, limit, r) && forall i, j | 0 <= i < j :: clock(i) <= clock(j)
    ensures
      var m := TouchedBy(t, limit, clock, n);
      t.rows[r].id in m && m[t.rows[r].id] >= clock(r)
    decreases n
  {
    hide Claims;
    if r < n - 1 {
      ClaimTouches(t, limit, clock, n - 1, r);
    }
  }

  /** The row is settled, or in progress and touched since `since`. */
  predicate Busy(t: Table, r: nat, since: real)
    requires r < |t.rows|
  {
    || Settled(t.rows[r])
    || (t.rows[r].state == DOING && t.rows[r].id in t.touched && t.touched[t.rows[r].id] >= since)
  }

  lemma BusyStep(t: Table, e: Event, r: nat, since: real, stale: real)
    requires r < |t.rows| && Busy(t, r, since) && e.at >= since && !Reopens(t, e, r)
    requires e.step.ResetLost? ==> e.step.now <= e.at && e.step.stale == stale
    requires e.step.Claim? ==> Ticking(e.step.clock, e.at)
    ensures Busy(Apply(t, e), r, since) || e.at >= since + stale
  {
    hide FirstWith, InState, TouchedBy;
    if Settled(t.rows[r]) {
      SettledStep(t, e, r);
    } else if e.step.Claim? {
      TouchedKeeps(t, e.step.limit, e.step.clock, |t.rows|, t.rows[r].id, since);
    }
  }

  lemma ClaimMakesBusy(t: Table, e: Event, r: nat)
    requires r < |t.rows| && e.step.Claim? && Claims(t.rows, e.step.limit, r) && Ticking(e.step.clock, e.at)
    ensures Busy(Apply(t, e), r, e.step.clock(r))
  {
    hide InState, TouchedBy;
    ClaimTouches(t, e.step.limit, e.step.clock, |t.rows|, r);
  }

  /** No reset between the two events has another staleness limit. */
  ghost predicate OneLimit(es: seq<Event>, i: nat, j: nat, stale: real)
    requires j <= |es|
  {
    forall k | i < k < j && es[k].step.ResetLost? :: es[k].step.stale == stale
  }

  lemma {:induction false} BusyUntilStale(t: Table, es: seq<Event>, i: nat, j: nat, r: nat, stale: real)
    requires i < j <= |es| && r < |t.rows| && Timed(es) && NotReopened(t, es, i, j, r) && ClaimsAt(t, es, i, r)
    requires OneLimit(es, i, j, stale)
    ensures
      var since := es[i].step.clock(r);
      Busy(After(t, es, j), r, since) || (i < j - 1 && es[j - 1].at >= since + stale)
    decreases j
  {
    hide Apply, Busy, Claims, Ticking;
    var since := es[i].step.clock(r);
    if i == j - 1 {
      ClaimMakesBusy(After(t, es, i), es[i], r);
    } else {
      BusyUntilStale(t, es, i, j - 1, r, stale);
      assert since <= es[i + 1].at <= es[j - 1].at;
      if Busy(After(t, es, j - 1), r, since) {
        BusyStep(After(t, es, j - 1), es[j - 1], r, since, stale);
      }
    }
  }

  lemma ReadAfterStart(es: seq<Event>, j: nat, r: nat)
    requires j < |es| && Timed(es) && es[j].step.Claim?
    ensures es[j].at <= es[j].step.clock(r)
  {
  }

  /** Within a batch no task is claimed twice in less than the staleness limit. */
  lemma ClaimsAreSpaced(t: Table, es: seq<Event>, i: nat, j: nat, r: nat, stale: real)
    requires i < j < |es| && r < |t.rows| && Timed(es) && NotReopened(t, es, i, j, r) && OneLimit(es, i, j, stale)
    requires ClaimsAt(t, es, i, r) && ClaimsAt(t, es, j, r)
    ensures es[j].step.clock(r) >= es[i].step.clock(r) + stale
  {
    hide Apply, After, Ticking;
    BusyUntilStale(t, es, i, j, r, stale);
    ReadAfterStart(es, j, r);
  }

  // ---------------------------------------------------------------- what comes of a task

  /** A mark puts its state on the first row with the id, and every other row stays. */
  lemma MarkIsKept(t: Table, at: real, id: Id, state: int, r: nat)
    requires r < |t.rows|
    ensures
      var rows := Apply(t, Event(at, Mark(id, state))).rows;
      var first := t.rows[r].id == id && forall k | 0 <= k < r :: t.rows[k].id != id;
      rows[r].id == t.rows[r].id && rows[r].state == if first then state else t.rows[r].state
    ensures
      var touched := Apply(t, Event(at, Mark(id, state))).touched;
      && (t.rows[r].id == id ==> id in touched && touched[id] == at)
      && (forall x | x != id :: x in touched <==> x in t.touched)
      && (forall x | x != id && x in t.touched :: touched[x] == t.touched[x])
  {
    var k := FirstWith(t.rows, id, 0);
    assert k < |t.rows| ==> t.rows[k].id == id;
  }

  /** A task marked done is settled from then on: whatever master and workers do before it is
      reopened, it is never claimed again. */
  lemma DoneIsNeverClaimed(t: Table, es: seq<Event>, i: nat, j: nat, r: nat)
    requires i < j < |es| && r < |t.rows| && es[i].step == Mark(t.rows[r].id, DONE)
    requires forall k | 0 <= k < r :: t.rows[k].id != t.rows[r].id
    requires NotReopened(t, es, i + 1, j, r)
    ensures After(t, es, i + 1).rows[r].state == DONE && !ClaimsAt(t, es, j, r)
  {
    hide Apply;
    forall k | 0 <= k <= r ensures After(t, es, i).rows[k].id == t.rows[k].id {
      IdsStay(t, es, i, k);
    }
    MarkIsKept(After(t, es, i), es[i].at, t.rows[r].id, DONE, r);
    assert After(t, es, i + 1) == Apply(After(t, es, i), es[i]);
    SettledStays(t, es, i + 1, j, r);
  }

  lemma {:induction false} IdsStay(t: Table, es: seq<Event>, n: nat, r: nat)
    requires n <= |es| && r < |t.rows|
    ensures After(t, es, n).rows[r].id == t.rows[r].id
  {
    hide NextState, NextTouched;
    if n > 0 {
      IdsStay(t, es, n - 1, r);
    }
  }

  /** A task in progress that nobody touched for the staleness limit waits again after a reset,
      and one touched more recently does not. */
  lemma StuckTasksWaitAgain(t: Table, at: real, now: real, stale: real, r: nat)
    requires r < |t.rows| && t.rows[r].state == DOING && t.rows[r].id in t.touched
    ensures Apply(t, Event(at, ResetLost(now, stale))).rows[r].state
         == if now >= t.touched[t.rows[r].id] + stale then TODO else DOING
  {
  }

  /** A waiting task with fewer than the limit waiting before it is in progress after the next
      claim, freshly stamped, and among the rows handed on. */
  lemma WaitingTaskIsClaimed(t: Table, e: Event, r: nat)
    requires r < |t.rows| && e.step.Claim? && Ticking(e.step.clock, e.at)
    requires t.rows[r].state == TODO && InState(t.rows, TODO, r) < Max(1, e.step.limit)
    ensures
      var u := Apply(t, e);
      && u.rows[r].state == DOING
      && t.rows[r].id in u.touched && u.touched[t.rows[r].id] >= e.step.clock(r) >= e.at
      && Row(t.rows[r].id, DOING) in ClaimedRows(t.rows, e.step.limit, |t.rows|)
  {
    hide TouchedBy, InState, ClaimedRows;
    ClaimTouches(t, e.step.limit, e.step.clock, |t.rows|, r);
    ClaimedIncludes(t.rows, e.step.limit, |t.rows|, r);
  }

  lemma {:induction false} ClaimedIncludes(rows: seq<Row>, limit: int, n: nat, r: nat)
    requires r < n <= |rows| && Claims(rows, limit, r)
    ensures Row(rows[r].id, DOING) in ClaimedRows(rows, limit, n)
    decreases n
  {
    hide Claims;
    if r < n - 1 {
      ClaimedIncludes(rows, limit, n - 1, r);
    }
  }

  /** Opening a batch makes every task wait and forgets every touch. */
  lemma ResetOpensAll(t: Table, at: real)
    ensures
      var u := Apply(t, Event(at, ResetAll));
      && |u.rows| == |t.rows| && u.touched == map[]
      && forall r | 0 <= r < |t.rows| :: u.rows[r] == Row(t.rows[r].id, TODO)
  {
  }

  /** The positions of the rows in one state. */
  ghost function Positions(rows: seq<Row>, state: int, n: nat): set<int>
    requires n <= |rows|
  {
    set i | 0 <= i < n && rows[i].state == state
  }

  lemma {:induction false} InStateCounts(rows: seq<Row>, state: int, n: nat)
    requires n <= |rows|
    ensures InState(rows, state, n) == |Positions(rows, state, n)|
  {
    if n > 0 {
      InStateCounts(rows, state, n - 1);
      var i := n - 1;
      if rows[i].state == state {
        assert Positions(rows, state, n) == Positions(rows, state, i) + {i};
      } else {
        assert Positions(rows, state, n) == Positions(rows, state, i);
      }
    }
  }

  /** Each counter is the number of rows in its state. */
  lemma CountersCountRows(rows: seq<Row>)
    ensures
      var c, n := CountsOf(rows), |rows|;
      && c.total == n
      && c.todo == |Positions(rows, 0, n)| && c.doing == |Positions(rows, 2, n)|
      && c.done == |Positions(rows, 1, n)| && c.failed == |Positions(rows, -1, n)|
  {
    InStateCounts(rows, TODO, |rows|);
    InStateCounts(rows, DOING, |rows|);
    InStateCounts(rows, DONE, |rows|);
    InStateCounts(rows, FAILED, |rows|);
  }
}
