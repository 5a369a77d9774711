/** The task table of a batch: claiming, giving back what got stuck, and settling. */
module BatchStore {
  import opened Seqs

  type Id = nat

  const TODO := 0
  const DONE := 1
  const DOING := 2
  const FAILED := -1

  datatype Row = Row(id: Id, state: int)

  datatype Counts = Counts(total: nat, todo: nat, doing: nat, done: nat, failed: nat)

  function SettledCount(c: Counts): nat {
    c.done + c.failed
  }

  predicate Finished(c: Counts) {
    c.total > 0 && SettledCount(c) >= c.total
  }

  predicate Settled(r: Row) {
    r.state == DONE || r.state == FAILED
  }

  /** How many of the first `n` rows are in `state`. */
  function InState(rows: seq<Row>, state: int, n: nat): (k: nat)
    requires n <= |rows|
    ensures k <= n
  {
    if n == 0 then 0 else InState(rows, state, n - 1) + (if rows[n - 1].state == state then 1 else 0)
  }

  function CountsOf(rows: seq<Row>): Counts {
    var n := |rows|;
    Counts(n, InState(rows, TODO, n), InState(rows, DOING, n), InState(rows, DONE, n), InState(rows, FAILED, n))
  }

  // ---------------------------------------------------------------- what each operation does to a row

  datatype Table = Table(rows: seq<Row>, touched: map<Id, real>)

  /** A row in progress that nobody touched for `stale` seconds. A row without a touch time
      counts as touched right now. */
  predicate Lost(t: Table, i: nat, now: real, stale: real)
    requires i < |t.rows|
  {
    && t.rows[i].state == DOING
    && now - (if t.rows[i].id in t.touched then t.touched[t.rows[i].id] else now) >= stale
  }

  /** A row is claimed when it waits and fewer than the limit wait before it. */
  predicate Claims(rows: seq<Row>, limit: int, i: nat)
    requires i < |rows|
  {
    rows[i].state == TODO && InState(rows, TODO, i) < Max(1, limit)
  }

  /** Position of the first row with this id, or the number of rows. */
  function FirstWith(rows: seq<Row>, id: Id, i: nat): (k: nat)
    requires i <= |rows|
    ensures i <= k <= |rows|
    ensures k < |rows| ==> rows[k].id == id
    ensures forall j | i <= j < k :: rows[j].id != id
    decreases |rows| - i
  {
    if i == |rows| || rows[i].id == id then i else FirstWith(rows, id, i + 1)
  }

  datatype Step =
    | ResetAll
    | ResetLost(now: real, stale: real)
    | Claim(limit: int, clock: nat -> real)
    | Mark(id: Id, state: int)

  datatype Event = Event(at: real, step: Step)

  /** The state of row `i` afterwards. */
  function NextState(t: Table, e: Event, i: nat): int
    requires i < |t.rows|
  {
    match e.step
    case ResetAll => TODO
    case ResetLost(now, stale) => if Lost(t, i, now, stale) then TODO else t.rows[i].state
    case Claim(limit, _) => if Claims(t.rows, limit, i) then DOING else t.rows[i].state
    case Mark(id, state) => if i == FirstWith(t.rows, id, 0) then state else t.rows[i].state
  }

  function NextRows(t: Table, e: Event): (rows: seq<Row>)
    ensures |rows| == |t.rows|
    ensures forall i | 0 <= i < |rows| :: rows[i].id == t.rows[i].id && rows[i].state == NextState(t, e, i)
  {
    seq(|t.rows|, i requires 0 <= i < |t.rows| => Row(t.rows[i].id, NextState(t, e, i)))
  }

  /** The touch times after the first `n` rows were considered for a claim; the clock is read for
      each row that is claimed. */
  function TouchedBy(t: Table, limit: int, clock: nat -> real, n: nat): map<Id, real>
    requires n <= |t.rows|
  {
    if n == 0 then t.touched
    else
      var m := TouchedBy(t, limit, clock, n - 1);
      if Claims(t.rows, limit, n - 1) then m[t.rows[n - 1].id := clock(n - 1)] else m
  }

  function NextTouched(t: Table, e: Event): map<Id, real> {
    match e.step
    case ResetAll => map[]
    case ResetLost(_, _) => t.touched
    case Claim(limit, clock) => TouchedBy(t, limit, clock, |t.rows|)
    case Mark(id, _) => if FirstWith(t.rows, id, 0) < |t.rows| then t.touched[id := e.at] else t.touched
  }

  function Apply(t: Table, e: Event): Table {
    Table(NextRows(t, e), NextTouched(t, e))
  }

  /** The claimed rows, in table order, as they are handed on. */
  function ClaimedRows(rows: seq<Row>, limit: int, n: nat): (c: seq<Row>)
    requires n <= |rows|
  {
    if n == 0 then []
    else ClaimedRows(rows, limit, n - 1) + (if Claims(rows, limit, n - 1) then [Row(rows[n - 1].id, DOING)] else [])
  }

  // ---------------------------------------------------------------- the in-memory store

  class MemoryBatchStore {
    var rows: seq<Row>
    var touched: map<Id, real>

    constructor (tasks: seq<Row>)
      ensures View() == Table(tasks, map[])
    {
      rows, touched := tasks, map[];
    }

    function View(): Table
      reads this
    {
      Table(rows, touched)
    }

    method CountTasks() returns (c: Counts)
      ensures c == CountsOf(rows)
      ensures Finished(c) <==> rows != [] && forall i | 0 <= i < |rows| :: Settled(rows[i])
    {
      c := Counts(|rows|, 0, 0, 0, 0);
      for i := 0 to |rows|
        invariant c == Counts(|rows|, InState(rows, TODO, i), InState(rows, DOING, i), InState(rows, DONE, i),
            InState(rows, FAILED, i))
      {
        var s := rows[i].state;
        if s == TODO {
          c := c.(todo := c.todo + 1);
        } else if s == DOING {
          c := c.(doing := c.doing + 1);
        } else if s == DONE {
          c := c.(done := c.done + 1);
        } else if s == FAILED {
          c := c.(failed := c.failed + 1);
        }
      }
      FinishedIff(rows);
    }

    method ResetAllTasks(ghost at: real)
      modifies this
      ensures View() == Apply(old(View()), Event(at, ResetAll))
    {
      ghost var was := View();
      for i := 0 to |rows|
        invariant |rows| == |was.rows| && touched == was.touched
        invariant forall k | 0 <= k < i :: rows[k] == Row(was.rows[k].id, TODO)
        invariant forall k | i <= k < |rows| :: rows[k] == was.rows[k]
      {
        rows := rows[i := rows[i].(state := TODO)];
      }
      touched := map[];
      assert rows == NextRows(was, Event(at, ResetAll));
    }

    method ResetLostTasks(now: real, stale: real, ghost at: real) returns (reset: nat)
      modifies this`rows
      ensures View() == Apply(old(View()), Event(at, ResetLost(now, stale)))
      ensures reset == InState(rows, TODO, |rows|) - InState(old(rows), TODO, |rows|)
    {
      ghost var was, e := View(), Event(at, ResetLost(now, stale));
      reset := 0;
      for i := 0 to |rows|
        invariant |rows| == |was.rows| && touched == was.touched
        invariant forall k | 0 <= k < i :: rows[k] == NextRows(was, e)[k]
        invariant forall k | i <= k < |rows| :: rows[k] == was.rows[k]
        invariant reset == InState(NextRows(was, e), TODO, i) - InState(was.rows, TODO, i)
      {
        var id := rows[i].id;
        var since := if id in touched then touched[id] else now;
        if rows[i].state == DOING && now - since >= stale {
          rows := rows[i := rows[i].(state := TODO)];
          reset := reset + 1;
        }
      }
      assert rows == NextRows(was, e);
    }

    method ClaimTasks(limit: int, clock: nat -> real, ghost at: real) returns (claimed: seq<Row>)
      modifies this
      ensures View() == Apply(old(View()), Event(at, Claim(limit, clock)))
      ensures claimed == ClaimedRows(old(rows), limit, |old(rows)|)
    {
      hide InState, Claims, TouchedBy, ClaimedRows, NextRows;
      ghost var was, e := View(), Event(at, Claim(limit, clock));
      NothingClaimed(was, limit, clock);
      claimed := [];
      var i := 0;
      while i < |rows| && |claimed| < Max(1, limit)
        invariant i <= |rows| == |was.rows|
        invariant forall k | 0 <= k < i :: rows[k] == NextRows(was, e)[k]
        invariant forall k | i <= k < |rows| :: rows[k] == was.rows[k]
        invariant claimed == ClaimedRows(was.rows, limit, i)
        invariant touched == TouchedBy(was, limit, clock, i)
        invariant |claimed| == InState(was.rows, TODO, i) <= Max(1, limit)
      {
        ClaimTurn(was, limit, clock, i);
        if rows[i].state == TODO {
          rows := rows[i := rows[i].(state := DOING)];
          touched := touched[rows[i].id := clock(i)];
          claimed := claimed + [rows[i]];
        }
        i := i + 1;
      }
      NoMoreClaims(was, limit, clock, i, |was.rows|);
      assert rows == NextRows(was, e);
    }

    method MarkTask(id: Id, state: int, now: real)
      modifies this
      ensures View() == Apply(old(View()), Event(now, Mark(id, state)))
    {
      ghost var was, e := View(), Event(now, Mark(id, state));
      for i := 0 to |rows|
        invariant View() == was
        invariant FirstWith(rows, id, 0) == FirstWith(rows, id, i)
      {
        if rows[i].id == id {
          rows := rows[i := rows[i].(state := state)];
          touched := touched[id := now];
          assert rows == NextRows(was, e);
          return;
        }
      }
      assert rows == NextRows(was, e);
    }
  }

  lemma NothingClaimed(t: Table, limit: int, clock: nat -> real)
    ensures TouchedBy(t, limit, clock, 0) == t.touched && ClaimedRows(t.rows, limit, 0) == []
        && InState(t.rows, TODO, 0) == 0
  {
  }

  /** One turn of the claiming loop. */
  lemma ClaimTurn(t: Table, limit: int, clock: nat -> real, i: nat)
    requires i < |t.rows| && InState(t.rows, TODO, i) < Max(1, limit)
    ensures
      var row := t.rows[i];
      if row.state == TODO then
        && Claims(t.rows, limit, i)
        && TouchedBy(t, limit, clock, i + 1) == TouchedBy(t, limit, clock, i)[row.id := clock(i)]
        && ClaimedRows(t.rows, limit, i + 1) == ClaimedRows(t.rows, limit, i) + [Row(row.id, DOING)]
        && InState(t.rows, TODO, i + 1) == InState(t.rows, TODO, i) + 1
      else
        && !Claims(t.rows, limit, i)
        && TouchedBy(t, limit, clock, i + 1) == TouchedBy(t, limit, clock, i)
        && ClaimedRows(t.rows, limit, i + 1) == ClaimedRows(t.rows, limit, i)
        && InState(t.rows, TODO, i + 1) == InState(t.rows, TODO, i)
  {
  }

  /** Once the limit is reached no later row is claimed. */
  lemma {:induction false} NoMoreClaims(t: Table, limit: int, clock: nat -> real, i: nat, n: nat)
    requires i <= n <= |t.rows| && (i == |t.rows| || InState(t.rows, TODO, i) >= Max(1, limit))
    ensures TouchedBy(t, limit, clock, n) == TouchedBy(t, limit, clock, i)
    ensures ClaimedRows(t.rows, limit, n) == ClaimedRows(t.rows, limit, i)
    ensures forall k | i <= k < n :: !Claims(t.rows, limit, k)
    ensures InState(t.rows, TODO, n) >= InState(t.rows, TODO, i)
    decreases n
  {
    if i < n {
      NoMoreClaims(t, limit, clock, i, n - 1);
    }
  }

  lemma {:induction false} SettledAtMost(rows: seq<Row>, n: nat)
    requires n <= |rows|
    ensures InState(rows, DONE, n) + InState(rows, FAILED, n) <= n
    ensures InState(rows, DONE, n) + InState(rows, FAILED, n) == n <==> forall i | 0 <= i < n :: Settled(rows[i])
  {
    if n > 0 {
      SettledAtMost(rows, n - 1);
    }
  }

  /** The counters call a batch finished exactly when it has rows and all are settled. */
  lemma FinishedIff(rows: seq<Row>)
    ensures Finished(CountsOf(rows)) <==> rows != [] && forall i | 0 <= i < |rows| :: Settled(rows[i])
  {
    SettledAtMost(rows, |rows|);
  }
}
