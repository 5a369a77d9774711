/** The Redis lock that keeps one batch monitor per namespace. */
module MonitorLock {
  import opened Seqs

  datatype Lock = Free | Held(id: string, until: real)

  /** What Redis still shows of the key at `t`. */
  function Shown(k: Lock, t: real): Lock {
    if k.Held? && t < k.until then k else Free
  }

  function Ceiling(x: real): int {
    if x.Floor as real == x then x.Floor else x.Floor + 1
  }

  /** Lock lifetime: three times the patrol interval, and at least a minute. */
  function Ttl(interval: real): real {
    Max(60, Ceiling(interval * 3.0)) as real
  }

  predicate Mine(k: Lock, id: string, t: real) {
    Shown(k, t).Held? && k.id == id
  }

  /** The key itself; each method is one command or script. */
  class LockKey {
    var key: Lock

    constructor ()
      ensures key == Free
    {
      key := Free;
    }

    /** SET NX EX. */
    method Acquire(id: string, ttl: real, now: real) returns (ok: bool)
      modifies this
      ensures ok <==> Shown(old(key), now) == Free
      ensures key == if ok then Held(id, now + ttl) else old(key)
    {
      ok := Shown(key, now) == Free;
      if ok {
        key := Held(id, now + ttl);
      }
    }

    /** EXPIRE, only while the key still carries this identity. */
    method Renew(id: string, ttl: real, now: real) returns (ok: bool)
      modifies this
      ensures ok <==> Mine(old(key), id, now)
      ensures key == if ok then Held(id, now + ttl) else old(key)
    {
      var k := Shown(key, now);
      ok := k.Held? && k.id == id;
      if ok {
        key := Held(k.id, now + ttl);
      }
    }

    /** DEL, only while the key still carries this identity. */
    method Release(id: string, now: real) returns (ok: bool)
      modifies this
      ensures ok <==> Mine(old(key), id, now)
      ensures key == if ok then Free else old(key)
    {
      var k := Shown(key, now);
      ok := k.Held? && k.id == id;
      if ok {
        key := Free;
      }
    }
  }

  // ---------------------------------------------------------------- timed runs of any nodes

  type Node = nat

  /** Identity and patrol interval of every monitor. */
  datatype Config = Config(id: Node -> string, interval: Node -> real)

  datatype Op = Acquire | Renew | Release

  datatype Event = Event(at: real, node: Node, op: Op)

  /** The lock, and when each monitor that has not stopped last acquired or renewed it. */
  datatype World = World(lock: Lock, last: map<Node, real>)

  function TtlOf(c: Config, n: Node): real {
    Ttl(c.interval(n))
  }

  predicate Succeeds(c: Config, w: World, e: Event) {
    match e.op
    case Acquire => Shown(w.lock, e.at) == Free
    case _ => Mine(w.lock, c.id(e.node), e.at)
  }

  function NextLock(c: Config, w: World, e: Event): Lock {
    if !Succeeds(c, w, e) then w.lock
    else if e.op.Release? then Free
    else Held(c.id(e.node), e.at + TtlOf(c, e.node))
  }

  /** A monitor that cannot renew, or that releases, stops being one. */
  function NextLast(c: Config, w: World, e: Event): map<Node, real> {
    if e.op.Release? || (e.op.Renew? && !Succeeds(c, w, e)) then w.last - {e.node}
    else if Succeeds(c, w, e) then w.last[e.node := e.at]
    else w.last
  }

  function After(c: Config, es: seq<Event>, n: nat): World
    requires n <= |es|
  {
    if n == 0 then World(Free, map[])
    else
      var w := After(c, es, n - 1);
      World(NextLock(c, w, es[n - 1]), NextLast(c, w, es[n - 1]))
  }

  predicate SucceedsAt(c: Config, es: seq<Event>, i: nat)
    requires i < |es|
  {
    Succeeds(c, After(c, es, i), es[i])
  }

  ghost predicate Timed(es: seq<Event>) {
    forall i, j | 0 <= i < j < |es| :: es[i].at <= es[j].at
  }

  ghost predicate DistinctIds(c: Config) {
    forall n, m | c.id(n) == c.id(m) :: n == m
  }

  /** Within its lifetime since the last success. */
  predicate IsMaster(c: Config, w: World, n: Node, t: real) {
    n in w.last && t < w.last[n] + TtlOf(c, n)
  }

  /** A monitor on record either has the lock exactly as it last wrote it, or its time is over. */
  ghost predicate OnRecord(c: Config, w: World, clock: real) {
    forall n | n in w.last ::
      w.lock == Held(c.id(n), w.last[n] + TtlOf(c, n)) || w.last[n] + TtlOf(c, n) <= clock
  }

  lemma RecordStep(c: Config, w: World, clock: real, e: Event)
    requires DistinctIds(c) && OnRecord(c, w, clock) && clock <= e.at
    ensures OnRecord(c, World(NextLock(c, w, e), NextLast(c, w, e)), e.at)
  {
    hide Ttl, TtlOf;
  }

  lemma {:induction false} RecordAlways(c: Config, es: seq<Event>, n: nat, t: real)
    requires DistinctIds(c) && Timed(es) && n <= |es| && (n > 0 ==> es[n - 1].at <= t)
    ensures OnRecord(c, After(c, es, n), t)
  {
    hide Ttl, TtlOf, NextLock, NextLast;
    if n > 0 {
      var e := es[n - 1];
      RecordAlways(c, es, n - 1, e.at);
      RecordStep(c, After(c, es, n - 1), e.at, e);
    }
  }

  /** At any moment of any run at most one monitor is within its lifetime. */
  lemma AtMostOneMaster(c: Config, es: seq<Event>, t: real, n: Node, m: Node)
    requires DistinctIds(c) && Timed(es) && (es != [] ==> es[|es| - 1].at <= t)
    requires IsMaster(c, After(c, es, |es|), n, t) && IsMaster(c, After(c, es, |es|), m, t)
    ensures n == m
  {
    hide Ttl, TtlOf, After;
    RecordAlways(c, es, |es|, t);
  }

  /** Two monitors that share an identity: the second gets the expired lock of the first, and
      the first renews the lock of the second. */
  lemma SharedIdMakesTwoMasters(c: Config, n: Node, m: Node)
    requires n != m && c.id(n) == c.id(m)
    ensures
      var ttl := TtlOf(c, n);
      var es := [Event(0.0, n, Acquire), Event(ttl, m, Acquire), Event(ttl, n, Renew)];
      && Timed(es)
      && IsMaster(c, After(c, es, 3), n, ttl) && IsMaster(c, After(c, es, 3), m, ttl)
  {
    var ttl := TtlOf(c, n);
    assert ttl >= 60.0 && TtlOf(c, m) >= 60.0;
    hide TtlOf;
    var es := [Event(0.0, n, Acquire), Event(ttl, m, Acquire), Event(ttl, n, Renew)];
    assert After(c, es, 1) == World(Held(c.id(n), 0.0 + ttl), map[n := 0.0]);
    assert After(c, es, 2) == World(Held(c.id(n), ttl + TtlOf(c, m)), map[n := 0.0, m := ttl]);
    assert SucceedsAt(c, es, 2);
  }

  /** At any moment of every timed run at most one monitor is within its lifetime. */
  ghost predicate OneMaster(c: Config) {
    forall es: seq<Event>, t: real, n: Node, m: Node |
      && Timed(es) && (es != [] ==> es[|es| - 1].at <= t)
      && IsMaster(c, After(c, es, |es|), n, t) && IsMaster(c, After(c, es, |es|), m, t) :: n == m
  }

  /** The lock excludes a second master if and only if no two monitors share an identity. */
  lemma OneMasterIffDistinctIds(c: Config)
    ensures OneMaster(c) <==> DistinctIds(c)
  {
    hide After, IsMaster, TtlOf;
    if DistinctIds(c) {
      forall es: seq<Event>, t: real, n: Node, m: Node |
        && Timed(es) && (es != [] ==> es[|es| - 1].at <= t)
        && IsMaster(c, After(c, es, |es|), n, t) && IsMaster(c, After(c, es, |es|), m, t)
        ensures n == m
      {
        AtMostOneMaster(c, es, t, n, m);
      }
    } else {
      var n, m :| c.id(n) == c.id(m) && n != m;
      SharedIdMakesTwoMasters(c, n, m);
      var ttl := TtlOf(c, n);
      var es := [Event(0.0, n, Acquire), Event(ttl, m, Acquire), Event(ttl, n, Renew)];
      assert |es| == 3;
    }
  }

  // ---------------------------------------------------------------- keeping the lock

  /** Events `i` and `j` are consecutive among those of one monitor. */
  ghost predicate Consecutive(es: seq<Event>, i: nat, j: nat) {
    && i < j < |es| && es[i].node == es[j].node
    && forall k | i < k < j :: es[k].node != es[i].node
  }

  lemma {:induction false} LastStands(c: Config, es: seq<Event>, i: nat, j: nat)
    requires i < j <= |es| && (forall k | i < k < j :: es[k].node != es[i].node)
    requires SucceedsAt(c, es, i) && !es[i].op.Release?
    ensures var w := After(c, es, j); es[i].node in w.last && w.last[es[i].node] == es[i].at
    decreases j
  {
    hide Succeeds, NextLock;
    if i < j - 1 {
      LastStands(c, es, i, j - 1);
    }
  }

  /** A renewal succeeds exactly when it comes within the lifetime of the success before it,
      whatever the other monitors do meanwhile. */
  lemma RenewSucceedsIff(c: Config, es: seq<Event>, i: nat, j: nat)
    requires DistinctIds(c) && Timed(es) && Consecutive(es, i, j)
    requires SucceedsAt(c, es, i) && !es[i].op.Release? && es[j].op.Renew?
    ensures SucceedsAt(c, es, j) <==> es[j].at < es[i].at + TtlOf(c, es[i].node)
  {
    hide Ttl, TtlOf, After;
    LastStands(c, es, i, j);
    RecordAlways(c, es, j, es[j].at);
    if es[j].at >= es[i].at + TtlOf(c, es[i].node) {
      LateKeyIsGone(c, es, i, j, j);
    }
  }

  /** What the monitor wrote at `i` is never extended by anybody else. */
  lemma {:induction false} LateKeyIsGone(c: Config, es: seq<Event>, i: nat, j: nat, k: nat)
    requires DistinctIds(c) && i < k <= j < |es| && Consecutive(es, i, j)
    requires SucceedsAt(c, es, i) && !es[i].op.Release?
    ensures
      var lock := After(c, es, k).lock;
      lock.Held? && lock.id == c.id(es[i].node) ==> lock.until == es[i].at + TtlOf(c, es[i].node)
    decreases k
  {
    hide Ttl, TtlOf, NextLast;
    if i < k - 1 {
      LateKeyIsGone(c, es, i, j, k - 1);
    }
  }

  /** The lifetime is the larger of a minute and three intervals, rounded up to seconds. */
  lemma TtlIsTight(interval: real)
    ensures Ttl(interval) >= 60.0 && Ttl(interval) >= 3.0 * interval
    ensures Ttl(interval) == 60.0 || Ttl(interval) < 3.0 * interval + 1.0
  {
  }

  /** A master that stops is replaced: whoever wrote the lock last, once its lifetime is over the
      next monitor that asks for the lock gets it. */
  lemma DeadMasterIsReplaced(c: Config, es: seq<Event>, i: nat, j: nat)
    requires DistinctIds(c) && Timed(es) && i < j < |es| && es[j].op.Acquire?
    requires SucceedsAt(c, es, i) && !es[i].op.Release?
    requires forall k | i < k < j :: !SucceedsAt(c, es, k)
    ensures SucceedsAt(c, es, j) <==> es[j].at >= es[i].at + TtlOf(c, es[i].node)
  {
    hide Ttl, TtlOf;
    LockStands(c, es, i, j);
  }

  /** A released lock is free at once. */
  lemma ReleasedIsFree(c: Config, es: seq<Event>, i: nat)
    requires i + 1 < |es| && es[i].op.Release? && SucceedsAt(c, es, i) && es[i + 1].op.Acquire?
    ensures SucceedsAt(c, es, i + 1)
  {
    hide TtlOf, NextLast;
  }

  lemma {:induction false} LockStands(c: Config, es: seq<Event>, i: nat, j: nat)
    requires i < j <= |es| && SucceedsAt(c, es, i) && !es[i].op.Release?
    requires forall k | i < k < j :: !SucceedsAt(c, es, k)
    ensures After(c, es, j).lock == Held(c.id(es[i].node), es[i].at + TtlOf(c, es[i].node))
    decreases j
  {
    hide TtlOf, NextLast, Succeeds;
    if i < j - 1 {
      LockStands(c, es, i, j - 1);
      assert !SucceedsAt(c, es, j - 1);
    }
  }

  /** The patrol: a renewal, some work, a wait of one interval, and again. */
  ghost predicate Patrols(c: Config, es: seq<Event>, n: Node) {
    && (forall j: nat | j < |es| && es[j].node == n && es[j].op.Acquire? :: SucceedsAt(c, es, j))
    && forall j: nat | j < |es| && es[j].node == n && es[j].op.Renew? ::
         exists i: nat :: Consecutive(es, i, j) && !es[i].op.Release? && es[j].at - es[i].at < 3.0 * c.interval(n)
  }

  lemma TtlCoversThreeIntervals(interval: real)
    ensures 3.0 * interval <= Ttl(interval)
  {
  }

  /** A monitor that got the lock and whose work between waits takes less than two intervals
      never loses it. */
  lemma {:induction false} PatrolKeepsTheLock(c: Config, es: seq<Event>, n: Node, j: nat)
    requires DistinctIds(c) && Timed(es) && Patrols(c, es, n)
    requires j < |es| && es[j].node == n && !es[j].op.Release?
    ensures SucceedsAt(c, es, j)
    decreases j
  {
    hide Ttl, SucceedsAt;
    if es[j].op.Renew? {
      var i: nat :| Consecutive(es, i, j) && !es[i].op.Release? && es[j].at - es[i].at < 3.0 * c.interval(n);
      PatrolKeepsTheLock(c, es, n, i);
      TtlCoversThreeIntervals(c.interval(n));
      RenewSucceedsIff(c, es, i, j);
    }
  }
}
