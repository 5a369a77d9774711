/** Runs that show the hypotheses about leases to be exact: how often a node has to renew, and
    how a late acknowledgement loses a task. */
module LeaseRuns {
  import opened Seqs
  import opened TaskQueue
  import opened LeaseProtocol

  // ---------------------------------------------------------------- small facts about one member

  lemma LowestOne(z: Zset, s: set<Member>, m: Member, count: nat)
    requires s == {m} && m in z && 1 <= count
    ensures Lowest(z, s, [m], count)
  {
  }

  lemma AddOne(z: Zset, m: Member, score: real)
    ensures AddAll(z, [m], score) == z[m := score]
  {
  }

  lemma RenewNone(z: Zset, tokens: set<Member>, deadline: real)
    requires tokens == {}
    ensures Renewed(z, tokens, deadline) == z
  {
  }

  /** Taking the only member of the queue. */
  lemma TakeOnly(s: State, n: nat, m: Member, at: real, lease: real)
    requires s.clock <= at && n in s.beats && s.queue.Keys == {m}
    ensures
      var e := Event(at, Take(n, [m], 1));
      var t := Apply(s, e, lease);
      && Enabled(s, e) && t.clock == at && t.tick == s.tick + 1
      && t.queue.Keys == {} && t.inflight == s.inflight[m := at + lease]
      && t.transit == s.transit[Claim(n, m, s.tick) := at]
      && t.gets == s.gets && t.held == s.held && t.entered == s.entered && t.beats == s.beats && t.snaps == s.snaps
      && t.lastPut == s.lastPut && t.settled == s.settled
  {
    hide Enabled, Transit, AddAll, Renewed, LeasedAt, Elems, Queue;
    TakeEnabled(s, n, m, at);
    TakeTransit(s, n, m, at);
    TakeQueue(s, n, m, at);
    AddOne(s.inflight, m, at + lease);
  }

  lemma TakeQueue(s: State, n: nat, m: Member, at: real)
    requires s.queue.Keys == {m}
    ensures Queue(s, Event(at, Take(n, [m], 1))).Keys == {}
  {
    assert [m][0] in Elems([m]);
  }

  lemma TakeEnabled(s: State, n: nat, m: Member, at: real)
    requires s.clock <= at && n in s.beats && s.queue.Keys == {m}
    ensures Enabled(s, Event(at, Take(n, [m], 1)))
  {
    LowestOne(s.queue, s.queue.Keys, m, 1);
    hide Lowest, Expired;
  }

  lemma TakeTransit(s: State, n: nat, m: Member, at: real)
    ensures Transit(s, Event(at, Take(n, [m], 1))) == s.transit[Claim(n, m, s.tick) := at]
  {
  }

  // ---------------------------------------------------------------- how often to renew

  lemma ExtendOnTime(states: seq<State>, events: seq<Event>, lease: real, e: Event, n: nat, p: Pace)
      returns (states': seq<State>, events': seq<Event>)
    requires IsRun(states, events, lease) && Enabled(states[|events|], e)
    requires RenewsOnTime(states, events, n, p) && Punctual(states[|events|], e.at, n, p) && e.step != RenewFails(n)
    ensures states' == states + [Apply(states[|events|], e, lease)] && events' == events + [e]
    ensures IsRun(states', events', lease) && RenewsOnTime(states', events', n, p)
  {
    hide Enabled, Apply, Punctual;
    states', events' := Extend(states, events, lease, e);
    forall i | 0 <= i < |events'|
      ensures Punctual(states'[i], events'[i].at, n, p) && events'[i].step != RenewFails(n)
    {
      assert states'[i] == states[i];
    }
  }

  /** Node `n` took `m` at time zero, has not listed it yet, and looked at its list at `t`. */
  ghost predicate Carrying(s: State, n: nat, m: Member, t: real, lease: real) {
    && s.clock == t && n in s.beats && s.beats[n] == t && n !in s.snaps
    && s.inflight == map[m := lease] && s.transit == map[Claim(n, m, 2) := 0.0] && s.held == {}
  }

  lemma Opening(n: nat, m: Member, lease: real, p: Pace) returns (states: seq<State>, events: seq<Event>)
    requires 0.0 <= p.gap && 0.0 <= p.delay
    ensures IsRun(states, events, lease) && RenewsOnTime(states, events, n, p)
    ensures Carrying(states[|events|], n, m, 0.0, lease)
  {
    hide Transit, Inflight, Renewed, AddAll, Lowest, Expired;
    states, events := [INIT], [];
    states, events := ExtendOnTime(states, events, lease, Event(0.0, Join(n)), n, p);
    JoinPut(n, m, lease);
    states, events := ExtendOnTime(states, events, lease, Event(0.0, Put(m, 0.0)), n, p);
    TakeOnly(states[2], n, m, 0.0, lease);
    states, events := ExtendOnTime(states, events, lease, Event(0.0, Take(n, [m], 1)), n, p);
  }

  lemma JoinPut(n: nat, m: Member, lease: real)
    ensures
      var s := Apply(INIT, Event(0.0, Join(n)), lease);
      var t := Apply(s, Event(0.0, Put(m, 0.0)), lease);
      && s.clock == 0.0 && s.transit == map[] && s.beats == map[n := 0.0] && s.snaps == map[]
      && t.clock == 0.0 && t.tick == 2 && t.beats == map[n := 0.0] && t.snaps == map[]
      && t.queue == map[m := 0.0] && t.inflight == map[] && t.transit == map[]
      && t.held == {} && t.entered == {} && t.gets == map[] && t.settled == {} && t.lastPut == map[m := 1]
  {
  }

  /** A look that finds nothing listed, and the renewal after it, change no lease. */
  lemma IdleBeat(s: State, n: nat, m: Member, t: real, t': real, lease: real)
    requires Carrying(s, n, m, t, lease) && t <= t'
    ensures
      var u := Apply(s, Event(t', Snapshot(n)), lease);
      && Enabled(s, Event(t', Snapshot(n))) && Enabled(u, Event(t', Renew(n)))
      && u.transit == s.transit && n in u.beats && u.beats[n] == t'
      && Carrying(Apply(u, Event(t', Renew(n)), lease), n, m, t', lease)
  {
    assert Tokens(s.held, n) == {};
    RenewNone(s.inflight, {}, t' + lease);
    hide Renewed, Lowest, Expired;
  }

  /** Looking again every `gap` at most while the task is on its way, up to a look at `until`. */
  lemma {:induction false} BeatUntil(states: seq<State>, events: seq<Event>, lease: real, n: nat, m: Member,
                                     p: Pace, t: real, until: real, steps: nat)
      returns (states': seq<State>, events': seq<Event>)
    requires IsRun(states, events, lease) && RenewsOnTime(states, events, n, p)
    requires Carrying(states[|events|], n, m, t, lease)
    requires 0.0 < p.gap && 0.0 <= p.latency && t <= until <= p.delay && until - t <= steps as real * p.gap
    ensures IsRun(states', events', lease) && RenewsOnTime(states', events', n, p)
    ensures Carrying(states'[|events'|], n, m, until, lease)
    decreases steps
  {
    hide Enabled, Apply, RenewsOnTime, IsRun;
    states', events' := states, events;
    if t < until {
      assert steps > 0;
      var next := MinReal(t + p.gap, until);
      assert steps as real * p.gap == (steps - 1) as real * p.gap + p.gap;
      RunLength(states, events, lease);
      IdleBeat(states[|events|], n, m, t, next, lease);
      states', events' := ExtendOnTime(states, events, lease, Event(next, Snapshot(n)), n, p);
      states', events' := ExtendOnTime(states', events', lease, Event(next, Renew(n)), n, p);
      states', events' := BeatUntil(states', events', lease, n, m, p, next, until, steps - 1);
    }
  }

  lemma RunLength(states: seq<State>, events: seq<Event>, lease: real)
    requires IsRun(states, events, lease)
    ensures |states| == |events| + 1
  {
  }

  lemma ProductNonneg(a: real, b: real)
    requires 0.0 <= a && 0.0 <= b
    ensures 0.0 <= a * b
  {
  }

  lemma EnoughSteps(x: real, gap: real) returns (steps: nat)
    requires 0.0 <= x && 0.0 < gap
    ensures x <= steps as real * gap
  {
    var q := x / gap;
    assert q * gap == x;
    assert q >= 0.0;
    steps := q.Floor + 1;
    ProductNonneg(steps as real - q, gap);
    assert (steps as real - q) * gap == steps as real * gap - q * gap;
  }

  /** Node `n` has listed the task, its lease still that of the take, and looked at `t`. */
  ghost predicate Listed(s: State, n: nat, m: Member, t: real, lease: real) {
    && s.clock == t && n in s.beats && s.beats[n] == t
    && s.inflight == map[m := lease] && s.transit == map[] && Claim(n, m, 2) in s.held
  }

  lemma EnterCarried(s: State, n: nat, m: Member, t: real, lease: real)
    requires Carrying(s, n, m, t, lease)
    ensures
      var e := Event(t, Enter(Claim(n, m, 2)));
      Enabled(s, e) && Listed(Apply(s, e, lease), n, m, t, lease) && n !in Apply(s, e, lease).snaps
  {
    hide Lowest, Expired, AddAll, Renewed;
  }

  lemma LookListed(s: State, n: nat, m: Member, t: real, t': real, lease: real)
    requires Listed(s, n, m, t, lease) && n !in s.snaps && t <= t'
    ensures Enabled(s, Event(t', Snapshot(n))) && Listed(Apply(s, Event(t', Snapshot(n)), lease), n, m, t', lease)
  {
    hide Lowest, Expired, AddAll, Renewed, Tokens;
  }

  lemma ReclaimEnabled(s: State, m: Member, lease: real)
    requires s.inflight == map[m := lease] && s.clock <= lease
    ensures Enabled(s, Event(lease, Reclaim([m], 1)))
  {
    assert Expired(s.inflight, lease) == {m};
    LowestOne(s.inflight, Expired(s.inflight, lease), m, 1);
    hide Lowest, Expired;
  }

  /** In no run does a node that keeps the pace have a task taken away. */
  ghost predicate KeepsItsTasks(lease: real, n: nat, p: Pace) {
    forall states, events, c: Claim, i: nat |
      IsRun(states, events, lease) && RenewsOnTime(states, events, n, p) && c.node == n ::
      !TakenAway(states, events, c, i)
  }

  /** The task has been taken, and listed if there was time before its lease ran out. */
  lemma TakenAndListed(lease: real, n: nat, m: Member, p: Pace) returns (states: seq<State>, events: seq<Event>)
    requires 0.0 < lease && 0.0 < p.gap && 0.0 <= p.delay && 0.0 <= p.latency
    ensures IsRun(states, events, lease) && RenewsOnTime(states, events, n, p)
    ensures
      var s := states[|events|];
      if p.delay < lease then Listed(s, n, m, p.delay, lease) && n !in s.snaps else Carrying(s, n, m, lease, lease)
  {
    hide Enabled, Apply, RenewsOnTime;
    var last := MinReal(p.delay, lease);
    states, events := Opening(n, m, lease, p);
    var steps := EnoughSteps(last, p.gap);
    states, events := BeatUntil(states, events, lease, n, m, p, 0.0, last, steps);
    if p.delay < lease {
      EnterCarried(states[|events|], n, m, last, lease);
      states, events := ExtendOnTime(states, events, lease, Event(last, Enter(Claim(n, m, 2))), n, p);
    }
  }

  lemma LateRenewalLosesTheTask(lease: real, n: nat, p: Pace)
      returns (states: seq<State>, events: seq<Event>, i: nat)
    requires 0.0 < lease <= Span(p) && 0.0 < p.gap && 0.0 <= p.delay && 0.0 <= p.latency
    ensures IsRun(states, events, lease) && RenewsOnTime(states, events, n, p)
    ensures TakenAway(states, events, Claim(n, "task", 2), i)
  {
    hide Enabled, Apply, RenewsOnTime;
    var m := "task";
    states, events := TakenAndListed(lease, n, m, p);
    if p.delay < lease && p.delay + p.gap < lease {
      LookListed(states[|events|], n, m, p.delay, p.delay + p.gap, lease);
      states, events := ExtendOnTime(states, events, lease, Event(p.delay + p.gap, Snapshot(n)), n, p);
    }
    i := |events|;
    ReclaimEnabled(states[i], m, lease);
    states, events := ExtendOnTime(states, events, lease, Event(lease, Reclaim([m], 1)), n, p);
  }

  /** A node that keeps the pace keeps its tasks in every run if and only if the gap between two
      looks, the hand-over time and the renewal latency together stay below the lease. (A latency
      above the gap cannot show: the next look waits for the renewal.) */
  lemma KeepsItsTasksIff(lease: real, n: nat, p: Pace)
    requires 0.0 < lease && 0.0 < p.gap && 0.0 <= p.delay && 0.0 <= p.latency
    ensures KeepsItsTasks(lease, n, p) <==> Span(p) < lease
  {
    hide Enabled, Apply, RenewsOnTime, TakenAway;
    if Span(p) < lease {
      forall states, events, c: Claim, i: nat |
        IsRun(states, events, lease) && RenewsOnTime(states, events, n, p) && c.node == n
        ensures !TakenAway(states, events, c, i)
      {
        RenewingNodeKeepsItsTasks(states, events, lease, p, c, i);
      }
    } else {
      var states, events, i := LateRenewalLosesTheTask(lease, n, p);
      assert TakenAway(states, events, Claim(n, "task", 2), i);
    }
  }

  // ---------------------------------------------------------------- how a task is lost

  /** Everything that matters of a state at time zero, without scores and times. */
  datatype Sketch = Sketch(tick: nat, queue: set<Member>, inflight: set<Member>, transit: set<Claim>, held: set<Claim>,
                           entered: set<Claim>, nodes: set<nat>, lastPut: map<Member, nat>, settled: set<Member>)

  ghost predicate Looks(s: State, k: Sketch) {
    && s.clock == 0.0 && s.gets == map[] && s.tick == k.tick && s.queue.Keys == k.queue && s.inflight.Keys == k.inflight
    && s.transit.Keys == k.transit && s.held == k.held && s.entered == k.entered && s.beats.Keys == k.nodes
    && s.lastPut == k.lastPut && s.settled == k.settled
  }

  lemma LooksJoin(s: State, k: Sketch, n: nat, lease: real)
    requires Looks(s, k) && n !in k.nodes
    ensures Enabled(s, Event(0.0, Join(n)))
    ensures Looks(Apply(s, Event(0.0, Join(n)), lease), k.(tick := k.tick + 1, nodes := k.nodes + {n}))
  {
  }

  lemma LooksPut(s: State, k: Sketch, m: Member, lease: real)
    requires Looks(s, k)
    ensures Enabled(s, Event(0.0, Put(m, 0.0)))
    ensures Looks(Apply(s, Event(0.0, Put(m, 0.0)), lease),
                  k.(tick := k.tick + 1, queue := k.queue + {m}, lastPut := k.lastPut[m := k.tick],
                      settled := k.settled - {m}))
  {
  }

  lemma LooksTake(s: State, k: Sketch, n: nat, m: Member, lease: real)
    requires Looks(s, k) && n in k.nodes && k.queue == {m}
    ensures Enabled(s, Event(0.0, Take(n, [m], 1)))
    ensures Looks(Apply(s, Event(0.0, Take(n, [m], 1)), lease),
                  k.(tick := k.tick + 1, queue := {}, inflight := k.inflight + {m},
                     transit := k.transit + {Claim(n, m, k.tick)}))
  {
    hide Enabled, Apply;
    TakeOnly(s, n, m, 0.0, lease);
  }

  lemma LooksEnter(s: State, k: Sketch, c: Claim, lease: real)
    requires Looks(s, k) && c in k.transit
    ensures Enabled(s, Event(0.0, Enter(c)))
    ensures Looks(Apply(s, Event(0.0, Enter(c)), lease),
                  k.(tick := k.tick + 1, transit := k.transit - {c}, held := k.held + {c}, entered := k.entered + {c}))
  {
  }

  lemma LooksRelease(s: State, k: Sketch, c: Claim, lease: real)
    requires Looks(s, k) && c in k.held
    ensures Enabled(s, Event(0.0, Release(c)))
    ensures Looks(Apply(s, Event(0.0, Release(c)), lease), k.(tick := k.tick + 1, held := k.held - {c}))
  {
  }

  lemma LooksAck(s: State, k: Sketch, c: Claim, lease: real)
    requires Looks(s, k) && c in k.entered && c !in k.held && c.member in k.lastPut
    ensures Enabled(s, Event(0.0, Ack(c)))
    ensures Looks(Apply(s, Event(0.0, Ack(c)), lease),
                  k.(tick := k.tick + 1, inflight := k.inflight - {c.member},
                     settled := if k.lastPut[c.member] < c.take then k.settled + {c.member} else k.settled))
  {
  }

  /** Node 1 has taken `m`, listed it, and acknowledged it once. */
  lemma AckedOnce(m: Member, lease: real) returns (states: seq<State>, events: seq<Event>)
    ensures IsRun(states, events, lease)
    ensures Looks(states[|events|], Sketch(6, {}, {}, {}, {}, {Claim(1, m, 2)}, {1}, map[m := 1], {m}))
  {
    hide Enabled, Apply;
    var c := Claim(1, m, 2);
    states, events := [INIT], [];
    LooksJoin(INIT, Sketch(0, {}, {}, {}, {}, {}, {}, map[], {}), 1, lease);
    states, events := Extend(states, events, lease, Event(0.0, Join(1)));
    LooksPut(states[|events|], Sketch(1, {}, {}, {}, {}, {}, {1}, map[], {}), m, lease);
    states, events := Extend(states, events, lease, Event(0.0, Put(m, 0.0)));
    LooksTake(states[|events|], Sketch(2, {m}, {}, {}, {}, {}, {1}, map[m := 1], {}), 1, m, lease);
    states, events := Extend(states, events, lease, Event(0.0, Take(1, [m], 1)));
    LooksEnter(states[|events|], Sketch(3, {}, {m}, {c}, {}, {}, {1}, map[m := 1], {}), c, lease);
    states, events := Extend(states, events, lease, Event(0.0, Enter(c)));
    LooksRelease(states[|events|], Sketch(4, {}, {m}, {}, {c}, {c}, {1}, map[m := 1], {}), c, lease);
    states, events := Extend(states, events, lease, Event(0.0, Release(c)));
    LooksAck(states[|events|], Sketch(5, {}, {m}, {}, {}, {c}, {1}, map[m := 1], {}), c, lease);
    states, events := Extend(states, events, lease, Event(0.0, Ack(c)));
  }

  /** The same request acknowledged again after its member was put and taken once more: the
      second acknowledgement removes the other node's lease, and the member is recorded nowhere. */
  lemma SecondAckLosesTheTask(m: Member, lease: real) returns (states: seq<State>, events: seq<Event>)
    ensures IsRun(states, events, lease)
    ensures var s := states[|events|]; m in s.lastPut && !Somewhere(s, m) && Claim(2, m, 8) in s.transit
  {
    hide Enabled, Apply;
    var c := Claim(1, m, 2);
    states, events := AckedOnce(m, lease);
    LooksPut(states[|events|], Sketch(6, {}, {}, {}, {}, {c}, {1}, map[m := 1], {m}), m, lease);
    states, events := Extend(states, events, lease, Event(0.0, Put(m, 0.0)));
    LooksJoin(states[|events|], Sketch(7, {m}, {}, {}, {}, {c}, {1}, map[m := 6], {}), 2, lease);
    states, events := Extend(states, events, lease, Event(0.0, Join(2)));
    LooksTake(states[|events|], Sketch(8, {m}, {}, {}, {}, {c}, {1, 2}, map[m := 6], {}), 2, m, lease);
    states, events := Extend(states, events, lease, Event(0.0, Take(2, [m], 1)));
    LooksAck(states[|events|], Sketch(9, {}, {m}, {Claim(2, m, 8)}, {}, {c}, {1, 2}, map[m := 6], {}), c, lease);
    states, events := Extend(states, events, lease, Event(0.0, Ack(c)));
  }
}
