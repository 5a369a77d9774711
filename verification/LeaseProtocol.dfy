/** Any number of nodes interleave the queue's atomic steps, renew their leases and crash.
    The module follows whole runs: exactly when a task is lost, exactly when it is in two
    places, and exactly how often a node must renew to keep what it has. */
module LeaseProtocol {
  import opened Seqs
  import opened TaskQueue

  /** One delivery of a member to a node, numbered by the moment it left the queue. */
  datatype Claim = Claim(node: nat, member: Member, take: nat)

  /** A member in the hands of a blocking pop, and when it left the queue. */
  datatype Popped = Popped(member: Member, take: nat)

  /** `gets` are blocking pops that have popped and not yet recorded a lease; `transit` are
      deliveries taken from Redis but not yet visible in `held_requests`, with the time of the
      take; `held` is what `held_requests` lists; `entered` are the deliveries ever listed
      there by a node that still lives; `beats` maps each live node to its last look at the list,
      and `snaps` holds what that look saw until the renewal script has run.
      History: `tick` counts the steps, `lastPut` says when a member was last put, `settled`
      are members acknowledged by a delivery that left the queue after that put, and
      `leasedAt` is when a lease was last written. */
  datatype State = State(clock: real, tick: nat, queue: Zset, inflight: Zset, gets: map<nat, Popped>,
                         transit: map<Claim, real>, held: set<Claim>, entered: set<Claim>,
                         beats: map<nat, real>, snaps: map<nat, set<Member>>,
                         lastPut: map<Member, nat>, settled: set<Member>, leasedAt: map<Member, real>)

  const INIT := State(0.0, 0, map[], map[], map[], map[], {}, {}, map[], map[], map[], {}, map[])

  /** Renewing is two steps: the heartbeat looks at the list, then the script moves the deadlines
      of what it saw, or fails. Acknowledging is two steps, as in `Collector.done`: the delivery
      leaves the list, then the token leaves Redis. The second may come again, and its failure is
      no step at all. */
  datatype Step =
    | Join(node: nat)
    | Put(member: Member, score: real)
    | Take(node: nat, out: seq<Member>, count: nat)
    | BzPop(get: nat, member: Member)
    | BzRecord(get: nat, node: nat)
    | Enter(claim: Claim)
    | Snapshot(node: nat)
    | Renew(node: nat)
    | RenewFails(node: nat)
    | Reclaim(out: seq<Member>, limit: nat)
    | Release(claim: Claim)
    | Ack(claim: Claim)
    | Crash(node: nat)

  datatype Event = Event(at: real, step: Step)

  ghost predicate Enabled(s: State, e: Event) {
    && s.clock <= e.at
    && match e.step {
         case Join(n) => n !in s.beats
         case Put(_, _) => true
         case Take(n, out, count) => n in s.beats && Lowest(s.queue, s.queue.Keys, out, count)
         case BzPop(get, m) => get !in s.gets && Lowest(s.queue, s.queue.Keys, [m], 1)
         case BzRecord(get, n) => get in s.gets && n in s.beats
         case Enter(c) => c in s.transit
         case Snapshot(n) => n in s.beats && n !in s.snaps
         case Renew(n) => n in s.snaps
         case RenewFails(n) => n in s.snaps
         case Reclaim(out, limit) => Lowest(s.inflight, Expired(s.inflight, e.at), out, limit)
         case Release(c) => c in s.held
         case Ack(c) => c in s.entered && c !in s.held
         case Crash(n) => n in s.beats
       }
  }

  function Tokens(held: set<Claim>, n: nat): set<Member> {
    set c | c in held && c.node == n :: c.member
  }

  /** The delivery left the queue after the member was last put. */
  predicate Fresh(s: State, c: Claim) {
    c.member in s.lastPut && s.lastPut[c.member] < c.take
  }

  // What each step does, component by component.

  function Queue(s: State, e: Event): Zset {
    match e.step
    case Put(m, score) => s.queue[m := score]
    case Take(_, out, _) => s.queue - Elems(out)
    case BzPop(_, m) => s.queue - {m}
    case Reclaim(out, _) => AddAll(s.queue, out, 0.0)
    case _ => s.queue
  }

  /** The score is the time of the write plus the lease. */
  function Inflight(s: State, e: Event, lease: real): Zset {
    match e.step
    case Take(_, out, _) => AddAll(s.inflight, out, e.at + lease)
    case BzRecord(get, _) => if get in s.gets then s.inflight[s.gets[get].member := e.at + lease] else s.inflight
    case Renew(n) => if n in s.snaps then Renewed(s.inflight, s.snaps[n], e.at + lease) else s.inflight
    case Reclaim(out, _) => s.inflight - Elems(out)
    case Ack(c) => s.inflight - {c.member}
    case _ => s.inflight
  }

  function LeasedAt(s: State, e: Event): map<Member, real> {
    match e.step
    case Take(_, out, _) => AddAll(s.leasedAt, out, e.at)
    case BzRecord(get, _) => if get in s.gets then s.leasedAt[s.gets[get].member := e.at] else s.leasedAt
    case Renew(n) => if n in s.snaps then Renewed(s.leasedAt, s.snaps[n], e.at) else s.leasedAt
    case _ => s.leasedAt
  }

  function Gets(s: State, e: Event): map<nat, Popped> {
    match e.step
    case BzPop(get, m) => s.gets[get := Popped(m, s.tick)]
    case BzRecord(get, _) => s.gets - {get}
    case _ => s.gets
  }

  function ClaimOf(p: Popped, n: nat): Claim {
    Claim(n, p.member, p.take)
  }

  function Transit(s: State, e: Event): map<Claim, real> {
    match e.step
    case Take(n, out, _) => s.transit + (map m | m in out :: Claim(n, m, s.tick) := e.at)
    case BzRecord(get, n) => if get in s.gets then s.transit[ClaimOf(s.gets[get], n) := e.at] else s.transit
    case Enter(c) => s.transit - {c}
    case Crash(n) => s.transit - (set c | c in s.transit && c.node == n)
    case _ => s.transit
  }

  function Held(s: State, e: Event): set<Claim> {
    match e.step
    case Enter(c) => s.held + {c}
    case Release(c) => s.held - {c}
    case Crash(n) => set c | c in s.held && c.node != n
    case _ => s.held
  }

  function Entered(s: State, e: Event): set<Claim> {
    match e.step
    case Enter(c) => s.entered + {c}
    case Crash(n) => set c | c in s.entered && c.node != n
    case _ => s.entered
  }

  function Beats(s: State, e: Event): map<nat, real> {
    match e.step
    case Join(n) => s.beats[n := e.at]
    case Snapshot(n) => s.beats[n := e.at]
    case Crash(n) => s.beats - {n}
    case _ => s.beats
  }

  function Snaps(s: State, e: Event): map<nat, set<Member>> {
    match e.step
    case Snapshot(n) => s.snaps[n := Tokens(s.held, n)]
    case Renew(n) => s.snaps - {n}
    case RenewFails(n) => s.snaps - {n}
    case Crash(n) => s.snaps - {n}
    case _ => s.snaps
  }

  function LastPut(s: State, e: Event): map<Member, nat> {
    if e.step.Put? then s.lastPut[e.step.member := s.tick] else s.lastPut
  }

  function Settled(s: State, e: Event): set<Member> {
    match e.step
    case Put(m, _) => s.settled - {m}
    case Ack(c) => if Fresh(s, c) then s.settled + {c.member} else s.settled
    case _ => s.settled
  }

  function Apply(s: State, e: Event, lease: real): State {
    State(e.at, s.tick + 1, Queue(s, e), Inflight(s, e, lease), Gets(s, e), Transit(s, e), Held(s, e), Entered(s, e),
          Beats(s, e), Snaps(s, e), LastPut(s, e), Settled(s, e), LeasedAt(s, e))
  }

  ghost predicate IsRun(states: seq<State>, events: seq<Event>, lease: real) {
    && |states| == |events| + 1 && states[0] == INIT
    && (forall i | 0 <= i < |events| ::
          Enabled(states[i], events[i]) && states[i + 1] == Apply(states[i], events[i], lease))
  }

  /** A run goes on with any enabled step. */
  lemma Extend(states: seq<State>, events: seq<Event>, lease: real, e: Event)
        returns (states': seq<State>, events': seq<Event>)
    requires IsRun(states, events, lease) && Enabled(states[|events|], e)
    ensures states' == states + [Apply(states[|events|], e, lease)] && events' == events + [e]
    ensures IsRun(states', events', lease)
  {
    hide Enabled, Apply;
    states', events' := states + [Apply(states[|events|], e, lease)], events + [e];
    forall i | 0 <= i < |events'|
      ensures Enabled(states'[i], events'[i]) && states'[i + 1] == Apply(states'[i], events'[i], lease)
    {
      assert states'[i] == states[i];
      if i < |events| {
        assert states'[i + 1] == states[i + 1];
      }
    }
  }

  // ---------------------------------------------------------------- no task is lost

  ghost predicate InGet(s: State, m: Member) {
    exists g :: g in s.gets && s.gets[g].member == m
  }

  /** The member is queued, leased, acknowledged since its last put, or in the hands of a
      blocking pop that has not recorded its lease. */
  ghost predicate Somewhere(s: State, m: Member) {
    m in s.queue || m in s.inflight || m in s.settled || InGet(s, m)
  }

  /** An acknowledgement by a delivery older than the last put of its member, at a moment when
      the member is nowhere but in flight: it removes the lease of another delivery. */
  ghost predicate Harmful(s: State, e: Event, m: Member) {
    && e.step.Ack? && e.step.claim.member == m && m in s.lastPut && !Fresh(s, e.step.claim)
    && m !in s.queue && m !in s.settled && !InGet(s, m)
  }

  lemma SomewhereStep(s: State, e: Event, lease: real, m: Member)
    requires Enabled(s, e) && (m in s.lastPut ==> Somewhere(s, m)) && !Harmful(s, e, m)
    ensures m in Apply(s, e, lease).lastPut ==> Somewhere(Apply(s, e, lease), m)
  {
    hide AddAll, Renewed, Tokens, InGet, Gets, Transit, Held, Entered, Beats, Snaps, LeasedAt;
    if InGet(s, m) {
      InGetStep(s, e, lease, m);
    }
    if e.step.BzPop? && e.step.member == m {
      PoppedIsInGet(s, e, lease);
    }
    assert e.step.BzRecord? ==> e.step.get in s.gets;
    hide Enabled;
  }

  lemma InGetStep(s: State, e: Event, lease: real, m: Member)
    requires InGet(s, m)
    requires Enabled(s, e)
    ensures InGet(Apply(s, e, lease), m) || (e.step.BzRecord? && s.gets[e.step.get].member == m)
  {
    hide Lowest, Expired, Queue, Inflight, Transit, Held, Entered, Beats, Snaps, LeasedAt, Settled;
    var g :| g in s.gets && s.gets[g].member == m;
    if !(e.step.BzRecord? && e.step.get == g) && !(e.step.BzPop? && e.step.get == g) {
      assert Gets(s, e)[g].member == m;
    }
  }

  lemma PoppedIsInGet(s: State, e: Event, lease: real)
    requires e.step.BzPop?
    ensures InGet(Apply(s, e, lease), e.step.member)
  {
    assert Apply(s, e, lease).gets[e.step.get].member == e.step.member;
  }

  ghost predicate NoHarm(states: seq<State>, events: seq<Event>, m: Member)
    requires |states| == |events| + 1
  {
    forall i | 0 <= i < |events| :: !Harmful(states[i], events[i], m)
  }

  lemma {:induction false} NoHarmNoLoss(states: seq<State>, events: seq<Event>, lease: real, i: nat, m: Member)
    requires IsRun(states, events, lease) && NoHarm(states, events, m) && i < |states| && m in states[i].lastPut
    ensures Somewhere(states[i], m)
  {
    hide Enabled, Apply, Harmful, Somewhere;
    if i > 0 {
      var s, e := states[i - 1], events[i - 1];
      if m in s.lastPut {
        NoHarmNoLoss(states, events, lease, i - 1, m);
      }
      SomewhereStep(s, e, lease, m);
    }
  }

  lemma HarmLoses(s: State, e: Event, lease: real, m: Member)
    requires Harmful(s, e, m)
    ensures m in Apply(s, e, lease).lastPut && !Somewhere(Apply(s, e, lease), m)
  {
  }

  /** In every interleaving, with crashes anywhere, a member ever put is recorded at every
      moment if and only if no harmful acknowledgement happens. */
  lemma NeverLostIff(states: seq<State>, events: seq<Event>, lease: real, m: Member)
    requires IsRun(states, events, lease)
    ensures (forall i | 0 <= i < |states| && m in states[i].lastPut :: Somewhere(states[i], m))
        <==> NoHarm(states, events, m)
  {
    hide Enabled, Apply, Harmful, Somewhere;
    if NoHarm(states, events, m) {
      forall i | 0 <= i < |states| && m in states[i].lastPut ensures Somewhere(states[i], m) {
        NoHarmNoLoss(states, events, lease, i, m);
      }
    } else {
      var i :| 0 <= i < |events| && Harmful(states[i], events[i], m);
      HarmLoses(states[i], events[i], lease, m);
      assert m in states[i + 1].lastPut && !Somewhere(states[i + 1], m);
    }
  }

  /** No put of `m` falls between a delivery of `m` and an acknowledgement by that delivery. */
  ghost predicate NoStaleAck(states: seq<State>, events: seq<Event>, m: Member)
    requires |states| == |events| + 1
  {
    forall i | 0 <= i < |events| && events[i].step.Ack? && events[i].step.claim.member == m ::
      Fresh(states[i], events[i].step.claim)
  }

  /** If so, the member is never lost, however often deliveries acknowledge. */
  lemma NeverLost(states: seq<State>, events: seq<Event>, lease: real, i: nat, m: Member)
    requires IsRun(states, events, lease) && NoStaleAck(states, events, m) && i < |states| && m in states[i].lastPut
    ensures Somewhere(states[i], m)
  {
    hide Enabled, Apply, Somewhere, InGet;
    NoHarmNoLoss(states, events, lease, i, m);
  }

  /** `m` is put for the first time at most: no put finds it put before. */
  ghost predicate PutOnce(states: seq<State>, events: seq<Event>, m: Member)
    requires |states| == |events| + 1
  {
    forall i | 0 <= i < |events| && events[i].step.Put? && events[i].step.member == m :: m !in states[i].lastPut
  }

  /** Whatever is known of `m` came after its put. */
  ghost predicate After(s: State, m: Member) {
    && (m in s.lastPut ==> s.lastPut[m] < s.tick)
    && (m in s.queue || m in s.inflight ==> m in s.lastPut)
    && (forall g | g in s.gets && s.gets[g].member == m :: m in s.lastPut && s.lastPut[m] < s.gets[g].take)
    && (forall c | (c in s.transit || c in s.entered) && c.member == m :: Fresh(s, c))
  }

  lemma AfterStep(s: State, e: Event, lease: real, m: Member)
    requires Enabled(s, e) && After(s, m) && (e.step.Put? && e.step.member == m ==> m !in s.lastPut)
    ensures After(Apply(s, e, lease), m)
  {
    var t := Apply(s, e, lease);
    AfterSets(s, e, lease, m);
    AfterGets(s, e, m);
    hide Enabled, Queue, Inflight, Held, Beats, LeasedAt, Settled, Gets, Transit, Entered;
    forall c | (c in t.transit || c in t.entered) && c.member == m ensures Fresh(t, c) {
      ClaimAt(s, e, c);
    }
  }

  lemma AfterGets(s: State, e: Event, m: Member)
    requires Enabled(s, e) && After(s, m) && (e.step.Put? && e.step.member == m ==> m !in s.lastPut)
    ensures
      var r, p := Gets(s, e), LastPut(s, e);
      forall g | g in r && r[g].member == m :: m in p && p[m] < r[g].take
  {
    hide Expired, Fresh;
    assert e.step.BzPop? ==> [e.step.member][0] in s.queue;
  }

  lemma AfterSets(s: State, e: Event, lease: real, m: Member)
    requires Enabled(s, e) && After(s, m)
    ensures m in Queue(s, e) || m in Inflight(s, e, lease) ==> m in LastPut(s, e)
    ensures e.step.Take? && m in e.step.out ==> m in s.lastPut
  {
    hide AddAll, Renewed, Tokens, Transit, Held, Entered, Beats, Snaps, LeasedAt, Settled, Gets;
  }

  /** A delivery known after a step was known before or is made by it. */
  lemma ClaimAt(s: State, e: Event, c: Claim)
    requires Enabled(s, e) && (c in Transit(s, e) || c in Entered(s, e))
    ensures
      || c in s.transit || c in s.entered
      || (e.step.Take? && c.take == s.tick && c.member in e.step.out)
      || (e.step.BzRecord? && e.step.get in s.gets && c.member == s.gets[e.step.get].member
          && c.take == s.gets[e.step.get].take)
  {
    hide Lowest, Expired;
  }

  lemma {:induction false} PutOnceAfter(states: seq<State>, events: seq<Event>, lease: real, i: nat, m: Member)
    requires IsRun(states, events, lease) && PutOnce(states, events, m) && i < |states|
    ensures After(states[i], m)
  {
    hide Enabled, Apply;
    if i > 0 {
      PutOnceAfter(states, events, lease, i - 1, m);
      AfterStep(states[i - 1], events[i - 1], lease, m);
    }
  }

  /** A member put only once is never lost. */
  lemma PutOnceNeverLost(states: seq<State>, events: seq<Event>, lease: real, i: nat, m: Member)
    requires IsRun(states, events, lease) && PutOnce(states, events, m) && i < |states| && m in states[i].lastPut
    ensures Somewhere(states[i], m)
  {
    hide Apply, Somewhere;
    forall k | 0 <= k < |events| && events[k].step.Ack? && events[k].step.claim.member == m
      ensures Fresh(states[k], events[k].step.claim)
    {
      PutOnceAfter(states, events, lease, k, m);
      assert Enabled(states[k], events[k]);
    }
    NeverLost(states, events, lease, i, m);
  }

  // ---------------------------------------------------------------- no task in two places

  ghost predicate OneGet(s: State, m: Member) {
    forall g, h | g in s.gets && h in s.gets && s.gets[g].member == m && s.gets[h].member == m :: g == h
  }

  /** At most one of: queued, leased, in the hands of a blocking pop. */
  ghost predicate Once(s: State, m: Member) {
    && (m in s.queue ==> m !in s.inflight && !InGet(s, m))
    && (m in s.inflight ==> !InGet(s, m))
    && OneGet(s, m)
  }

  /** A put of a member that is in flight or in the hands of a blocking pop. */
  ghost predicate Doubling(s: State, e: Event, m: Member) {
    e.step.Put? && e.step.member == m && (m in s.inflight || InGet(s, m))
  }

  /** How the blocking pops of `m` change: only a pop of `m` starts one. */
  lemma GetsStep(s: State, e: Event, lease: real, m: Member)
    requires Enabled(s, e) && OneGet(s, m)
    requires e.step.BzPop? && e.step.member == m ==> !InGet(s, m)
    ensures var t := Apply(s, e, lease);
            && OneGet(t, m)
            && (InGet(t, m) ==> InGet(s, m) || (e.step.BzPop? && e.step.member == m))
            && (e.step.BzRecord? && s.gets[e.step.get].member == m ==> InGet(s, m) && !InGet(t, m))
  {
    hide Lowest, Expired, Queue, Inflight, Transit, Held, Entered, Beats, Snaps, LeasedAt, Settled;
    var t := Apply(s, e, lease);
    if InGet(t, m) && !(e.step.BzPop? && e.step.member == m) {
      var g :| g in t.gets && t.gets[g].member == m;
      assert g in s.gets && s.gets[g].member == m;
    }
    if e.step.BzRecord? && s.gets[e.step.get].member == m {
      assert InGet(s, m);
    }
  }

  lemma OnceStep(s: State, e: Event, lease: real, m: Member)
    requires Enabled(s, e) && Once(s, m) && !Doubling(s, e, m)
    ensures Once(Apply(s, e, lease), m)
  {
    assert e.step.BzPop? ==> [e.step.member][0] in s.queue;
    assert e.step.BzRecord? ==> e.step.get in s.gets;
    assert e.step.Take? ==> forall k | k in e.step.out :: k in s.queue;
    assert e.step.Reclaim? ==> forall k | k in e.step.out :: k in s.inflight;
    GetsStep(s, e, lease, m);
    hide AddAll, Renewed, Tokens, InGet, OneGet, Gets, Transit, Held, Entered, Beats, Snaps, LeasedAt, Settled, Enabled;
  }

  /** Putting a member that is in flight or being popped leaves it in two places. */
  lemma DoublingIsInTwoPlaces(s: State, e: Event, lease: real, m: Member)
    requires Doubling(s, e, m)
    ensures !Once(Apply(s, e, lease), m)
  {
    var t := Apply(s, e, lease);
    assert t.gets == s.gets && m in t.queue;
    if InGet(s, m) {
      var g :| g in s.gets && s.gets[g].member == m;
      assert t.gets[g].member == m;
    }
  }

  lemma {:induction false} NoDoublingOnce(states: seq<State>, events: seq<Event>, lease: real, i: nat, m: Member)
    requires IsRun(states, events, lease) && i < |states|
    requires forall k | 0 <= k < |events| :: !Doubling(states[k], events[k], m)
    ensures Once(states[i], m)
  {
    hide Enabled, Apply, Doubling;
    if i > 0 {
      NoDoublingOnce(states, events, lease, i - 1, m);
      OnceStep(states[i - 1], events[i - 1], lease, m);
    }
  }

  /** In every run queue, in-flight set and blocking pops are disjoint on `m` at every moment if
      and only if `m` is never put while in flight or being popped. */
  lemma NeverInTwoPlacesIff(states: seq<State>, events: seq<Event>, lease: real, m: Member)
    requires IsRun(states, events, lease)
    ensures (forall i | 0 <= i < |states| :: Once(states[i], m)) <==>
            (forall i | 0 <= i < |events| :: !Doubling(states[i], events[i], m))
  {
    hide Enabled, Apply, Doubling, Once;
    if forall i | 0 <= i < |events| :: !Doubling(states[i], events[i], m) {
      forall i | 0 <= i < |states| ensures Once(states[i], m) {
        NoDoublingOnce(states, events, lease, i, m);
      }
    } else {
      var i :| 0 <= i < |events| && Doubling(states[i], events[i], m);
      DoublingIsInTwoPlaces(states[i], events[i], lease, m);
      assert !Once(states[i + 1], m);
    }
  }

  /** Scores: a put gives its own, a reclaimed member goes to the head, nobody else's changes. */
  lemma QueueScores(s: State, e: Event, m: Member)
    requires m in Queue(s, e)
    ensures Queue(s, e)[m] ==
            if e.step.Put? && e.step.member == m then e.step.score
            else if e.step.Reclaim? && m in e.step.out then 0.0
            else if m in s.queue then s.queue[m] else Queue(s, e)[m]
    ensures m in s.queue || (e.step.Put? && e.step.member == m) || (e.step.Reclaim? && m in e.step.out)
  {
    hide AddAll;
  }

  // ---------------------------------------------------------------- leases and time

  /** The lease of `m` runs out exactly one lease after it was last written. */
  ghost predicate LeaseIsLastWrite(s: State, lease: real, m: Member) {
    m in s.inflight ==> m in s.leasedAt && s.leasedAt[m] <= s.clock && s.inflight[m] == s.leasedAt[m] + lease
  }

  /** This step writes the lease of `m`. */
  ghost predicate Writes(s: State, e: Event, m: Member) {
    match e.step
    case Take(_, out, _) => m in out
    case BzRecord(get, _) => get in s.gets && s.gets[get].member == m
    case Renew(n) => n in s.snaps && m in s.inflight && m in s.snaps[n]
    case _ => false
  }

  /** A lease present after a step was written by it or was there before, unchanged. */
  lemma InflightAt(s: State, e: Event, lease: real, m: Member)
    ensures var z := Inflight(s, e, lease);
            m in z ==> if Writes(s, e, m) then z[m] == e.at + lease else m in s.inflight && z[m] == s.inflight[m]
  {
    hide AddAll, Renewed, Tokens;
  }

  lemma LeasedAtAt(s: State, e: Event, m: Member)
    ensures m in s.leasedAt && !Writes(s, e, m) && m in s.inflight
        ==> m in LeasedAt(s, e) && LeasedAt(s, e)[m] == s.leasedAt[m]
    ensures Writes(s, e, m) && (m in s.inflight ==> m in s.leasedAt)
        ==> m in LeasedAt(s, e) && LeasedAt(s, e)[m] == e.at
  {
    hide AddAll, Renewed, Tokens;
  }

  lemma LeaseStep(s: State, e: Event, lease: real, m: Member)
    requires Enabled(s, e) && LeaseIsLastWrite(s, lease, m)
    ensures LeaseIsLastWrite(Apply(s, e, lease), lease, m)
  {
    assert s.clock <= e.at;
    InflightAt(s, e, lease, m);
    LeasedAtAt(s, e, m);
    hide Inflight, LeasedAt, Writes, Queue, Gets, Transit, Held, Beats, Settled, Enabled;
  }

  lemma {:induction false} LeasesAreExact(states: seq<State>, events: seq<Event>, lease: real, i: nat, m: Member)
    requires IsRun(states, events, lease) && i < |states|
    ensures LeaseIsLastWrite(states[i], lease, m)
  {
    if i > 0 {
      LeasesAreExact(states, events, lease, i - 1, m);
      LeaseStep(states[i - 1], events[i - 1], lease, m);
    }
  }

  /** Only a take, a recorded pop or the renewal of what a live node held when it looked writes a
      lease; a renewal never adds a member to the in-flight set. */
  lemma WhoWritesLeases(s: State, e: Event, lease: real, m: Member)
    requires Enabled(s, e)
    ensures var t := Apply(s, e, lease);
            && (m in t.inflight && m !in s.inflight ==>
                  (e.step.Take? && m in e.step.out) || (e.step.BzRecord? && s.gets[e.step.get].member == m))
            && (m in t.inflight && m in s.inflight && t.inflight[m] != s.inflight[m] ==>
                  || (e.step.Take? && m in e.step.out)
                  || (e.step.BzRecord? && s.gets[e.step.get].member == m)
                  || (e.step.Renew? && m in s.snaps[e.step.node]))
  {
    hide Lowest, Expired, AddAll, Renewed, Queue, Gets, Transit, Held, Beats, Settled;
  }

  /** A reclaim that is not cut off by its limit returns every member whose lease was last
      written a lease ago or longer, and no other member. */
  lemma ReclaimReturnsExactlyTheExpired(states: seq<State>, events: seq<Event>, lease: real, i: nat, m: Member)
    requires IsRun(states, events, lease) && i < |events| && events[i].step.Reclaim?
    requires m in states[i].inflight
    ensures m in states[i].leasedAt
    ensures m in events[i].step.out ==> events[i].at >= states[i].leasedAt[m] + lease
    ensures |Expired(states[i].inflight, events[i].at)| <= events[i].step.limit &&
            events[i].at >= states[i].leasedAt[m] + lease ==>
            m in events[i].step.out && m in states[i + 1].queue && m !in states[i + 1].inflight
  {
    LeasesAreExact(states, events, lease, i, m);
    var s, e := states[i], events[i];
    var expired := Expired(s.inflight, e.at);
    if |expired| <= e.step.limit && m in expired && m !in e.step.out {
      CardElems(e.step.out);
      assert Elems(e.step.out) <= expired - {m};
      CardSubset(Elems(e.step.out), expired - {m});
      assert false;
    }
  }

  /** Nobody has a delivery of `m`, or is about to renew one. */
  ghost predicate Unclaimed(s: State, m: Member) {
    && (forall c | c in s.held || c in s.transit :: c.member != m)
    && (forall n | n in s.snaps :: m !in s.snaps[n])
  }

  lemma ClockStep(s: State, e: Event)
    requires Enabled(s, e)
    ensures s.clock <= e.at
  {
  }

  lemma {:induction false} AbandonedLease(states: seq<State>, events: seq<Event>, lease: real, i: nat, j: nat,
        m: Member)
    requires IsRun(states, events, lease) && i < j < |states|
    requires forall k | i < k <= j :: Unclaimed(states[k], m)
    requires m in states[j].inflight
    ensures states[j].inflight[m] <= events[i].at + lease
    decreases j
  {
    hide Enabled, Unclaimed, Writes, Inflight, Queue, Gets, Transit, Held, Entered, Beats, Snaps, LeasedAt, Settled;
    var s, e := states[j - 1], events[j - 1];
    LeasesAreExact(states, events, lease, j - 1, m);
    ClockStep(s, e);
    InflightAt(s, e, lease, m);
    if i < j - 1 {
      UnclaimedWrites(s, e, lease, m);
      AbandonedLease(states, events, lease, i, j - 1, m);
    }
  }

  lemma UnclaimedWrites(s: State, e: Event, lease: real, m: Member)
    requires Enabled(s, e) && Unclaimed(s, m) && Unclaimed(Apply(s, e, lease), m)
    ensures !Writes(s, e, m)
  {
    hide Lowest, Expired, Queue, Inflight, Held, Entered, Beats, Snaps, LeasedAt, Settled, Gets, Transit;
    if Writes(s, e, m) && !e.step.Renew? {
      var c := TakerHasClaim(s, e, m);
      assert false;
    }
  }

  /** Whoever takes a member has a delivery of it. */
  lemma TakerHasClaim(s: State, e: Event, m: Member) returns (c: Claim)
    requires Enabled(s, e) && Writes(s, e, m) && !e.step.Renew?
    ensures c.member == m && c in Transit(s, e)
  {
    hide Lowest, Expired;
    match e.step {
      case Take(n, out, _) => c := Claim(n, m, s.tick);
      case BzRecord(get, n) => c := ClaimOf(s.gets[get], n);
    }
  }

  /** What a node leaves behind when it crashes comes back: from one lease after the crash on, a
      reclaim whose limit suffices returns every member that no node has a delivery of. */
  lemma CrashedNodesTasksComeBack(states: seq<State>, events: seq<Event>, lease: real, i: nat, j: nat, m: Member)
    requires IsRun(states, events, lease) && i < j < |events| && events[i].step.Crash?
    requires forall k | i < k <= j :: Unclaimed(states[k], m)
    requires m in states[j].inflight && events[j].step.Reclaim? && events[j].at >= events[i].at + lease
    requires |Expired(states[j].inflight, events[j].at)| <= events[j].step.limit
    ensures m in events[j].step.out && m in states[j + 1].queue
  {
    hide Apply, Enabled, Unclaimed;
    AbandonedLease(states, events, lease, i, j, m);
    LeasesAreExact(states, events, lease, j, m);
    ReclaimReturnsExactlyTheExpired(states, events, lease, j, m);
  }

  /** How fast a node is: it looks at its list again within `gap`, the renewal that follows a look
      runs within `latency`, and what it takes is listed within `delay`. */
  datatype Pace = Pace(gap: real, delay: real, latency: real)

  /** Node `n` keeps the pace up to time `at`. */
  ghost predicate Punctual(s: State, at: real, n: nat, p: Pace) {
    && (n in s.beats ==> at <= s.beats[n] + p.gap)
    && (n in s.snaps && n in s.beats ==> at <= s.beats[n] + p.latency)
    && (forall c | c in s.transit && c.node == n :: at <= s.transit[c] + p.delay)
  }

  ghost predicate RenewsOnTime(states: seq<State>, events: seq<Event>, n: nat, p: Pace)
    requires |states| == |events| + 1
  {
    forall i | 0 <= i < |events| :: Punctual(states[i], events[i].at, n, p) && events[i].step != RenewFails(n)
  }

  /** How far the lease of a listed delivery reaches beyond the last look at the list; a renewal
      under way has still to make up for the gap before that look. */
  function Slack(s: State, c: Claim, p: Pace): real {
    p.delay + (if c.node in s.snaps && c.member in s.snaps[c.node] then p.gap else 0.0)
  }

  ghost predicate Covered(s: State, lease: real, p: Pace, c: Claim) {
    var n, m := c.node, c.member;
    && (n in s.beats ==> s.beats[n] <= s.clock)
    && (n in s.snaps ==> n in s.beats)
    && (c in s.held ==> n in s.beats && (m in s.inflight ==> s.inflight[m] >= s.beats[n] - Slack(s, c, p) + lease))
    && (c in s.transit ==> n in s.beats && s.transit[c] <= s.clock &&
                           (m in s.inflight ==> s.inflight[m] >= s.transit[c] + lease))
  }

  lemma CoveredStep(s: State, e: Event, lease: real, p: Pace, c: Claim)
    requires Enabled(s, e) && 0.0 <= p.delay && 0.0 <= p.gap && e.step != RenewFails(c.node)
    requires Covered(s, lease, p, c) && Punctual(s, e.at, c.node, p)
    ensures Covered(Apply(s, e, lease), lease, p, c)
  {
    hide Inflight, Transit, Writes, Held, Entered, Beats, Snaps, Queue, Gets, Settled, LeasedAt, Enabled;
    InflightAt(s, e, lease, c.member);
    TransitAt(s, e, c);
    HeldAt(s, e, c);
    SnapsAt(s, e, c);
    BeatsAt(s, e, c.node);
  }

  /** What is held after a step was held before or comes out of transit. */
  lemma HeldAt(s: State, e: Event, c: Claim)
    requires Enabled(s, e)
    ensures c in Held(s, e) ==>
              && (c in s.held || (c in s.transit && !e.step.Snapshot? && !e.step.Renew?))
              && !(e.step.Crash? && e.step.node == c.node)
  {
    hide Lowest, Expired;
  }

  lemma BeatsAt(s: State, e: Event, n: nat)
    requires Enabled(s, e)
    ensures var r := Beats(s, e);
            && (n in s.beats && !(e.step.Crash? && e.step.node == n) ==> n in r)
            && (n in r ==>
                  if n in s.beats && !(e.step.Snapshot? && e.step.node == n) then r[n] == s.beats[n] else r[n] == e.at)
    ensures s.clock <= e.at
  {
    hide Lowest, Expired;
  }

  /** A look covers everything the node holds; a renewal covers what the look saw. */
  lemma SnapsAt(s: State, e: Event, c: Claim)
    requires Enabled(s, e)
    ensures
      var r, n := Snaps(s, e), c.node;
      && (e.step == Snapshot(n) ==> n in s.beats && n !in s.snaps && n in r && (c in s.held ==> c.member in r[n]))
      && (e.step == Renew(n) ==>
            n in s.snaps && n !in r && (c.member in s.snaps[n] && c.member in s.inflight ==> Writes(s, e, c.member)))
      && (e.step == Crash(n) ==> n !in r)
      && (e.step != Snapshot(n) && e.step != Renew(n) && e.step != RenewFails(n) && e.step != Crash(n) ==>
            (n in r <==> n in s.snaps) && (n in r ==> r[n] == s.snaps[n]))
  {
    hide Lowest, Expired;
    if e.step == Snapshot(c.node) && c in s.held {
      assert c.member in Tokens(s.held, c.node);
    }
  }

  /** What is in transit after a step was taken by it or was there before. */
  lemma TransitAt(s: State, e: Event, c: Claim)
    requires Enabled(s, e)
    ensures var r := Transit(s, e);
            c in r ==>
              || (Writes(s, e, c.member) && r[c] == e.at && c.node in s.beats && !e.step.Crash?)
              || (c in s.transit && r[c] == s.transit[c] && !(e.step.Crash? && e.step.node == c.node))
  {
    hide Lowest, Expired, Tokens;
  }

  lemma {:induction false} HeldTasksAreCovered(states: seq<State>, events: seq<Event>, lease: real, p: Pace,
        c: Claim, i: nat)
    requires IsRun(states, events, lease) && i < |states| && 0.0 <= p.delay && 0.0 <= p.gap
    requires RenewsOnTime(states, events, c.node, p)
    ensures Covered(states[i], lease, p, c)
  {
    hide Enabled, Apply, Punctual;
    if i > 0 {
      HeldTasksAreCovered(states, events, lease, p, c, i - 1);
      CoveredStep(states[i - 1], events[i - 1], lease, p, c);
    }
  }

  /** Event `i` reclaims the member of a delivery that its node still has. */
  ghost predicate TakenAway(states: seq<State>, events: seq<Event>, c: Claim, i: nat)
    requires |states| == |events| + 1
  {
    && i < |events| && events[i].step.Reclaim? && c.member in events[i].step.out
    && (c in states[i].held || c in states[i].transit)
  }

  /** The longest time from the take of a task to the first renewal that covers it. */
  function Span(p: Pace): real {
    p.gap + p.delay + MinReal(p.latency, p.gap)
  }

  /** If that is shorter than the lease, no reclaim ever takes one of the node's tasks. */
  lemma RenewingNodeKeepsItsTasks(states: seq<State>, events: seq<Event>, lease: real, p: Pace, c: Claim, i: nat)
    requires IsRun(states, events, lease) && 0.0 <= p.delay && 0.0 <= p.gap && 0.0 <= p.latency && Span(p) < lease
    requires RenewsOnTime(states, events, c.node, p)
    ensures !TakenAway(states, events, c, i)
  {
    if i < |events| && events[i].step.Reclaim? && c.member in events[i].step.out {
      HeldTasksAreCovered(states, events, lease, p, c, i);
      var s, e := states[i], events[i];
      assert c.member in Expired(s.inflight, e.at);
      assert Punctual(s, e.at, c.node, p);
    }
  }
}
