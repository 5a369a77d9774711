/** Session calls of many threads. The jar phase and the client phase of one call take two
    locks, so phases of different calls interleave. */
module SessionThreads {
  import opened Seqs
  import opened SessionCache
  import opened SessionSharing

  /** A call between its two phases: its proxy and the jar it was given. */
  datatype Opened = Opened(proxy: Proxy, jar: Jar)

  datatype World = World(pools: Pools, open: map<nat, Opened>)

  datatype Step = Begin(thread: nat, proxy: Proxy) | Finish(thread: nat, shard: nat)

  /** Shard count, cache size and the proxies in use. */
  datatype Setting = Setting(shards: int, cacheSize: int, proxies: set<Proxy>)

  function Room(c: Setting): (r: nat)
    ensures c.shards >= 1 ==> r >= c.shards
  {
    Max(Capacity(c.cacheSize, c.shards), 0)
  }

  predicate Enabled(c: Setting, w: World, step: Step) {
    match step
    case Begin(t, p) => t !in w.open && p in c.proxies
    case Finish(t, shard) => t in w.open && shard < c.shards
  }

  function Apply(c: Setting, w: World, step: Step): (r: World)
    requires Enabled(c, w, step) && Unique(w.pools.jars)
    ensures Unique(r.pools.jars)
  {
    match step
    case Begin(t, p) =>
      var q := JarPhase(w.pools, p, Room(c));
      TouchValid(w.pools.jars, p, w.pools.nextJar, Max(Room(c), 1));
      World(q, w.open[t := Opened(p, Newer(q.jars))])
    case Finish(t, shard) =>
      var o := w.open[t];
      World(ClientPhase(w.pools, o.proxy, KeyOf(o.proxy, shard, c.shards), o.jar, Room(c)), w.open - {t})
  }

  function Exec(c: Setting, steps: seq<Step>): (r: Option<World>)
    ensures r.Some? ==> Unique(r.value.pools.jars)
  {
    if steps == [] then Some(World(FRESH, map[]))
    else
      var n := |steps| - 1;
      var w := Exec(c, steps[..n]);
      if w.Some? && Enabled(c, w.value, steps[n]) then Some(Apply(c, w.value, steps[n])) else None
  }

  lemma ExecSnoc(c: Setting, steps: seq<Step>, step: Step)
    requires Exec(c, steps).Some? && Enabled(c, Exec(c, steps).value, step)
    ensures Exec(c, steps + [step]) == Some(Apply(c, Exec(c, steps).value, step))
  {
    assert (steps + [step])[..|steps|] == steps;
  }

  // ---------------------------------------------------------------- enough room

  /** All jar keys are proxies in use, and every client and every open call carries the cached
      jar of its proxy. */
  ghost predicate Kept(p: Pools, proxies: set<Proxy>) {
    && Unique(p.jars)
    && (forall e | e in p.jars :: e.key in proxies)
    && (forall c | c in p.clients :: Entry(c.val.proxy, c.val.jar) in p.jars)
  }

  lemma TouchKeepsAll<K, V>(s: Items<K, V>, k: K, made: V, limit: nat, e: Entry<K, V>)
    requires e in s && (IndexOf(s, k) < |s| || |s| < limit)
    ensures e in Touch(s, k, made, limit)
  {
    var h := IndexOf(s, k);
    hide IndexOf;
    if h < |s| {
      MovedKeeps(s, h, e);
    } else {
      assert Touch(s, k, made, limit) == s + [Entry(k, made)];
    }
  }

  lemma MovedKeeps<T>(s: seq<T>, h: nat, e: T)
    requires h < |s| && e in s
    ensures e in s[..h] + s[h + 1..] + [s[h]]
  {
    assert s == s[..h] + [s[h]] + s[h + 1..];
  }

  /** With room for every proxy, a jar that is missing still fits. */
  lemma MissingFits(p: Pools, proxies: set<Proxy>, proxy: Proxy)
    requires Kept(p, proxies) && proxy in proxies && IndexOf(p.jars, proxy) == |p.jars|
    ensures |p.jars| < |proxies|
  {
    var keys := Keys(p.jars);
    CardElems(keys);
    forall x | x in Elems(keys) ensures x in proxies - {proxy} {
      var i :| 0 <= i < |keys| && keys[i] == x;
      assert p.jars[i] in p.jars;
    }
    CardSubset(Elems(keys), proxies - {proxy});
  }

  lemma JarPhaseKept(p: Pools, proxies: set<Proxy>, proxy: Proxy, cap: int)
    requires Kept(p, proxies) && proxy in proxies && |proxies| <= cap
    ensures
      var q := JarPhase(p, proxy, cap);
      && Kept(q, proxies) && q.jars != [] && Entry(proxy, Newer(q.jars)) in q.jars
      && forall e | e in p.jars :: e in q.jars
  {
    hide Touch, IndexOf;
    var q := JarPhase(p, proxy, cap);
    TouchValid(p.jars, proxy, p.nextJar, Max(cap, 1));
    TouchReturns(p.jars, proxy, p.nextJar, Max(cap, 1));
    assert q.jars[|q.jars| - 1] in q.jars;
    if IndexOf(p.jars, proxy) == |p.jars| {
      MissingFits(p, proxies, proxy);
    }
    forall e | e in p.jars ensures e in q.jars {
      TouchKeepsAll(p.jars, proxy, p.nextJar, Max(cap, 1), e);
    }
    forall e | e in q.jars ensures e.key in proxies {
      TouchMembers(p.jars, proxy, p.nextJar, Max(cap, 1), e);
    }
  }

  lemma ClientPhaseKept(p: Pools, proxies: set<Proxy>, proxy: Proxy, key: Key, jar: Jar, cap: int)
    requires Kept(p, proxies) && Entry(proxy, jar) in p.jars
    ensures Kept(ClientPhase(p, proxy, key, jar, cap), proxies)
  {
    hide Touch, IndexOf;
    var made := Client(p.nextClient, proxy, jar);
    forall c | c in ClientPhase(p, proxy, key, jar, cap).clients ensures Entry(c.val.proxy, c.val.jar) in p.jars {
      TouchMembers(p.clients, key, made, Max(cap, 1), c);
    }
  }

  lemma KeptShared(p: Pools, proxies: set<Proxy>)
    requires Kept(p, proxies)
    ensures Shared(p)
  {
    forall i | 0 <= i < |p.clients| ensures Entry(p.clients[i].val.proxy, p.clients[i].val.jar) in p.jars {
      assert p.clients[i] in p.clients;
    }
  }

  lemma {:induction false} ThreadsKept(c: Setting, steps: seq<Step>)
    requires 1 <= c.shards && |c.proxies| <= Room(c) && Exec(c, steps).Some?
    ensures
      var w := Exec(c, steps).value;
      Kept(w.pools, c.proxies) && forall t | t in w.open :: Entry(w.open[t].proxy, w.open[t].jar) in w.pools.jars
  {
    hide JarPhase, ClientPhase, Kept, Capacity;
    if steps == [] {
      FreshKept(c.proxies);
    } else {
      var n := |steps| - 1;
      ThreadsKept(c, steps[..n]);
      var w := Exec(c, steps[..n]).value;
      match steps[n]
      case Begin(t, p) => JarPhaseKept(w.pools, c.proxies, p, Room(c));
      case Finish(t, shard) =>
        ClientPhaseKept(w.pools, c.proxies, w.open[t].proxy, KeyOf(w.open[t].proxy, shard, c.shards), w.open[t].jar,
            Room(c));
        ClientPhaseJars(w.pools, w.open[t].proxy, KeyOf(w.open[t].proxy, shard, c.shards), w.open[t].jar, Room(c));
    }
  }

  lemma FreshKept(proxies: set<Proxy>)
    ensures Kept(FRESH, proxies)
  {
  }

  lemma ClientPhaseJars(p: Pools, proxy: Proxy, key: Key, jar: Jar, cap: int)
    ensures ClientPhase(p, proxy, key, jar, cap).jars == p.jars
  {
  }

  // ---------------------------------------------------------------- too many proxies

  lemma TouchNewKeys<K, V>(s: Items<K, V>, k: K, made: V, limit: nat)
    requires IndexOf(s, k) == |s|
    ensures Keys(Touch(s, k, made, limit)) == Newest(Keys(s) + [k], limit)
  {
    hide IndexOf, Newest;
    KeysNewest(s + [Entry(k, made)], limit);
    assert Keys(s + [Entry(k, made)]) == Keys(s) + [k];
  }

  lemma KeysNewest<K, V>(s: Items<K, V>, limit: nat)
    ensures Keys(Newest(s, limit)) == Newest(Keys(s), limit)
  {
  }

  lemma NewestSnoc<T>(s: seq<T>, x: T, limit: nat)
    ensures Newest(Newest(s, limit) + [x], limit) == Newest(s + [x], limit)
  {
  }

  lemma AbsentKey<K, V>(s: Items<K, V>, k: K)
    requires k !in Keys(s)
    ensures IndexOf(s, k) == |s|
  {
    forall i | 0 <= i < |s| ensures s[i].key != k {
      assert Keys(s)[i] == s[i].key;
    }
  }

  /** A session for a proxy whose jar is not cached puts that jar at the newest end. */
  lemma SessionNewKey(p: Pools, before: seq<Proxy>, o: Proxy, cap: nat)
    requires 1 <= cap && Keys(p.jars) == Newest(before, cap) && o !in before
    ensures Keys(JarPhase(p, o, cap).jars) == Newest(before + [o], cap)
  {
    AbsentKey(p.jars, o);
    TouchNewKeys(p.jars, o, p.nextJar, cap);
    NewestSnoc(before, o, cap);
  }

  /** `n` different elements of a set that has as many. */
  lemma {:induction false} Listing<T>(s: set<T>, n: nat) returns (r: seq<T>)
    requires n <= |s|
    ensures |r| == n && NoDup(r) && forall i | 0 <= i < n :: r[i] in s
  {
    r := [];
    if n > 0 {
      var x :| x in s;
      r := Listing(s - {x}, n - 1);
      r := r + [x];
    }
  }

  lemma MissedKey(p: Pools, proxy: Proxy, key: Key, jar: Jar, cap: nat, other: Key)
    requires 1 <= cap && key != other && other !in Keys(p.clients)
    ensures other !in Keys(ClientPhase(p, proxy, key, jar, cap).clients)
  {
    var q := ClientPhase(p, proxy, key, jar, cap);
    forall i | 0 <= i < |q.clients| ensures Keys(q.clients)[i] != other {
      TouchMembers(p.clients, key, Client(p.nextClient, proxy, jar), cap, q.clients[i]);
      if q.clients[i] in p.clients {
        var j :| 0 <= j < |p.clients| && p.clients[j] == q.clients[i];
        assert Keys(p.clients)[j] == q.clients[i].key;
      }
    }
  }

  /** Another shard of `a`, or the same client slot of a proxy that does not collide. */
  function FreeShard(shards: int): nat {
    if shards <= 1 then 0 else 1
  }

  lemma OtherKey(a: Proxy, o: Proxy, shards: int)
    requires a != o
    ensures KeyOf(o, 0, shards) != KeyOf(a, FreeShard(shards), shards)
  {
    if shards > 1 {
      KeyCollision(o, 0, a, 1, shards);
    }
  }

  /** Thread 0 is between its phases with the first jar of all, for `a`; thread 1 has finished
      a session for each of `others`. */
  ghost predicate Waiting(c: Setting, w: World, a: Proxy, others: seq<Proxy>) {
    && w.open == map[0 := Opened(a, 0)]
    && Keys(w.pools.jars) == Newest([a] + others, Room(c))
    && KeyOf(a, FreeShard(c.shards), c.shards) !in Keys(w.pools.clients)
  }

  lemma FirstJar(c: Setting, a: Proxy)
    requires 1 <= c.shards && a in c.proxies
    ensures
      var w := World(FRESH, map[]);
      Enabled(c, w, Begin(0, a)) && Waiting(c, Apply(c, w, Begin(0, a)), a, [])
  {
    AbsentKey(FRESH.jars, a);
    var w := Apply(c, World(FRESH, map[]), Begin(0, a));
    assert w.pools.jars == [Entry(a, 0)];
    assert Keys(w.pools.jars) == [a] + [];
  }

  lemma SessionOfOther(c: Setting, w: World, a: Proxy, others: seq<Proxy>, o: Proxy)
    requires 1 <= c.shards && o in c.proxies && Unique(w.pools.jars)
    requires Waiting(c, w, a, others) && o != a && o !in others
    ensures
      && Enabled(c, w, Begin(1, o))
      && var w1 := Apply(c, w, Begin(1, o));
      && Enabled(c, w1, Finish(1, 0)) && Waiting(c, Apply(c, w1, Finish(1, 0)), a, others + [o])
  {
    hide Capacity, Touch, Newest;
    SessionNewKey(w.pools, [a] + others, o, Room(c));
    assert [a] + others + [o] == [a] + (others + [o]);
    var w1 := Apply(c, w, Begin(1, o));
    OtherKey(a, o, c.shards);
    MissedKey(w1.pools, o, KeyOf(o, 0, c.shards), w1.open[1].jar, Room(c), KeyOf(a, FreeShard(c.shards), c.shards));
  }

  lemma {:induction false} FillWhileWaiting(c: Setting, a: Proxy, others: seq<Proxy>, n: nat) returns (steps: seq<Step>)
    requires 1 <= c.shards && a in c.proxies && n <= |others|
    requires NoDup(others) && forall i | 0 <= i < |others| :: others[i] in c.proxies && others[i] != a
    ensures Exec(c, steps).Some? && Waiting(c, Exec(c, steps).value, a, others[..n])
  {
    hide Waiting, Apply, Enabled;
    if n == 0 {
      FirstJar(c, a);
      ExecSnoc(c, [], Begin(0, a));
      steps := [] + [Begin(0, a)];
      assert others[..0] == [];
    } else {
      steps := FillWhileWaiting(c, a, others, n - 1);
      SessionOfOther(c, Exec(c, steps).value, a, others[..n - 1], others[n - 1]);
      ExecSnoc(c, steps, Begin(1, others[n - 1]));
      steps := steps + [Begin(1, others[n - 1])];
      ExecSnoc(c, steps, Finish(1, 0));
      steps := steps + [Finish(1, 0)];
      assert others[..n] == others[..n - 1] + [others[n - 1]];
    }
  }

  /** Finishing the waiting call leaves a client whose jar is gone. */
  lemma LateClient(c: Setting, w: World, a: Proxy, others: seq<Proxy>)
    requires 1 <= c.shards && Unique(w.pools.jars) && |others| == Room(c) && a !in others
    requires Waiting(c, w, a, others)
    ensures Enabled(c, w, Finish(0, FreeShard(c.shards)))
    ensures var r := Apply(c, w, Finish(0, FreeShard(c.shards))); r.open == map[] && !Shared(r.pools)
  {
    hide Capacity, KeyOf;
    var shard := FreeShard(c.shards);
    var r := Apply(c, w, Finish(0, shard));
    assert Newest([a] + others, Room(c)) == others;
    AbsentKey(w.pools.clients, KeyOf(a, shard, c.shards));
    var last := r.pools.clients[|r.pools.clients| - 1];
    assert last.val == Client(w.pools.nextClient, a, 0);
    forall i | 0 <= i < |r.pools.jars| ensures r.pools.jars[i].key != a {
      assert Keys(r.pools.jars)[i] == r.pools.jars[i].key;
    }
  }

  // ---------------------------------------------------------------- the exact condition

  /** However threads interleave their phases, when no call is open every cached client's jar
      is the cached jar of its proxy. */
  ghost predicate AlwaysShared(c: Setting) {
    forall steps | Exec(c, steps).Some? && Exec(c, steps).value.open == map[] :: Shared(Exec(c, steps).value.pools)
  }

  /** For overlapping calls this holds if and only if every proxy in use has room in the cache. */
  lemma SharedIffProxiesFit(c: Setting)
    requires 1 <= c.shards
    ensures AlwaysShared(c) <==> |c.proxies| <= Room(c)
  {
    hide Exec, Apply, Shared, Capacity, Waiting;
    if |c.proxies| <= Room(c) {
      forall steps | Exec(c, steps).Some? && Exec(c, steps).value.open == map[]
        ensures Shared(Exec(c, steps).value.pools)
      {
        ThreadsKept(c, steps);
        KeptShared(Exec(c, steps).value.pools, c.proxies);
      }
    } else {
      var a :| a in c.proxies;
      var others := Listing(c.proxies - {a}, Room(c));
      var steps := FillWhileWaiting(c, a, others, |others|);
      assert others[..|others|] == others;
      LateClient(c, Exec(c, steps).value, a, others);
      ExecSnoc(c, steps, Finish(0, FreeShard(c.shards)));
      assert Exec(c, steps + [Finish(0, FreeShard(c.shards))]).Some?;
    }
  }

  // ---------------------------------------------------------------- one call after the other

  ghost predicate Over(calls: seq<Call>, c: Setting) {
    forall i | 0 <= i < |calls| :: calls[i].proxy in c.proxies && calls[i].shard < c.shards
  }

  /** Every run of calls one after the other keeps every client's jar cached. */
  ghost predicate SequentiallyShared(c: Setting) {
    forall calls | Over(calls, c) :: Shared(Run(calls, c.shards, c.cacheSize))
  }

  lemma {:induction false} CallsKept(calls: seq<Call>, c: Setting)
    requires 1 <= c.shards && |c.proxies| <= Room(c) && Over(calls, c)
    ensures Kept(Run(calls, c.shards, c.cacheSize), c.proxies)
  {
    hide JarPhase, ClientPhase, Kept, Capacity;
    if calls == [] {
      FreshKept(c.proxies);
    } else {
      var n := |calls| - 1;
      CallsKept(calls[..n], c);
      var p := Run(calls[..n], c.shards, c.cacheSize);
      JarPhaseKept(p, c.proxies, calls[n].proxy, Room(c));
      var q := JarPhase(p, calls[n].proxy, Room(c));
      ClientPhaseKept(q, c.proxies, calls[n].proxy, KeyOf(calls[n].proxy, calls[n].shard, c.shards), Newer(q.jars),
          Room(c));
    }
  }

  lemma RunSnoc(calls: seq<Call>, call: Call, shards: int, cacheSize: int)
    ensures Run(calls + [call], shards, cacheSize)
         == Session(Run(calls, shards, cacheSize), call.proxy, call.shard, shards, cacheSize)
  {
    assert (calls + [call])[..|calls|] == calls;
  }

  const NAMED_NONE: Proxy := Some("None")

  /** The client of the direct connection is the oldest, its jar the oldest that ever was, and
      every later call brought one new jar and, after the collision, one new client. */
  ghost predicate Collided(c: Setting, p: Pools, others: seq<Proxy>) {
    && Keys(p.jars) == Newest([None, NAMED_NONE] + others, Room(c))
    && |p.clients| == 1 + |others| && p.clients[0].val.proxy == None
    && p.clients[0].key == KeyOf(None, 0, c.shards)
    && forall i | 0 <= i < |others| :: p.clients[i + 1].key == KeyOf(others[i], 0, c.shards)
  }

  lemma CollisionOpens(c: Setting)
    requires 2 <= c.shards
    ensures Collided(c, Run([Call(None, 0), Call(NAMED_NONE, 0)], c.shards, c.cacheSize), [])
  {
    hide KeyOf, Capacity;
    var cap, key := Room(c), KeyOf(None, 0, c.shards);
    KeyCollision(None, 0, NAMED_NONE, 0, c.shards);
    var calls := [Call(None, 0)];
    RunSnoc([], Call(None, 0), c.shards, c.cacheSize);
    assert [] + [Call(None, 0)] == calls;
    var p := Run(calls, c.shards, c.cacheSize);
    assert p.jars == [Entry(None, 0)] && p.clients == [Entry(key, Client(0, None, 0))];
    RunSnoc(calls, Call(NAMED_NONE, 0), c.shards, c.cacheSize);
    assert calls + [Call(NAMED_NONE, 0)] == [Call(None, 0), Call(NAMED_NONE, 0)];
    CollisionHits(p, cap, key);
  }

  lemma CollisionHits(p: Pools, cap: nat, key: Key)
    requires 2 <= cap && p.jars == [Entry(None, 0)] && p.clients == [Entry(key, Client(0, None, 0))]
    ensures
      var q := JarPhase(p, NAMED_NONE, cap);
      && q.jars != [] && Keys(q.jars) == [None, NAMED_NONE]
      && ClientPhase(q, NAMED_NONE, key, Newer(q.jars), cap).clients == p.clients
  {
    var q := JarPhase(p, NAMED_NONE, cap);
    assert IndexOf(p.jars, NAMED_NONE) == 1;
    assert q.jars == [Entry(None, 0), Entry(NAMED_NONE, p.nextJar)];
    assert IndexOf(p.clients, key) == 0;
  }

  lemma OthersAreNew(c: Setting, p: Pools, others: seq<Proxy>, o: Proxy)
    requires 2 <= c.shards && Collided(c, p, others) && o !in [None, NAMED_NONE] && o !in others
    ensures IndexOf(p.clients, KeyOf(o, 0, c.shards)) == |p.clients|
  {
    hide KeyOf, Keys, Newest;
    forall i | 0 <= i < |p.clients| ensures p.clients[i].key != KeyOf(o, 0, c.shards) {
      KeyCollision(o, 0, if i == 0 then None else others[i - 1], 0, c.shards);
    }
  }

  lemma CollidedNext(c: Setting, p: Pools, others: seq<Proxy>, o: Proxy)
    requires 2 <= c.shards && Unique(p.jars) && Collided(c, p, others) && |others| + 2 <= Room(c)
    requires o !in [None, NAMED_NONE] && o !in others
    ensures Collided(c, Session(p, o, 0, c.shards, c.cacheSize), others + [o])
  {
    hide KeyOf, Capacity, Newest, Keys;
    OthersAreNew(c, p, others, o);
    SessionNewKey(p, [None, NAMED_NONE] + others, o, Room(c));
    assert [None, NAMED_NONE] + others + [o] == [None, NAMED_NONE] + (others + [o]);
    var q := JarPhase(p, o, Room(c));
    TouchValid(p.jars, o, p.nextJar, Room(c));
    NotFull(p.clients, KeyOf(o, 0, c.shards), Client(p.nextClient, o, Newer(q.jars)), Room(c));
  }

  lemma NotFull<K, V>(s: Items<K, V>, k: K, made: V, limit: nat)
    requires IndexOf(s, k) == |s| < limit
    ensures Touch(s, k, made, limit) == s + [Entry(k, made)]
  {
  }

  lemma {:induction false} FillAfterCollision(c: Setting, others: seq<Proxy>, n: nat) returns (calls: seq<Call>)
    requires 2 <= c.shards && None in c.proxies && NAMED_NONE in c.proxies && n <= |others| < Room(c) && NoDup(others)
    requires forall i | 0 <= i < |others| :: others[i] in c.proxies && others[i] != None && others[i] != NAMED_NONE
    ensures Over(calls, c) && Collided(c, Run(calls, c.shards, c.cacheSize), others[..n])
  {
    hide Collided, Session, Run;
    if n == 0 {
      calls := [Call(None, 0), Call(NAMED_NONE, 0)];
      CollisionOpens(c);
      assert others[..0] == [];
    } else {
      calls := FillAfterCollision(c, others, n - 1);
      CollidedNext(c, Run(calls, c.shards, c.cacheSize), others[..n - 1], others[n - 1]);
      RunSnoc(calls, Call(others[n - 1], 0), c.shards, c.cacheSize);
      calls := calls + [Call(others[n - 1], 0)];
      assert others[..n] == others[..n - 1] + [others[n - 1]];
    }
  }

  lemma CollidedLosesJar(c: Setting, p: Pools, others: seq<Proxy>)
    requires 2 <= c.shards && Collided(c, p, others) && |others| == Room(c) - 1
    requires forall i | 0 <= i < |others| :: others[i] != None
    ensures !Shared(p)
  {
    hide KeyOf, Capacity;
    assert Newest([None, NAMED_NONE] + others, Room(c)) == [NAMED_NONE] + others;
    forall i | 0 <= i < |p.jars| ensures p.jars[i].key != None {
      assert Keys(p.jars)[i] == p.jars[i].key;
    }
  }

  /** For calls one after the other the jar is kept if and only if no two proxies in use share
      cache keys, or every proxy in use has room. */
  lemma SequentialSharedIff(c: Setting)
    requires 1 <= c.shards
    ensures SequentiallyShared(c) <==>
            c.shards == 1 || None !in c.proxies || NAMED_NONE !in c.proxies || |c.proxies| <= Room(c)
  {
    hide Run, Shared, Capacity, Collided;
    if |c.proxies| <= Room(c) {
      forall calls | Over(calls, c) ensures Shared(Run(calls, c.shards, c.cacheSize)) {
        CallsKept(calls, c);
        KeptShared(Run(calls, c.shards, c.cacheSize), c.proxies);
      }
    } else if c.shards == 1 || None !in c.proxies || NAMED_NONE !in c.proxies {
      var absent := if None in c.proxies then NAMED_NONE else None;
      forall calls | Over(calls, c) ensures Shared(Run(calls, c.shards, c.cacheSize)) {
        RunInv(calls, c.shards, c.cacheSize, absent);
        InvShared(Run(calls, c.shards, c.cacheSize), c.shards, Capacity(c.cacheSize, c.shards), absent);
      }
    } else {
      var rest := c.proxies - {None, NAMED_NONE};
      assert c.proxies == rest + {None, NAMED_NONE};
      var others := Listing(rest, Room(c) - 1);
      var calls := FillAfterCollision(c, others, |others|);
      assert others[..|others|] == others;
      CollidedLosesJar(c, Run(calls, c.shards, c.cacheSize), others);
    }
  }

  /** Then all live shards of a proxy share one jar, the one the next shard will be built with. */
  lemma LiveShardsShareOneJar(c: Setting, calls: seq<Call>, i: nat, j: nat)
    requires 1 <= c.shards && Over(calls, c)
    requires c.shards == 1 || None !in c.proxies || NAMED_NONE !in c.proxies || |c.proxies| <= Room(c)
    requires
      var p := Run(calls, c.shards, c.cacheSize);
      i < |p.clients| && j < |p.clients| && p.clients[i].val.proxy == p.clients[j].val.proxy
    ensures
      var p := Run(calls, c.shards, c.cacheSize);
      p.clients[i].val.jar == p.clients[j].val.jar && Entry(p.clients[i].val.proxy, p.clients[i].val.jar) in p.jars
  {
    hide Run, Shared, Capacity;
    SequentialSharedIff(c);
    SharedPair(Run(calls, c.shards, c.cacheSize), i, j);
  }

  // ---------------------------------------------------------------- who is served

  /** The call that ends the run is answered with a client of the proxy it asked for. */
  ghost predicate LastServed(calls: seq<Call>, c: Setting) {
    var p := Run(calls, c.shards, c.cacheSize);
    calls != [] ==> p.clients != [] && Newer(p.clients).proxy == calls[|calls| - 1].proxy
  }

  /** In every run of calls one after the other each call is. */
  ghost predicate EachIsServed(c: Setting) {
    forall calls | Over(calls, c) :: LastServed(calls, c)
  }

  lemma ServedApart(calls: seq<Call>, c: Setting, absent: Proxy)
    requires 1 <= c.shards && Over(calls, c) && calls != []
    requires forall p | p in c.proxies :: Allowed(p, c.shards, absent)
    ensures LastServed(calls, c)
  {
    hide Inv, Session, Allowed, Capacity;
    var n := |calls| - 1;
    RunInv(calls[..n], c.shards, c.cacheSize, absent);
    SessionStep(Run(calls[..n], c.shards, c.cacheSize), calls[n].proxy, calls[n].shard, c.shards, c.cacheSize, absent);
  }

  /** A call gets a client of its own proxy, in every run, if and only if no two proxies in use
      share cache keys. */
  lemma EachIsServedIff(c: Setting)
    requires 1 <= c.shards
    ensures EachIsServed(c) <==> c.shards == 1 || None !in c.proxies || NAMED_NONE !in c.proxies
  {
    hide Run, LastServed, Capacity;
    if c.shards == 1 || None !in c.proxies || NAMED_NONE !in c.proxies {
      var absent := if None in c.proxies then NAMED_NONE else None;
      forall calls | Over(calls, c) ensures LastServed(calls, c) {
        if calls == [] {
          NobodyServed(c);
        } else {
          ServedApart(calls, c, absent);
        }
      }
    } else {
      CollisionOpens(c);
      var calls := [Call(None, 0), Call(NAMED_NONE, 0)];
      WrongClient(c, calls);
      assert Over(calls, c);
    }
  }

  lemma NobodyServed(c: Setting)
    ensures LastServed([], c)
  {
  }

  lemma {:induction false} WrongClient(c: Setting, calls: seq<Call>)
    requires |calls| == 2 && calls[1].proxy == NAMED_NONE
    requires Collided(c, Run(calls, c.shards, c.cacheSize), [])
    ensures !LastServed(calls, c)
  {
    hide Run;
  }
}
