/** How much the session caches hold: SESSION_CACHE_SIZE proxies with all their shards fit, and
    one client key more does not. */
module SessionRetention {
  import opened Seqs
  import opened SessionCache
  import opened SessionSharing
  import opened SessionThreads

  /** Every client key of the proxies, shard by shard. */
  lemma {:induction false} KeyList(proxies: set<Proxy>, shards: nat) returns (keys: seq<Key>)
    ensures |keys| == |proxies| * shards
    ensures forall p, i: nat | p in proxies && i < shards :: KeyOf(p, i, shards) in keys
  {
    hide KeyOf;
    if proxies == {} {
      keys := [];
    } else {
      var x :| x in proxies;
      var rest := KeyList(proxies - {x}, shards);
      var own := seq(shards, i requires 0 <= i => KeyOf(x, i, shards));
      keys := rest + own;
      assert |proxies| * shards == |proxies - {x}| * shards + shards by {
        assert |proxies| == |proxies - {x}| + 1;
      }
      forall p, i: nat | p in proxies && i < shards ensures KeyOf(p, i, shards) in keys {
        if p == x {
          assert own[i] == KeyOf(p, i, shards);
        }
      }
    }
  }

  ghost predicate KeysOf(keys: seq<Key>, c: Setting) {
    forall k | 0 <= k < |keys| :: exists p, i: nat :: p in c.proxies && i < c.shards && keys[k] == KeyOf(p, i, c.shards)
  }

  lemma KeysAreFew(keys: seq<Key>, c: Setting)
    requires 1 <= c.shards && NoDup(keys) && KeysOf(keys, c)
    ensures |keys| <= |c.proxies| * c.shards
  {
    hide KeyOf;
    var all := KeyList(c.proxies, c.shards);
    forall x | x in keys ensures x in all {
      var k :| 0 <= k < |keys| && keys[k] == x;
      var p, i: nat :| p in c.proxies && i < c.shards && keys[k] == KeyOf(p, i, c.shards);
    }
    Pigeonhole(keys, all);
  }

  /** Nothing has left either cache. */
  ghost predicate Intact(p: Pools, c: Setting) {
    && Unique(p.jars) && Unique(p.clients) && p.closed == []
    && |p.jars| == p.nextJar && |p.clients| == p.nextClient
    && (forall e | e in p.jars :: e.key in c.proxies)
    && KeysOf(Keys(p.clients), c)
  }

  lemma KeysNoDup<K, V>(s: Items<K, V>)
    requires Unique(s)
    ensures NoDup(Keys(s))
  {
  }

  /** A key that is not there yet still fits. */
  lemma JarFits(p: Pools, c: Setting, proxy: Proxy)
    requires Intact(p, c) && proxy in c.proxies && IndexOf(p.jars, proxy) == |p.jars|
    ensures |p.jars| < |c.proxies|
  {
    hide KeysOf;
    KeysNoDup(p.jars);
    var keys := Keys(p.jars);
    CardElems(keys);
    forall x | x in Elems(keys) ensures x in c.proxies - {proxy} {
      var i :| 0 <= i < |keys| && keys[i] == x;
      assert p.jars[i] in p.jars;
    }
    CardSubset(Elems(keys), c.proxies - {proxy});
  }

  lemma ClientFits(p: Pools, c: Setting, proxy: Proxy, shard: nat)
    requires 1 <= c.shards && Intact(p, c) && proxy in c.proxies && shard < c.shards
    requires IndexOf(p.clients, KeyOf(proxy, shard, c.shards)) == |p.clients|
    ensures |p.clients| < |c.proxies| * c.shards
  {
    hide KeyOf;
    var key := KeyOf(proxy, shard, c.shards);
    KeysNoDup(p.clients);
    var keys := Keys(p.clients) + [key];
    assert NoDup(keys);
    forall k | 0 <= k < |keys|
      ensures exists q, i: nat :: q in c.proxies && i < c.shards && keys[k] == KeyOf(q, i, c.shards)
    {
      if k < |p.clients| {
        assert keys[k] == Keys(p.clients)[k];
      }
    }
    KeysAreFew(keys, c);
  }

  lemma TouchRoomy<K, V>(s: Items<K, V>, k: K, made: V, limit: nat)
    requires Unique(s) && (IndexOf(s, k) < |s| || |s| < limit)
    ensures
      var t := Touch(s, k, made, limit);
      && Unique(t) && |t| == (if IndexOf(s, k) < |s| then |s| else |s| + 1)
      && Departed(s, k, made, limit) == []
      && forall e | e in t :: e in s || e == Entry(k, made)
  {
    var h := IndexOf(s, k);
    if h < |s| {
      HitMoves(s, h);
    } else {
      MissAppends(s, k, made);
    }
    hide IndexOf, Vals, Unique;
  }

  lemma HitMoves<K, V>(s: Items<K, V>, h: nat)
    requires Unique(s) && h < |s|
    ensures
      var t := s[..h] + s[h + 1..] + [s[h]];
      Unique(t) && |t| == |s| && forall e | e in t :: e in s
  {
    var t := s[..h] + s[h + 1..] + [s[h]];
    forall i | 0 <= i < |t| ensures t[i] == s[if i < h then i else if i < |s| - 1 then i + 1 else h] {
    }
  }

  lemma MissAppends<K, V>(s: Items<K, V>, k: K, made: V)
    requires Unique(s) && IndexOf(s, k) == |s|
    ensures Unique(s + [Entry(k, made)])
  {
  }

  lemma SessionIntact(p: Pools, c: Setting, proxy: Proxy, shard: nat)
    requires 1 <= c.shards && |c.proxies| <= Max(1, c.cacheSize)
    requires Intact(p, c) && proxy in c.proxies && shard < c.shards
    ensures Intact(Session(p, proxy, shard, c.shards, c.cacheSize), c)
  {
    var cap, key := Capacity(c.cacheSize, c.shards), KeyOf(proxy, shard, c.shards);
    RoomFor(c);
    var q := JarPhase(p, proxy, cap);
    JarIntact(p, c, proxy, cap);
    ClientIntact(q, c, proxy, shard, Newer(q.jars), cap);
  }

  /** The capacity is the cache size times the shards: room for every key of that many proxies. */
  lemma RoomFor(c: Setting)
    requires 1 <= c.shards && |c.proxies| <= Max(1, c.cacheSize)
    ensures |c.proxies| <= Capacity(c.cacheSize, c.shards) && |c.proxies| * c.shards <= Capacity(c.cacheSize, c.shards)
  {
    NonNegative(Max(1, c.cacheSize) - |c.proxies|, c.shards);
    NonNegative(Max(1, c.cacheSize), c.shards - 1);
    assert (Max(1, c.cacheSize) - |c.proxies|) * c.shards == Max(1, c.cacheSize) * c.shards - |c.proxies| * c.shards;
    assert Max(1, c.cacheSize) * (c.shards - 1) == Max(1, c.cacheSize) * c.shards - Max(1, c.cacheSize);
  }

  lemma JarIntact(p: Pools, c: Setting, proxy: Proxy, cap: int)
    requires Intact(p, c) && proxy in c.proxies && |c.proxies| <= cap
    ensures var q := JarPhase(p, proxy, cap); Intact(q, c) && q.jars != []
  {
    hide Touch, Departed, IndexOf, KeysOf;
    if IndexOf(p.jars, proxy) == |p.jars| {
      JarFits(p, c, proxy);
    }
    TouchRoomy(p.jars, proxy, p.nextJar, Max(cap, 1));
    TouchValid(p.jars, proxy, p.nextJar, Max(cap, 1));
  }

  lemma ClientIntact(p: Pools, c: Setting, proxy: Proxy, shard: nat, jar: Jar, cap: int)
    requires 1 <= c.shards && Intact(p, c) && proxy in c.proxies && shard < c.shards && |c.proxies| * c.shards <= cap
    ensures Intact(ClientPhase(p, proxy, KeyOf(proxy, shard, c.shards), jar, cap), c)
  {
    hide Touch, Departed, IndexOf, KeyOf;
    var key, made := KeyOf(proxy, shard, c.shards), Client(p.nextClient, proxy, jar);
    if IndexOf(p.clients, key) == |p.clients| {
      ClientFits(p, c, proxy, shard);
    }
    TouchRoomy(p.clients, key, made, Max(cap, 1));
    var t := Touch(p.clients, key, made, Max(cap, 1));
    forall k | 0 <= k < |t|
      ensures exists q, i: nat :: q in c.proxies && i < c.shards && Keys(t)[k] == KeyOf(q, i, c.shards)
    {
      assert t[k] in t;
      if t[k] in p.clients {
        var j :| 0 <= j < |p.clients| && p.clients[j] == t[k];
        assert Keys(p.clients)[j] == Keys(t)[k];
      }
    }
  }

  lemma {:induction false} RunIntact(calls: seq<Call>, c: Setting)
    requires 1 <= c.shards && |c.proxies| <= Max(1, c.cacheSize) && Over(calls, c)
    ensures Intact(Run(calls, c.shards, c.cacheSize), c)
  {
    hide Intact, Session;
    if calls == [] {
      FreshIntact(c);
    } else {
      var n := |calls| - 1;
      RunIntact(calls[..n], c);
      SessionIntact(Run(calls[..n], c.shards, c.cacheSize), c, calls[n].proxy, calls[n].shard);
    }
  }

  lemma FreshIntact(c: Setting)
    ensures Intact(FRESH, c)
  {
  }

  /** As many proxies as the configured cache size keep all their clients and jars: after any run
      nothing has been closed, and everything ever built is still cached. */
  lemma ConfiguredProxiesAreKept(calls: seq<Call>, c: Setting)
    requires 1 <= c.shards && |c.proxies| <= Max(1, c.cacheSize) && Over(calls, c)
    ensures
      var p := Run(calls, c.shards, c.cacheSize);
      p.closed == [] && |p.clients| == p.nextClient && |p.jars| == p.nextJar
  {
    hide Run, KeysOf;
    RunIntact(calls, c);
  }

  // ---------------------------------------------------------------- one key more

  /** As long as nothing was closed, every key asked for is cached, within the configured room. */
  ghost predicate Remembers(p: Pools, calls: seq<Call>, shards: int, room: int) {
    && Unique(p.jars) && |p.clients| <= room
    && (p.closed == [] ==>
          forall i | 0 <= i < |calls| :: KeyOf(calls[i].proxy, calls[i].shard, shards) in Keys(p.clients))
  }

  lemma TouchRemembers(s: Items<Key, Client>, k: Key, made: Client, limit: nat)
    requires |s| <= limit && 1 <= limit && Departed(s, k, made, limit) == []
    ensures
      var t := Touch(s, k, made, limit);
      |t| <= limit && k in Keys(t) && forall x | x in Keys(s) :: x in Keys(t)
  {
    var t := Touch(s, k, made, limit);
    var last := |t| - 1;
    assert Keys(t)[last] == k;
    forall x | x in Keys(s) ensures x in Keys(t) {
      var i :| 0 <= i < |s| && Keys(s)[i] == x;
      KeptInTouch(s, k, made, limit, s[i]);
      var j :| 0 <= j < |t| && t[j] == s[i];
      assert Keys(t)[j] == x;
    }
  }

  lemma KeptInTouch(s: Items<Key, Client>, k: Key, made: Client, limit: nat, e: Entry<Key, Client>)
    requires |s| <= limit && Departed(s, k, made, limit) == [] && e in s
    ensures e in Touch(s, k, made, limit)
  {
    assert IndexOf(s, k) < |s| || |s| < limit;
    TouchKeepsAll(s, k, made, limit, e);
  }

  lemma TouchWithin(s: Items<Key, Client>, k: Key, made: Client, limit: nat)
    requires |s| <= limit
    ensures |Touch(s, k, made, limit)| <= limit
  {
  }

  lemma RemembersStep(p: Pools, calls: seq<Call>, call: Call, shards: int, cacheSize: int)
    requires 1 <= shards && Remembers(p, calls, shards, Max(1, cacheSize) * shards)
    ensures Remembers(Session(p, call.proxy, call.shard, shards, cacheSize), calls + [call], shards,
        Max(1, cacheSize) * shards)
  {
    hide Touch, Departed, IndexOf, KeyOf, Keys;
    var cap, key := Capacity(cacheSize, shards), KeyOf(call.proxy, call.shard, shards);
    NonNegative(Max(1, cacheSize) - 1, shards);
    assert (Max(1, cacheSize) - 1) * shards == Max(1, cacheSize) * shards - shards;
    assert cap == Max(1, cacheSize) * shards;
    TouchValid(p.jars, call.proxy, p.nextJar, Max(cap, 1));
    var q := JarPhase(p, call.proxy, cap);
    var made := Client(q.nextClient, call.proxy, Newer(q.jars));
    var t := Session(p, call.proxy, call.shard, shards, cacheSize);
    TouchWithin(p.clients, key, made, cap);
    if t.closed == [] {
      TouchRemembers(p.clients, key, made, cap);
    }
  }

  lemma {:induction false} RunRemembers(calls: seq<Call>, shards: int, cacheSize: int)
    requires 1 <= shards
    ensures Remembers(Run(calls, shards, cacheSize), calls, shards, Max(1, cacheSize) * shards)
  {
    hide Remembers, Session;
    if calls == [] {
      FreshRemembers(shards, cacheSize);
    } else {
      var n := |calls| - 1;
      RunRemembers(calls[..n], shards, cacheSize);
      RemembersStep(Run(calls[..n], shards, cacheSize), calls[..n], calls[n], shards, cacheSize);
      assert calls == calls[..n] + [calls[n]];
    }
  }

  lemma FreshRemembers(shards: int, cacheSize: int)
    requires 1 <= shards
    ensures Remembers(FRESH, [], shards, Max(1, cacheSize) * shards)
  {
    NonNegative(Max(1, cacheSize), shards);
  }

  /** One distinct client key more than the cache size times the shards, and a client has been
      evicted and closed. */
  lemma OneKeyMoreEvicts(calls: seq<Call>, keys: seq<Key>, shards: int, cacheSize: int)
    requires 1 <= shards && NoDup(keys) && |keys| > Max(1, cacheSize) * shards
    requires forall k | k in keys :: exists i :: 0 <= i < |calls| && k == KeyOf(calls[i].proxy, calls[i].shard, shards)
    ensures Run(calls, shards, cacheSize).closed != []
  {
    hide Run, KeyOf;
    RunRemembers(calls, shards, cacheSize);
    var p := Run(calls, shards, cacheSize);
    if p.closed == [] {
      Pigeonhole(keys, Keys(p.clients));
      assert false;
    }
  }
}
