/** Every run of session calls keeps all live shards of a proxy on one cookie jar. */
module SessionSharing {
  import opened Seqs
  import opened SessionCache

  // ------------------------------------------------ the order argument, on plain sequences

  /** `v` occurs in `s` at position `lo` or later. */
  ghost predicate From<T>(s: seq<T>, lo: int, v: T) {
    exists b :: lo <= b < |s| && 0 <= b && s[b] == v
  }

  /** `jars` and `used` are proxies oldest first; `used` lists the proxy of every cached
      client. Whenever a jar is newer than the jar of a client, some newer client uses it. */
  ghost predicate Covers<T>(jars: seq<T>, used: seq<T>) {
    && (forall a | 0 <= a < |used| :: From(jars, 0, used[a]))
    && (forall a, x, y | 0 <= a < |used| && 0 <= x < y < |jars| && used[a] == jars[x] :: From(used, a + 1, jars[y]))
  }

  lemma CoversAt<T>(jars: seq<T>, used: seq<T>, a: nat, x: nat, y: nat) returns (b: nat)
    requires Covers(jars, used) && a < |used| && x < y < |jars| && used[a] == jars[x]
    ensures a < b < |used| && used[b] == jars[y]
  {
    assert From(used, a + 1, jars[y]);
    b :| a + 1 <= b < |used| && used[b] == jars[y];
  }

  /** `t` is `s` with position `h` moved to the end, or with `p` appended when `h` is the length. */
  ghost predicate Moved<T>(s: seq<T>, h: nat, p: T, t: seq<T>) {
    && h <= |s| && |t| == (if h < |s| then |s| else |s| + 1) && t[|t| - 1] == p
    && (forall i | 0 <= i < h :: t[i] == s[i])
    && (forall i | h < i < |s| :: t[i - 1] == s[i])
    && (h < |s| ==> s[h] == p)
  }

  lemma MovedBack<T>(s: seq<T>, h: nat, p: T, t: seq<T>, i: nat) returns (k: nat)
    requires Moved(s, h, p, t) && i < |t| - 1
    ensures k == (if i < h then i else i + 1) && k < |s| && k != h && t[i] == s[k]
  {
    k := if i < h then i else i + 1;
  }

  lemma MovedOn<T>(s: seq<T>, h: nat, p: T, t: seq<T>, k: nat) returns (i: nat)
    requires Moved(s, h, p, t) && k < |s| && k != h
    ensures i == (if k < h then k else k - 1) && i < |t| - 1 && t[i] == s[k]
  {
    i := if k < h then k else k - 1;
  }

  lemma MovedEnd<T>(s: seq<T>, h: nat, p: T, t: seq<T>)
    requires Moved(s, h, p, t)
    ensures t != [] && t[|t| - 1] == p && (h < |s| ==> s[h] == p)
  {
  }

  lemma CoversMoved<T>(jars: seq<T>, used: seq<T>, g: nat, h: nat, p: T, jars': seq<T>, used': seq<T>)
    requires Covers(jars, used) && Moved(jars, g, p, jars') && Moved(used, h, p, used')
    requires forall x | 0 <= x < |jars| && x != g :: jars[x] != p
    ensures Covers(jars', used')
  {
    forall a | 0 <= a < |used'| ensures From(jars', 0, used'[a]) {
      MovedStillFrom(jars, used, g, h, p, jars', used', a);
    }
    forall a, x, y | 0 <= a < |used'| && 0 <= x < y < |jars'| && used'[a] == jars'[x]
      ensures From(used', a + 1, jars'[y])
    {
      var x0 := MovedBack(jars, g, p, jars', x);
      CoversMovedPair(jars, used, g, h, p, jars', used', a, x, y);
    }
  }

  lemma MovedStillFrom<T>(jars: seq<T>, used: seq<T>, g: nat, h: nat, p: T, jars': seq<T>, used': seq<T>, a: nat)
    requires Covers(jars, used) && Moved(jars, g, p, jars') && Moved(used, h, p, used') && a < |used'|
    ensures From(jars', 0, used'[a])
  {
    hide Moved;
    MovedEnd(used, h, p, used');
    MovedEnd(jars, g, p, jars');
    if used'[a] == p {
      assert jars'[|jars'| - 1] == p;
    } else {
      var k := MovedBack(used, h, p, used', a);
      assert From(jars, 0, used[k]);
      var x :| 0 <= x < |jars| && jars[x] == used[k];
      var i := MovedOn(jars, g, p, jars', x);
    }
  }

  lemma CoversMovedPair<T>(jars: seq<T>, used: seq<T>, g: nat, h: nat, p: T, jars': seq<T>, used': seq<T>,
                           a: nat, x: nat, y: nat)
    requires Covers(jars, used) && Moved(jars, g, p, jars') && Moved(used, h, p, used')
    requires forall i | 0 <= i < |jars| && i != g :: jars[i] != p
    requires a < |used'| && x < y < |jars'| && used'[a] == jars'[x] && used'[a] != p
    ensures From(used', a + 1, jars'[y])
  {
    hide Moved, Covers;
    MovedEnd(used, h, p, used');
    MovedEnd(jars, g, p, jars');
    var a0 := MovedBack(used, h, p, used', a);
    var x0 := MovedBack(jars, g, p, jars', x);
    if jars'[y] != p {
      var y0 := MovedBack(jars, g, p, jars', y);
      var b := CoversAt(jars, used, a0, x0, y0);
      var c := MovedOn(used, h, p, used', b);
    }
  }

  /** Trimming both orders to the same bound keeps the cover: a jar leaves only if so many
      newer jars exist that the clients covering them push the client of that jar out too. */
  lemma CoversTrim<T>(jars: seq<T>, used: seq<T>, limit: nat)
    requires Covers(jars, used) && NoDup(jars)
    ensures Covers(Newest(jars, limit), Newest(used, limit))
  {
    var js, us := Newest(jars, limit), Newest(used, limit);
    var dj, du := |jars| - |js|, |used| - |us|;
    assert js == jars[dj..] && us == used[du..];
    forall a | 0 <= a < |us| ensures From(js, 0, us[a]) {
      TrimKeepsJar(jars, used, dj, du, a);
    }
    forall a, x, y | 0 <= a < |us| && 0 <= x < y < |js| && us[a] == js[x]
      ensures From(us, a + 1, js[y])
    {
      var b := CoversAt(jars, used, a + du, x + dj, y + dj);
      assert us[b - du] == js[y];
    }
  }

  lemma TrimKeepsJar<T>(jars: seq<T>, used: seq<T>, dj: nat, du: nat, a: nat)
    requires Covers(jars, used) && NoDup(jars) && dj <= |jars| && du + a < |used|
    requires dj == 0 || |used| - du <= |jars| - dj
    ensures From(jars[dj..], 0, used[du + a])
  {
    assert From(jars, 0, used[du + a]);
    var x :| 0 <= x < |jars| && jars[x] == used[du + a];
    NewerJarsCounted(jars, used, du + a, x);
    assert jars[dj..][x - dj] == jars[x];
  }

  lemma NewerJarsCounted<T>(jars: seq<T>, used: seq<T>, a: nat, x: nat)
    requires Covers(jars, used) && NoDup(jars)
    requires a < |used| && x < |jars| && used[a] == jars[x]
    ensures |jars| - x <= |used| - a
  {
    var s, t := jars[x + 1..], used[a + 1..];
    forall i | 0 <= i < |s| ensures s[i] in t {
      var b := CoversAt(jars, used, a, x, x + 1 + i);
      assert t[b - a - 1] == s[i];
    }
    Pigeonhole(s, t);
  }

  // ------------------------------------------------ the invariant of the two caches

  function Used(s: Items<Key, Client>): seq<Proxy> {
    seq(|s|, i requires 0 <= i < |s| => s[i].val.proxy)
  }

  function Keys<K, V>(s: Items<K, V>): seq<K> {
    seq(|s|, i requires 0 <= i < |s| => s[i].key)
  }

  /** With several shards the direct connection and a proxy named "None" collide (see
      KeyCollision); `absent` is the one of the two that is never asked for. */
  predicate Allowed(proxy: Proxy, shards: int, absent: Proxy) {
    shards <= 1 || (absent in {None, Some("None")} && proxy != absent)
  }

  /** `key` is the cache key of some shard of `proxy`. */
  ghost predicate KeyedBy(key: Key, proxy: Proxy, shards: int) {
    exists shard: nat :: key == KeyOf(proxy, shard, shards)
  }

  /** Every cached client's jar is still cached, and it is the jar of that proxy. */
  ghost predicate Shared(p: Pools) {
    forall i | 0 <= i < |p.clients| :: Entry(p.clients[i].val.proxy, p.clients[i].val.jar) in p.jars
  }

  ghost predicate Inv(p: Pools, shards: int, cap: nat, absent: Proxy) {
    && Unique(p.jars) && Unique(p.clients) && |p.jars| <= cap && |p.clients| <= cap
    && Covers(Keys(p.jars), Used(p.clients))
    && (forall c, e | c in p.clients && e in p.jars :: e.key == c.val.proxy ==> e.val == c.val.jar)
    && (forall c | c in p.clients :: Allowed(c.val.proxy, shards, absent) && KeyedBy(c.key, c.val.proxy, shards))
  }

  lemma InvShared(p: Pools, shards: int, cap: nat, absent: Proxy)
    requires Inv(p, shards, cap, absent)
    ensures Shared(p)
  {
    forall i | 0 <= i < |p.clients| ensures Entry(p.clients[i].val.proxy, p.clients[i].val.jar) in p.jars {
      assert From(Keys(p.jars), 0, Used(p.clients)[i]);
      var j :| 0 <= j < |p.jars| && Keys(p.jars)[j] == Used(p.clients)[i];
      assert p.clients[i] in p.clients && p.jars[j] in p.jars;
    }
  }

  /** A cache hit returns a client of the proxy that was asked for. */
  lemma HitIsSameProxy(p: Pools, h: nat, proxy: Proxy, shard: nat, shards: int, cap: nat, absent: Proxy)
    requires Inv(p, shards, cap, absent) && Allowed(proxy, shards, absent)
    requires h < |p.clients| && p.clients[h].key == KeyOf(proxy, shard, shards)
    ensures p.clients[h].val.proxy == proxy
  {
    assert p.clients[h] in p.clients;
    var s: nat :| p.clients[h].key == KeyOf(p.clients[h].val.proxy, s, shards);
    if shards > 1 {
      KeyCollision(proxy, shard, p.clients[h].val.proxy, s, shards);
    }
  }

  lemma TouchKeys<K, V>(s: Items<K, V>, k: K, made: V, limit: nat) returns (t: seq<K>)
    requires |s| <= limit
    ensures Moved(Keys(s), IndexOf(s, k), k, t) && Keys(Touch(s, k, made, limit)) == Newest(t, limit)
  {
    var h := IndexOf(s, k);
    t := Keys(if h < |s| then s[..h] + s[h + 1..] + [s[h]] else s + [Entry(k, made)]);
  }

  lemma TouchUsed(s: Items<Key, Client>, k: Key, made: Client, limit: nat) returns (t: seq<Proxy>)
    requires |s| <= limit
    requires var h := IndexOf(s, k); h < |s| ==> s[h].val.proxy == made.proxy
    ensures Moved(Used(s), IndexOf(s, k), made.proxy, t) && Used(Touch(s, k, made, limit)) == Newest(t, limit)
  {
    var h := IndexOf(s, k);
    t := Used(if h < |s| then s[..h] + s[h + 1..] + [s[h]] else s + [Entry(k, made)]);
  }

  lemma MovedNoDup<T>(s: seq<T>, h: nat, p: T, t: seq<T>)
    requires NoDup(s) && Moved(s, h, p, t) && forall x | 0 <= x < |s| && x != h :: s[x] != p
    ensures NoDup(t)
  {
    forall i, j | 0 <= i < j < |t| ensures t[i] != t[j] {
      var i0 := MovedBack(s, h, p, t, i);
      if j < |t| - 1 {
        var j0 := MovedBack(s, h, p, t, j);
      }
    }
  }

  lemma TouchCovers(jars: Items<Proxy, Jar>, clients: Items<Key, Client>, key: Key, jar: Jar, made: Client, cap: nat)
    requires Unique(jars) && |jars| <= cap && |clients| <= cap && Covers(Keys(jars), Used(clients))
    requires var h := IndexOf(clients, key); h < |clients| ==> clients[h].val.proxy == made.proxy
    ensures Covers(Keys(Touch(jars, made.proxy, jar, cap)), Used(Touch(clients, key, made, cap)))
  {
    var js := TouchKeys(jars, made.proxy, jar, cap);
    var us := TouchUsed(clients, key, made, cap);
    var g := IndexOf(jars, made.proxy);
    MovedNoDup(Keys(jars), g, made.proxy, js);
    CoversMoved(Keys(jars), Used(clients), g, IndexOf(clients, key), made.proxy, js, us);
    CoversTrim(js, us, cap);
  }

  lemma TouchMembers<K, V>(s: Items<K, V>, k: K, made: V, limit: nat, e: Entry<K, V>)
    requires e in Touch(s, k, made, limit)
    ensures e in s || (e == Entry(k, made) && IndexOf(s, k) == |s|)
  {
  }

  /** The object a session call works with: the cached one, or the new one on a miss. */
  lemma TouchReturns<K, V>(s: Items<K, V>, k: K, made: V, limit: nat)
    requires Unique(s) && 1 <= limit
    ensures var t := Touch(s, k, made, limit);
            t != [] && t[|t| - 1] == Entry(k, Newer(t)) &&
            var h := IndexOf(s, k); Newer(t) == if h < |s| then s[h].val else made
  {
  }

  lemma ClientHasJar(p: Pools, shards: int, cap: nat, absent: Proxy, c: Entry<Key, Client>)
    requires Inv(p, shards, cap, absent) && c in p.clients
    ensures IndexOf(p.jars, c.val.proxy) < |p.jars|
  {
    var i :| 0 <= i < |p.clients| && p.clients[i] == c;
    assert From(Keys(p.jars), 0, Used(p.clients)[i]);
    var j :| 0 <= j < |p.jars| && Keys(p.jars)[j] == Used(p.clients)[i];
    assert p.jars[j].key == c.val.proxy;
  }

  lemma SessionConsistent(p: Pools, proxy: Proxy, shards: int, cap: nat, absent: Proxy, key: Key)
    requires Inv(p, shards, cap, absent) && 1 <= cap
    ensures var jars := Touch(p.jars, proxy, p.nextJar, cap);
            jars != [] &&
            var clients := Touch(p.clients, key, Client(p.nextClient, proxy, Newer(jars)), cap);
            forall c, e | c in clients && e in jars :: e.key == c.val.proxy ==> e.val == c.val.jar
  {
    var jars := Touch(p.jars, proxy, p.nextJar, cap);
    TouchReturns(p.jars, proxy, p.nextJar, cap);
    TouchValid(p.jars, proxy, p.nextJar, cap);
    var made := Client(p.nextClient, proxy, Newer(jars));
    var clients := Touch(p.clients, key, made, cap);
    forall c, e | c in clients && e in jars && e.key == c.val.proxy ensures e.val == c.val.jar {
      TouchMembers(p.clients, key, made, cap, c);
      if c in p.clients {
        ClientHasJar(p, shards, cap, absent, c);
        TouchMembers(p.jars, proxy, p.nextJar, cap, e);
      } else {
        assert e == jars[|jars| - 1];
      }
    }
  }

  lemma TouchBothInv(p: Pools, proxy: Proxy, shard: nat, shards: int, cap: nat, absent: Proxy)
    requires 1 <= cap && Allowed(proxy, shards, absent) && Inv(p, shards, cap, absent)
    ensures var jars := Touch(p.jars, proxy, p.nextJar, cap);
            jars != [] &&
            var key := KeyOf(proxy, shard, shards);
            var clients := Touch(p.clients, key, Client(p.nextClient, proxy, Newer(jars)), cap);
            Inv(p.(jars := jars, clients := clients), shards, cap, absent) &&
            clients != [] && Newer(clients).proxy == proxy && Newer(clients).jar == Newer(jars)
  {
    hide Covers, Touch, KeyOf;
    var key := KeyOf(proxy, shard, shards);
    var jars := Touch(p.jars, proxy, p.nextJar, cap);
    TouchValid(p.jars, proxy, p.nextJar, cap);
    var made := Client(p.nextClient, proxy, Newer(jars));
    var clients := Touch(p.clients, key, made, cap);
    TouchValid(p.clients, key, made, cap);
    TouchReturns(p.clients, key, made, cap);
    TouchReturns(p.jars, proxy, p.nextJar, cap);
    var h := IndexOf(p.clients, key);
    if h < |p.clients| {
      HitIsSameProxy(p, h, proxy, shard, shards, cap, absent);
    }
    TouchCovers(p.jars, p.clients, key, p.nextJar, made, cap);
    SessionConsistent(p, proxy, shards, cap, absent, key);
    assert forall c | c in clients :: Allowed(c.val.proxy, shards, absent) && KeyedBy(c.key, c.val.proxy, shards) by {
      forall c | c in clients ensures Allowed(c.val.proxy, shards, absent) && KeyedBy(c.key, c.val.proxy, shards) {
        TouchMembers(p.clients, key, made, cap, c);
      }
    }
    assert clients[|clients| - 1] in clients && jars[|jars| - 1] in jars;
  }

  /** One session call keeps the invariant and returns a client of the requested proxy that
      carries the cached jar of that proxy. */
  lemma SessionStep(p: Pools, proxy: Proxy, shard: nat, shards: int, cacheSize: int, absent: Proxy)
    requires 1 <= shards && Allowed(proxy, shards, absent)
    requires Inv(p, shards, Capacity(cacheSize, shards), absent)
    ensures var q := Session(p, proxy, shard, shards, cacheSize);
            Inv(q, shards, Capacity(cacheSize, shards), absent) && q.clients != [] && q.jars != [] &&
            Newer(q.clients).proxy == proxy && Newer(q.clients).jar == Newer(q.jars)
  {
    var cap := Capacity(cacheSize, shards);
    assert Max(cap, 1) == cap;
    TouchBothInv(p, proxy, shard, shards, cap, absent);
  }

  // ------------------------------------------------ whole runs

  datatype Call = Call(proxy: Proxy, shard: nat)

  /** The state after a run of session calls on a fresh downloader. */
  ghost function Run(calls: seq<Call>, shards: int, cacheSize: int): (p: Pools)
    ensures Unique(p.jars)
  {
    if calls == [] then FRESH
    else
      var n := |calls| - 1;
      var p := Run(calls[..n], shards, cacheSize);
      TouchValid(p.jars, calls[n].proxy, p.nextJar, Max(Capacity(cacheSize, shards), 1));
      Session(p, calls[n].proxy, calls[n].shard, shards, cacheSize)
  }

  lemma {:induction false} RunInv(calls: seq<Call>, shards: int, cacheSize: int, absent: Proxy)
    requires 1 <= shards && forall i | 0 <= i < |calls| :: Allowed(calls[i].proxy, shards, absent)
    ensures Inv(Run(calls, shards, cacheSize), shards, Capacity(cacheSize, shards), absent)
  {
    hide Inv, Session, Allowed, Capacity;
    if calls == [] {
      FreshInv(shards, Capacity(cacheSize, shards), absent);
    } else {
      var n := |calls| - 1;
      RunInv(calls[..n], shards, cacheSize, absent);
      SessionStep(Run(calls[..n], shards, cacheSize), calls[n].proxy, calls[n].shard, shards, cacheSize, absent);
    }
  }

  lemma FreshInv(shards: int, cap: nat, absent: Proxy)
    ensures Inv(FRESH, shards, cap, absent)
  {
  }

  lemma SharedPair(p: Pools, i: nat, j: nat)
    requires Shared(p) && Unique(p.jars) && i < |p.clients| && j < |p.clients|
    requires p.clients[i].val.proxy == p.clients[j].val.proxy
    ensures p.clients[i].val.jar == p.clients[j].val.jar
    ensures Entry(p.clients[i].val.proxy, p.clients[i].val.jar) in p.jars
  {
  }

  // ------------------------------------------------ no client leaks

  function Ids(s: seq<Client>): seq<nat> {
    seq(|s|, i requires 0 <= i < |s| => s[i].id)
  }

  /** Every client ever built is either cached or closed, and never both: the identities
      of the closed and the cached clients are the numbers below `nextClient`, once each. */
  ghost predicate Accounted(p: Pools) {
    var ids := Ids(p.closed + Vals(p.clients));
    |ids| == p.nextClient && NoDup(ids) && forall i | 0 <= i < |ids| :: ids[i] < p.nextClient
  }

  lemma PhaseHit(p: Pools, proxy: Proxy, key: Key, jar: Jar, cap: int)
    requires IndexOf(p.clients, key) < |p.clients|
    ensures
      var q, h := ClientPhase(p, proxy, key, jar, cap), IndexOf(p.clients, key);
      && q.clients == p.clients[..h] + p.clients[h + 1..] + [p.clients[h]]
      && q.closed == p.closed && q.nextClient == p.nextClient
  {
    hide IndexOf, Vals;
  }

  lemma PhaseMiss(p: Pools, proxy: Proxy, key: Key, jar: Jar, cap: int)
    requires IndexOf(p.clients, key) == |p.clients|
    ensures
      var q := ClientPhase(p, proxy, key, jar, cap);
      var all := p.clients + [Entry(key, Client(p.nextClient, proxy, jar))];
      && q.clients == Newest(all, Max(cap, 1)) && q.nextClient == p.nextClient + 1
      && q.closed == p.closed + Vals(all[..|all| - |q.clients|])
  {
    hide IndexOf;
  }

  lemma AccountedStep(p: Pools, proxy: Proxy, key: Key, jar: Jar, cap: int)
    requires Accounted(p)
    ensures Accounted(ClientPhase(p, proxy, key, jar, cap))
  {
    hide ClientPhase, IndexOf, Ids, Vals, Newest, NoDup;
    var q := ClientPhase(p, proxy, key, jar, cap);
    var h := IndexOf(p.clients, key);
    var was, now := Ids(p.closed + Vals(p.clients)), Ids(q.closed + Vals(q.clients));
    if h < |p.clients| {
      PhaseHit(p, proxy, key, jar, cap);
      HitAccount(p, q, h);
    } else {
      PhaseMiss(p, proxy, key, jar, cap);
      AppendedIds(p, q, Entry(key, Client(p.nextClient, proxy, jar)), Max(cap, 1));
      AppendKeepsAccount(was, p.nextClient);
    }
  }

  lemma HitAccount(p: Pools, q: Pools, h: nat)
    requires Accounted(p) && h < |p.clients| && q.closed == p.closed && q.nextClient == p.nextClient
    requires q.clients == p.clients[..h] + p.clients[h + 1..] + [p.clients[h]]
    ensures Accounted(q)
  {
    hide NoDup, Moved;
    MovedIds(p, q, h);
    var was, now := Ids(p.closed + Vals(p.clients)), Ids(q.closed + Vals(q.clients));
    MovedKeepsAccount(was, |p.closed| + h, now, p.nextClient);
  }

  lemma AppendKeepsAccount(was: seq<nat>, n: nat)
    requires |was| == n && NoDup(was) && forall i | 0 <= i < |was| :: was[i] < n
    ensures |was + [n]| == n + 1 && NoDup(was + [n]) && forall i | 0 <= i < |was + [n]| :: (was + [n])[i] < n + 1
  {
  }

  lemma MovedKeepsAccount(was: seq<nat>, at: nat, now: seq<nat>, n: nat)
    requires at < |was| && Moved(was, at, was[at], now) && NoDup(was) && forall i | 0 <= i < |was| :: was[i] < n
    ensures NoDup(now) && forall i | 0 <= i < |now| :: now[i] < n
  {
    MovedNoDup(was, at, was[at], now);
    forall i | 0 <= i < |now| ensures now[i] < n {
      if i < |now| - 1 {
        var k := MovedBack(was, at, was[at], now, i);
      }
    }
  }

  lemma AppendedIds(p: Pools, q: Pools, e: Entry<Key, Client>, limit: nat)
    requires var all := p.clients + [e];
             q.clients == Newest(all, limit) && q.closed == p.closed + Vals(all[..|all| - |q.clients|])
    ensures Ids(q.closed + Vals(q.clients)) == Ids(p.closed + Vals(p.clients)) + [e.val.id]
  {
  }

  lemma MovedIds(p: Pools, q: Pools, h: nat)
    requires h < |p.clients| && q.closed == p.closed
    requires q.clients == p.clients[..h] + p.clients[h + 1..] + [p.clients[h]]
    ensures var was := Ids(p.closed + Vals(p.clients));
            Moved(was, |p.closed| + h, was[|p.closed| + h], Ids(q.closed + Vals(q.clients)))
  {
  }

  /** Over any run no client leaks: each one built is still cached or has been closed. */
  lemma {:induction false} NoClientLeaks(calls: seq<Call>, shards: int, cacheSize: int)
    ensures Accounted(Run(calls, shards, cacheSize))
  {
    if calls != [] {
      var n := |calls| - 1;
      NoClientLeaks(calls[..n], shards, cacheSize);
      var c, cap := calls[n], Capacity(cacheSize, shards);
      var p := JarPhase(Run(calls[..n], shards, cacheSize), c.proxy, cap);
      TouchValid(Run(calls[..n], shards, cacheSize).jars, c.proxy, Run(calls[..n], shards, cacheSize).nextJar,
          Max(cap, 1));
      AccountedStep(p, c.proxy, KeyOf(c.proxy, c.shard, shards), Newer(p.jars), cap);
    }
  }
}
