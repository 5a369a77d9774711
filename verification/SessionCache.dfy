/** The client cache and the cookie-jar cache of the httpx downloader.

    Both are bounded LRU caches. A session call first touches the jar of the proxy and
    then the client of one shard of that proxy; a client keeps a reference to the jar it
    was built with. The point of the module is that no jar is evicted while a client
    built with it is still cached, so every live shard of a proxy shares one jar. */
module SessionCache {
  import opened Seqs

  datatype Entry<K, V> = Entry(key: K, val: V)

  /** An ordered dictionary as its items, oldest first. */
  type Items<K, V> = seq<Entry<K, V>>

  ghost predicate Unique<K, V>(s: Items<K, V>) {
    forall i, j | 0 <= i < j < |s| :: s[i].key != s[j].key
  }

  /** Position of `k`, or the length when it is absent. */
  function IndexOf<K(==), V>(s: Items<K, V>, k: K): (h: nat)
    ensures h <= |s|
    ensures h < |s| ==> s[h].key == k
    ensures forall i | 0 <= i < h :: s[i].key != k
  {
    if s == [] then 0 else if s[0].key == k then 0 else 1 + IndexOf(s[1..], k)
  }

  /** What get-or-create leaves behind: a hit only moves the entry to the newest end,
      a miss stores `made` and keeps the newest `limit` entries. */
  function Touch<K(==), V>(s: Items<K, V>, k: K, made: V, limit: nat): Items<K, V> {
    var h := IndexOf(s, k);
    if h < |s| then s[..h] + s[h + 1..] + [s[h]] else Newest(s + [Entry(k, made)], limit)
  }

  function Vals<K, V>(s: Items<K, V>): seq<V> {
    seq(|s|, i requires 0 <= i < |s| => s[i].val)
  }

  /** The values a get-or-create pushes out, oldest first. */
  function Departed<K(==), V>(s: Items<K, V>, k: K, made: V, limit: nat): seq<V> {
    var all := s + [Entry(k, made)];
    if IndexOf(s, k) < |s| || |all| <= limit then [] else Vals(all[..|all| - limit])
  }

  lemma TouchValid<K, V>(s: Items<K, V>, k: K, made: V, limit: nat)
    requires Unique(s) && 1 <= limit
    ensures Unique(Touch(s, k, made, limit))
    ensures var t := Touch(s, k, made, limit); t != [] && t[|t| - 1].key == k
    ensures |s| <= limit ==> |Touch(s, k, made, limit)| <= limit
  {
  }

  /** The cache object of the source. */
  class ProxyClientCache<K(==), V> {
    var items: Items<K, V>

    constructor ()
      ensures items == []
    {
      items := [];
    }

    /** `made` is the object the factory builds; it is used only on a miss. The objects
        handed back for closing are exactly those that left the cache, oldest first. */
    method GetOrCreate(k: K, made: V, capacity: int) returns (client: V, evicted: seq<V>)
      requires Unique(items)
      modifies this
      ensures Unique(items)
      ensures items == Touch(old(items), k, made, Max(capacity, 1))
      ensures items != [] && items[|items| - 1] == Entry(k, client)
      ensures evicted == Departed(old(items), k, made, Max(capacity, 1))
      ensures var h := IndexOf(old(items), k); client == if h < |old(items)| then old(items)[h].val else made
    {
      TouchValid(items, k, made, Max(capacity, 1));
      var h := IndexOf(items, k);
      if h < |items| {
        client := items[h].val;
        items := items[..h] + items[h + 1..] + [items[h]];
        return client, [];
      }
      client := made;
      items := items + [Entry(k, made)];
      evicted := Trim(Max(capacity, 1));
    }

    /** The eviction loop: pop the oldest entry until `limit` are left. */
    method Trim(limit: nat) returns (evicted: seq<V>)
      modifies this
      ensures items == Newest(old(items), limit)
      ensures evicted == Vals(old(items)[..|old(items)| - |items|])
    {
      evicted := [];
      while |items| > limit
        invariant |evicted| + |items| == |old(items)| && items == old(items)[|evicted|..]
        invariant |items| >= limit || evicted == []
        invariant forall i | 0 <= i < |evicted| :: evicted[i] == old(items)[i].val
      {
        evicted := evicted + [items[0].val];
        items := items[1..];
      }
    }

    method Drain() returns (vals: seq<V>)
      modifies this
      ensures items == []
      ensures |vals| == |old(items)| && forall i | 0 <= i < |vals| :: vals[i] == old(items)[i].val
    {
      vals := seq(|items|, i requires 0 <= i < |items| reads this => items[i].val);
      items := [];
    }
  }

  // ---------------------------------------------------------------- the two caches

  /** `None` is the direct connection. */
  type Proxy = Option<string>
  type Key = Option<string>

  /** A cookie jar is known by its identity. */
  type Jar = nat

  datatype Client = Client(id: nat, proxy: Proxy, jar: Jar)

  datatype Pools = Pools(jars: Items<Proxy, Jar>, clients: Items<Key, Client>, closed: seq<Client>,
                         nextJar: nat, nextClient: nat)

  const FRESH := Pools([], [], [], 0, 0)

  function Digit(d: nat): char
    requires d < 10
  {
    '0' + d as char
  }

  function Decimal(n: nat): string {
    if n < 10 then [Digit(n)] else Decimal(n / 10) + [Digit(n % 10)]
  }

  function Render(proxy: Proxy): string {
    if proxy.None? then "None" else proxy.value
  }

  /** One shard: the proxy itself; several shards: the text `proxy#index`. */
  function KeyOf(proxy: Proxy, shard: nat, shards: int): Key {
    if shards <= 1 then proxy else Some(Render(proxy) + "#" + Decimal(shard))
  }

  function Capacity(cacheSize: int, shards: int): (r: int)
    ensures shards >= 1 ==> r >= shards
  {
    assert shards >= 1 ==> (Max(cacheSize, 1) - 1) * shards >= 0;
    Max(cacheSize, 1) * shards
  }

  /** First half of a session call: touch (or make) the jar of the proxy. */
  function JarPhase(p: Pools, proxy: Proxy, cap: int): Pools {
    var miss := IndexOf(p.jars, proxy) == |p.jars|;
    p.(jars := Touch(p.jars, proxy, p.nextJar, Max(cap, 1)), nextJar := if miss then p.nextJar + 1 else p.nextJar)
  }

  /** Second half: touch (or build) the client, with the jar the first half returned. */
  function ClientPhase(p: Pools, proxy: Proxy, key: Key, jar: Jar, cap: int): Pools {
    var made := Client(p.nextClient, proxy, jar);
    var miss := IndexOf(p.clients, key) == |p.clients|;
    p.(clients := Touch(p.clients, key, made, Max(cap, 1)),
       closed := p.closed + Departed(p.clients, key, made, Max(cap, 1)),
       nextClient := if miss then p.nextClient + 1 else p.nextClient)
  }

  function Newer<K, V>(s: Items<K, V>): V
    requires s != []
  {
    s[|s| - 1].val
  }

  /** One session call: the jar is touched on every call, also when the client is a hit. */
  function Session(p: Pools, proxy: Proxy, shard: nat, shards: int, cacheSize: int): Pools
    requires Unique(p.jars)
  {
    var cap := Capacity(cacheSize, shards);
    var q := JarPhase(p, proxy, cap);
    TouchValid(p.jars, proxy, p.nextJar, Max(cap, 1));
    ClientPhase(q, proxy, KeyOf(proxy, shard, shards), Newer(q.jars), cap)
  }

  class HttpxDownloader {
    const cacheSize: int
    const jars: ProxyClientCache<Proxy, Jar>
    const clients: ProxyClientCache<Key, Client>
    var closed: seq<Client>
    var nextJar: nat
    var nextClient: nat

    constructor (cacheSize: int)
      ensures View() == FRESH && this.cacheSize == cacheSize
      ensures fresh(jars) && fresh(clients)
    {
      this.cacheSize := cacheSize;
      jars := new ProxyClientCache();
      clients := new ProxyClientCache();
      closed, nextJar, nextClient := [], 0, 0;
    }

    ghost function View(): Pools
      reads this, jars, clients
    {
      Pools(jars.items, clients.items, closed, nextJar, nextClient)
    }

    method SessionClient(proxy: Proxy, shard: nat, shards: int) returns (client: Client)
      requires Unique(jars.items) && Unique(clients.items)
      modifies this, jars, clients
      ensures Unique(jars.items) && Unique(clients.items)
      ensures View() == Session(old(View()), proxy, shard, shards, cacheSize)
      ensures clients.items != [] && client == Newer(clients.items)
    {
      hide Touch, Departed, KeyOf, Capacity;
      var key := KeyOf(proxy, shard, shards);
      var capacity := Capacity(cacheSize, shards);
      var newJar := IndexOf(jars.items, proxy) == |jars.items|;
      var newClient := IndexOf(clients.items, key) == |clients.items|;
      var jar, spare := jars.GetOrCreate(proxy, nextJar, capacity);
      assert jars.items == JarPhase(old(View()), proxy, capacity).jars;
      nextJar := if newJar then nextJar + 1 else nextJar;
      var evicted;
      client, evicted := clients.GetOrCreate(key, Client(nextClient, proxy, jar), capacity);
      nextClient := if newClient then nextClient + 1 else nextClient;
      closed := closed + evicted;
    }
  }

  // ---------------------------------------------------------------- key collisions

  lemma {:induction false} DecimalNoHash(n: nat)
    ensures Decimal(n) != [] && '#' !in Decimal(n)
  {
    if n >= 10 {
      DecimalNoHash(n / 10);
    }
  }

  function Value(s: string): int {
    if s == [] then 0 else 10 * Value(s[..|s| - 1]) + (s[|s| - 1] as int - '0' as int)
  }

  /** Reading a decimal back gives the number, so different indexes differ as text. */
  lemma {:induction false} DecimalRoundTrip(n: nat)
    ensures Value(Decimal(n)) == n
  {
    if n < 10 {
      assert Value(Decimal(n)[..0]) == 0;
    } else {
      DecimalRoundTrip(n / 10);
      var d := Decimal(n);
      assert d[..|d| - 1] == Decimal(n / 10);
    }
  }

  /** The text after the last `#` is determined: `a#m == b#n` splits one way only. */
  lemma SplitAtHash(a: string, m: string, b: string, n: string)
    requires '#' !in m && '#' !in n
    requires a + "#" + m == b + "#" + n
    ensures a == b && m == n
  {
    var x, y := a + "#" + m, b + "#" + n;
    assert x[|a|] == '#' && y[|b|] == '#';
    assert |a| == |b|;
    assert x[..|a|] == a && y[..|b|] == b;
    assert x[|a| + 1..] == m && y[|b| + 1..] == n;
  }

  /** Two shards share a cache key exactly when they are the same shard of the same
      proxy, or when one is the direct connection and the other a proxy named "None". */
  lemma KeyCollision(p: Proxy, i: nat, q: Proxy, j: nat, shards: int)
    requires shards > 1
    ensures KeyOf(p, i, shards) == KeyOf(q, j, shards) <==>
            i == j && (p == q || (p == None && q == Some("None")) || (q == None && p == Some("None")))
  {
    if KeyOf(p, i, shards) == KeyOf(q, j, shards) {
      DecimalNoHash(i);
      DecimalNoHash(j);
      SplitAtHash(Render(p), Decimal(i), Render(q), Decimal(j));
      DecimalRoundTrip(i);
      DecimalRoundTrip(j);
    }
  }
}
