/** The rotating proxy pool: who is handed out, in which order, and how often. */
module ProxyPool {
  import opened Seqs
  import opened ProxyBans

  /** The clock readings of one call, in the order in which it takes them. */
  type Clock = nat -> real

  datatype State = State(pool: seq<string>, use: map<string, nat>, books: Books)

  function Use(s: State, p: string): nat {
    if p in s.use then s.use[p] else 0
  }

  function Normalize(proxy: string): string {
    if AfterScheme(proxy).Some? then proxy else "http://" + proxy
  }

  /** Remove the first occurrence. */
  function Drop(s: seq<string>, p: string): seq<string> {
    if s == [] then [] else if s[0] == p then s[1..] else [s[0]] + Drop(s[1..], p)
  }

  lemma {:induction false} DropLast(s: seq<string>, p: string)
    requires p !in s
    ensures Drop(s + [p], p) == s
  {
    if s != [] {
      assert (s + [p])[1..] == s[1..] + [p];
      DropLast(s[1..], p);
    }
  }

  lemma {:induction false} DropKeepsNoDup(s: seq<string>, p: string)
    requires NoDup(s)
    ensures NoDup(Drop(s, p)) && p !in Drop(s, p)
    ensures forall q | q != p :: q in Drop(s, p) <==> q in s
  {
    if s != [] && s[0] != p {
      assert NoDup(s[1..]) by {
        forall i, j | 0 <= i < j < |s[1..]| ensures s[1..][i] != s[1..][j] {
          assert s[1..][i] == s[i + 1] && s[1..][j] == s[j + 1];
        }
      }
      DropKeepsNoDup(s[1..], p);
      assert s[0] !in Drop(s[1..], p);
      ConsNoDup(s[0], Drop(s[1..], p));
    }
  }

  lemma ConsNoDup(x: string, s: seq<string>)
    requires NoDup(s) && x !in s
    ensures NoDup([x] + s)
  {
  }

  // ---------------------------------------------------------------- taking a proxy

  /** Position of the first proxy, from `i` on, that is not banned when the call looks at it. */
  function FirstFree(b: Books, pool: seq<string>, clock: Clock, i: nat): (j: nat)
    requires i <= |pool|
    ensures i <= j <= |pool|
    ensures forall k | i <= k < j :: Banned(b, pool[k], clock(k))
    ensures j < |pool| ==> !Banned(b, pool[j], clock(j))
    decreases |pool| - i
  {
    if i == |pool| || !Banned(b, pool[i], clock(i)) then i else FirstFree(b, pool, clock, i + 1)
  }

  /** The books after the call asked about the first `n` proxies. */
  function Asked(b: Books, pool: seq<string>, clock: Clock, n: nat): Books
    requires n <= |pool|
  {
    if n == 0 then b else Checked(Asked(b, pool, clock, n - 1), pool[n - 1], clock(n - 1))
  }

  /** Asking about some proxies tells nothing new about the others. */
  lemma {:induction false} AskedKeeps(b: Books, pool: seq<string>, clock: Clock, n: nat, key: string, t: real)
    requires n <= |pool| && forall i | 0 <= i < n :: pool[i] != key
    ensures Ban(Asked(b, pool, clock, n), key, t) == Ban(b, key, t)
  {
    if n > 0 {
      AskedKeeps(b, pool, clock, n - 1, key, t);
    }
  }

  function Found(s: State, clock: Clock): (j: nat)
    ensures j <= |s.pool|
  {
    FirstFree(s.books, s.pool, clock, 0)
  }

  /** What one call hands out: the first free proxy in rotation order. */
  function Handed(s: State, clock: Clock): Option<string> {
    var j := Found(s, clock);
    if j == |s.pool| then None else Some(s.pool[j])
  }

  /** What one call leaves: the banned ones it met are gone, the one handed out is last, or gone
      when it has been used often enough. */
  function Got(s: State, clock: Clock, maxUse: int): State {
    var j := Found(s, clock);
    if j == |s.pool| then State([], s.use, Asked(s.books, s.pool, clock, j))
    else
      var p := s.pool[j];
      var n := Use(s, p) + 1;
      State(s.pool[j + 1..] + (if n >= maxUse then [] else [p]), s.use[p := n], Asked(s.books, s.pool, clock, j + 1))
  }

  lemma GotFound(s: State, clock: Clock, maxUse: int, j: nat)
    requires j == FirstFree(s.books, s.pool, clock, 0) < |s.pool|
    ensures
      var p := s.pool[j];
      var n := (if p in s.use then s.use[p] else 0) + 1;
      && Handed(s, clock) == Some(p)
      && Got(s, clock, maxUse)
         == State(s.pool[j + 1..] + (if n >= maxUse then [] else [p]), s.use[p := n],
             Asked(s.books, s.pool, clock, j + 1))
  {
    hide Asked, Banned, FirstFree;
  }

  lemma GotNone(s: State, clock: Clock, maxUse: int)
    requires FirstFree(s.books, s.pool, clock, 0) == |s.pool|
    ensures Handed(s, clock) == None
        && Got(s, clock, maxUse) == State([], s.use, Asked(s.books, s.pool, clock, |s.pool|))
  {
    hide Asked, Banned, FirstFree;
  }

  /** A refill appends what is neither banned nor present. */
  function Refilled(s: State, offered: seq<string>, clock: Clock, n: nat): State
    requires n <= |offered|
  {
    if n == 0 then s
    else
      var r := Refilled(s, offered, clock, n - 1);
      var p := offered[n - 1];
      var b := Checked(r.books, p, clock(n - 1));
      if Banned(r.books, p, clock(n - 1)) || p in r.pool then r.(books := b)
      else State(r.pool + [p], r.use, b)
  }

  /** Keys whose use count no longer matters: neither in the pool nor banned. */
  function Retired(use: map<string, nat>, pool: seq<string>, banned: map<string, Until>): set<string> {
    set k | k in use && k !in pool && k !in banned
  }

  function Pruned(l: Limits, s: State, now: real): State {
    var b := Prune(l, s.books, now);
    State(s.pool, s.use - Retired(s.use, s.pool, b.banned), b)
  }

  function Reported(l: Limits, s: State, proxy: string, now: real): State {
    State(Drop(s.pool, Raw(proxy)), s.use, Bad(l, s.books, proxy, now))
  }

  /** The pool of the running program. */
  class ApiProxyPool {
    const limits: Limits
    const maxUse: int
    var pool: seq<string>
    var useCount: map<string, nat>
    var books: Books

    constructor (limits: Limits, maxUse: int)
      ensures View() == State([], map[], NO_BOOKS) && this.limits == limits && this.maxUse == maxUse
    {
      this.limits, this.maxUse := limits, maxUse;
      pool, useCount, books := [], map[], NO_BOOKS;
    }

    function View(): State
      reads this
    {
      State(pool, useCount, books)
    }

    ghost predicate Valid()
      reads this
    {
      NoDup(pool)
    }

    /** Whether a ban still holds; an ended one is forgotten on the way. */
    method IsBanned(proxy: string, now: real) returns (banned: bool)
      modifies this`books
      ensures banned == Banned(old(books), proxy, now)
      ensures books == Checked(old(books), proxy, now)
    {
      if proxy !in books.banned {
        return false;
      }
      if Active(books.banned[proxy], now) {
        return true;
      }
      books := books.(banned := books.banned - {proxy});
      return false;
    }

    /** Hand out the next proxy: rotate, drop the banned, count the use, drop the worn out. */
    method GetProxy(clock: Clock) returns (r: Option<string>)
      requires Valid()
      modifies this`pool, this`useCount, this`books
      ensures Valid()
      ensures View() == Got(old(View()), clock, maxUse)
      ensures r == (var p := Handed(old(View()), clock); if p.Some? then Some(Normalize(p.value)) else None)
    {
      hide Checked, Ban, Banned, Normalize, NoDup, Drop, Asked, FirstFree, Got, Handed;
      ghost var before := View();
      var n := |pool|;
      ghost var was, b := pool, books;
      LookedAtNone(b, was, clock);
      GotNoDup(View(), clock, maxUse);
      for i := 0 to n
        invariant pool == was[i..] && useCount == old(useCount)
        invariant books == Asked(b, was, clock, i)
        invariant FirstFree(b, was, clock, 0) == FirstFree(b, was, clock, i)
      {
        var proxy := pool[0];
        var rest := pool[1..];
        pool := rest + [proxy];
        LookAt(b, was, clock, i);
        var banned := IsBanned(proxy, clock(i));
        if banned {
          pool := Drop(pool, proxy);
          continue;
        }
        var used := (if proxy in useCount then useCount[proxy] else 0) + 1;
        useCount := useCount[proxy := used];
        if used >= maxUse {
          pool := Drop(pool, proxy);
        }
        r := Some(Normalize(proxy));
        GotFound(before, clock, maxUse, i);
        assert pool == Got(before, clock, maxUse).pool;
        return;
      }
      GotNone(before, clock, maxUse);
      r := None;
    }

    /** The last part of a fetch: put the offered proxies at the end of the pool. */
    method Refill(offered: seq<string>, clock: Clock)
      requires Valid()
      modifies this`pool, this`books
      ensures Valid()
      ensures View() == Refilled(old(View()), offered, clock, |offered|)
    {
      hide Checked, Banned;
      for i := 0 to |offered|
        invariant Valid() && useCount == old(useCount)
        invariant View() == Refilled(old(View()), offered, clock, i)
      {
        var banned := IsBanned(offered[i], clock(i));
        if !banned && offered[i] !in pool {
          pool := pool + [offered[i]];
        }
      }
    }

    /** Delete what no longer matters, dictionary by dictionary. */
    method PruneBooks(now: real)
      modifies this`useCount, this`books
      ensures View() == Pruned(limits, old(View()), now)
    {
      hide Active, Stale, Retired, Expired;
      var banned := WithoutExpired(books.banned, now);
      var fails := WithoutStale(books.fails, now, limits.banMax);
      var suspects := WithoutStale(books.suspects, now, limits.banMax);
      books := Books(banned, fails, suspects);
      ForgetUses();
    }

    method ForgetUses()
      modifies this`useCount
      ensures useCount == old(useCount) - Retired(old(useCount), pool, books.banned)
    {
      ghost var was := useCount;
      var keys := useCount.Keys;
      while keys != {}
        invariant keys <= was.Keys
        invariant useCount == was - (Retired(was, pool, books.banned) - keys)
        decreases |keys|
      {
        var key :| key in keys;
        if key !in pool && key !in books.banned {
          useCount := useCount - {key};
        }
        keys := keys - {key};
      }
    }

    method ReportBad(proxy: string, now: real)
      requires Valid()
      modifies this`pool, this`books
      ensures Valid()
      ensures View() == Reported(limits, old(View()), proxy, now)
    {
      hide Drop, BanUntil, Raw, NoDup;
      var raw := Raw(proxy);
      var fails := 0;
      if raw in books.fails {
        var t := books.fails[raw];
        fails := if t.last != 0.0 && now - t.last > limits.banMax then 0 else t.n;
      }
      fails := fails + 1;
      books := books.(fails := books.fails[raw := Tally(fails, now)], suspects := books.suspects - {raw});
      var until := BanUntil(limits, fails, now);
      books := books.(banned := books.banned[raw := until]);
      books := books.(banned := books.banned[proxy := until]);
      DropKeepsNoDup(pool, raw);
      pool := Drop(pool, raw);
    }

    method ReportGood(proxy: string)
      modifies this`books
      ensures books == Good(old(books), proxy)
    {
      var raw := Raw(proxy);
      if raw !in books.fails && raw !in books.suspects {
        assert books.fails - {raw} == books.fails && books.suspects - {raw} == books.suspects;
        return;
      }
      books := books.(fails := books.fails - {raw});
      books := books.(suspects := books.suspects - {raw});
    }

    /** `later` is the clock when the bad report takes the lock again. */
    method ReportSuspect(proxy: string, now: real, later: real)
      requires Valid()
      modifies this`pool, this`books
      ensures Valid()
      ensures
        var counted := old(View()).(books := Suspect(limits, old(books), proxy, now));
        View() == if Tips(limits, old(books), proxy, now) then Reported(limits, counted, proxy, later) else counted
    {
      hide Bad, Drop, Raw;
      var raw := Raw(proxy);
      var n := 1;
      if raw in books.suspects {
        var t := books.suspects[raw];
        n := (if t.last != 0.0 && now - t.last > limits.banMax then 0 else t.n) + 1;
      }
      if n < Max(limits.suspectAfter, 1) {
        books := books.(suspects := books.suspects[raw := Tally(n, now)]);
        return;
      }
      books := books.(suspects := books.suspects - {raw});
      ReportBad(proxy, later);
    }
  }

  method WithoutExpired(m: map<string, Until>, now: real) returns (r: map<string, Until>)
    ensures r == m - Expired(m, now)
  {
    hide Active;
    r := m;
    var keys := m.Keys;
    while keys != {}
      invariant keys <= m.Keys
      invariant r == m - (Expired(m, now) - keys)
      decreases |keys|
    {
      var key :| key in keys;
      if !Active(m[key], now) {
        r := r - {key};
      }
      keys := keys - {key};
    }
  }

  method WithoutStale(m: map<string, Tally>, now: real, max: real) returns (r: map<string, Tally>)
    ensures r == m - Stale(m, now, max)
  {
    r := m;
    var keys := m.Keys;
    while keys != {}
      invariant keys <= m.Keys
      invariant r == m - (Stale(m, now, max) - keys)
      decreases |keys|
    {
      var key :| key in keys;
      if now - m[key].last > max {
        r := r - {key};
      }
      keys := keys - {key};
    }
  }

  lemma RotationTail(was: seq<string>, i: nat)
    requires NoDup(was) && i < |was|
    ensures was[i..][1..] == was[i + 1..] && was[i] !in was[i + 1..]
  {
  }

  /** One turn of the loop that looks for a free proxy. */
  lemma LookAt(b: Books, pool: seq<string>, clock: Clock, i: nat)
    requires NoDup(pool) && i < |pool|
    ensures pool[i..][1..] == pool[i + 1..] && Drop(pool[i + 1..] + [pool[i]], pool[i]) == pool[i + 1..]
    ensures Banned(Asked(b, pool, clock, i), pool[i], clock(i)) == Banned(b, pool[i], clock(i))
    ensures Asked(b, pool, clock, i + 1) == Checked(Asked(b, pool, clock, i), pool[i], clock(i))
    ensures FirstFree(b, pool, clock, i) == if Banned(b, pool[i], clock(i)) then FirstFree(b, pool, clock, i + 1) else i
  {
    RotationTail(pool, i);
    DropLast(pool[i + 1..], pool[i]);
    AskedKeeps(b, pool, clock, i, pool[i], clock(i));
  }

  lemma LookedAtNone(b: Books, pool: seq<string>, clock: Clock)
    ensures Asked(b, pool, clock, 0) == b
    ensures FirstFree(b, pool, clock, |pool|) == |pool|
  {
  }

  // ---------------------------------------------------------------- runs

  /** One critical section of some thread. */
  datatype Event =
    | Get(clock: Clock)
    | Fetched(offered: seq<string>, clock: Clock)
    | Pruning(now: real)
    | BadReport(proxy: string, now: real)
    | SuspectReport(proxy: string, now: real)
    | GoodReport(proxy: string)

  datatype Setup = Setup(limits: Limits, maxUse: int)

  function Apply(u: Setup, s: State, e: Event): State {
    match e
    case Get(clock) => Got(s, clock, u.maxUse)
    case Fetched(offered, clock) => Refilled(s, offered, clock, |offered|)
    case Pruning(now) => Pruned(u.limits, s, now)
    case BadReport(p, now) => Reported(u.limits, s, p, now)
    case SuspectReport(p, now) => s.(books := Suspect(u.limits, s.books, p, now))
    case GoodReport(p) => s.(books := Good(s.books, p))
  }

  function After(u: Setup, es: seq<Event>, n: nat): State
    requires n <= |es|
  {
    if n == 0 then State([], map[], NO_BOOKS) else Apply(u, After(u, es, n - 1), es[n - 1])
  }

  /** Event `i` hands out `p`. */
  predicate Hands(u: Setup, es: seq<Event>, i: nat, p: string)
    requires i < |es|
  {
    es[i].Get? && Handed(After(u, es, i), es[i].clock) == Some(p)
  }

  /** How often `p` is handed out by the events from `i` up to `j`. */
  function HandOuts(u: Setup, es: seq<Event>, i: nat, j: nat, p: string): nat
    requires i <= j <= |es|
  {
    if i == j then 0 else HandOuts(u, es, i, j - 1, p) + (if Hands(u, es, j - 1, p) then 1 else 0)
  }

  // ---------------------------------------------------------------- no proxy twice

  lemma {:induction false} RefilledNoDup(s: State, offered: seq<string>, clock: Clock, n: nat)
    requires n <= |offered| && NoDup(s.pool)
    ensures NoDup(Refilled(s, offered, clock, n).pool)
  {
    hide Banned, Checked;
    if n > 0 {
      RefilledNoDup(s, offered, clock, n - 1);
    }
  }

  lemma GotNoDup(s: State, clock: Clock, maxUse: int)
    requires NoDup(s.pool)
    ensures NoDup(Got(s, clock, maxUse).pool)
  {
    hide Asked, Banned;
    var j := Found(s, clock);
    if j < |s.pool| {
      RotationTail(s.pool, j);
      SnocNoDup(s.pool[j + 1..], s.pool[j]);
    }
  }

  lemma SnocNoDup(s: seq<string>, x: string)
    requires NoDup(s) && x !in s
    ensures NoDup(s + [x])
  {
  }

  lemma {:induction false} PoolStaysDuplicateFree(u: Setup, es: seq<Event>, n: nat)
    requires n <= |es|
    ensures NoDup(After(u, es, n).pool)
  {
    hide Got, Refilled, Drop, Bad, Suspect, Prune, Good, NoDup;
    if n == 0 {
      EmptyNoDup();
    } else {
      PoolStaysDuplicateFree(u, es, n - 1);
      var s := After(u, es, n - 1);
      match es[n - 1]
      case Get(clock) => GotNoDup(s, clock, u.maxUse);
      case Fetched(offered, clock) => RefilledNoDup(s, offered, clock, |offered|);
      case BadReport(p, _) => DropKeepsNoDup(s.pool, Raw(p));
      case _ =>
    }
  }

  lemma EmptyNoDup()
    ensures NoDup<string>([])
  {
  }

  // ---------------------------------------------------------------- bounded use per stay

  /** While a proxy stays in the pool its use count only grows, by one for each hand-out, and
      a hand-out that leaves it there has not reached the limit. */
  lemma StayStep(u: Setup, s: State, e: Event, p: string)
    requires NoDup(s.pool) && p in s.pool && p in Apply(u, s, e).pool
    ensures Use(Apply(u, s, e), p) >= Use(s, p)
    ensures e.Get? && Handed(s, e.clock) == Some(p) ==> Use(Apply(u, s, e), p) == Use(s, p) + 1 < u.maxUse
    ensures Use(Apply(u, s, e), p) > Use(s, p) ==> e.Get? && Handed(s, e.clock) == Some(p)
  {
    hide Asked, Banned, Drop, Bad, Suspect, Prune, Good;
    match e
    case Get(clock) => GetStay(s, clock, u.maxUse, p);
    case Fetched(offered, clock) => RefilledUse(s, offered, clock, |offered|);
    case _ =>
  }

  lemma GetStay(s: State, clock: Clock, maxUse: int, p: string)
    requires NoDup(s.pool) && p in s.pool && p in Got(s, clock, maxUse).pool
    ensures Handed(s, clock) == Some(p) ==> Use(Got(s, clock, maxUse), p) == Use(s, p) + 1 < maxUse
    ensures Handed(s, clock) != Some(p) ==> Use(Got(s, clock, maxUse), p) == Use(s, p)
  {
    hide Asked, Banned;
    var j := Found(s, clock);
    if j < |s.pool| {
      RotationTail(s.pool, j);
    }
  }

  lemma {:induction false} RefilledUse(s: State, offered: seq<string>, clock: Clock, n: nat)
    requires n <= |offered|
    ensures Refilled(s, offered, clock, n).use == s.use
  {
    hide Banned, Checked;
    if n > 0 {
      RefilledUse(s, offered, clock, n - 1);
    }
  }

  lemma {:induction false} StayCounts(u: Setup, es: seq<Event>, i: nat, j: nat, p: string)
    requires i <= j <= |es| && forall k: nat | i <= k <= j :: p in After(u, es, k).pool
    ensures HandOuts(u, es, i, j, p) == Use(After(u, es, j), p) - Use(After(u, es, i), p)
    ensures HandOuts(u, es, i, j, p) > 0 ==> Use(After(u, es, j), p) < u.maxUse
  {
    hide Apply, Handed;
    if i < j {
      StayCounts(u, es, i, j - 1, p);
      PoolStaysDuplicateFree(u, es, j - 1);
      assert p in After(u, es, j).pool;
      StayStep(u, After(u, es, j - 1), es[j - 1], p);
    }
  }

  /** During one stay in the pool a proxy is handed out at most the configured number of times,
      and once when that number is below one. */
  lemma UsesPerStayAreBounded(u: Setup, es: seq<Event>, i: nat, j: nat, p: string)
    requires i <= j <= |es| && forall k: nat | i <= k < j :: p in After(u, es, k).pool
    ensures HandOuts(u, es, i, j, p) <= Max(1, u.maxUse)
  {
    hide Apply, Handed, After;
    if i < j {
      StayCounts(u, es, i, j - 1, p);
    }
  }

  // ---------------------------------------------------------------- order

  /** None is handed out exactly when every proxy is found banned, and then the pool is empty. */
  lemma NothingLeft(s: State, clock: Clock, maxUse: int)
    ensures Handed(s, clock) == None <==> forall i | 0 <= i < |s.pool| :: Banned(s.books, s.pool[i], clock(i))
    ensures Handed(s, clock) == None ==> Got(s, clock, maxUse).pool == []
  {
    hide Banned, Asked;
    assert forall k | 0 <= k < Found(s, clock) :: Banned(s.books, s.pool[k], clock(k));
  }

  /** The members of the pool that are not in `dead`, in order. */
  function Live(pool: seq<string>, dead: set<string>): seq<string> {
    if pool == [] then [] else (if pool[0] in dead then [] else [pool[0]]) + Live(pool[1..], dead)
  }

  lemma {:induction false} LiveConcat(s: seq<string>, t: seq<string>, dead: set<string>)
    ensures Live(s + t, dead) == Live(s, dead) + Live(t, dead)
  {
    if s == [] {
      assert s + t == t;
    } else {
      assert (s + t)[1..] == s[1..] + t;
      LiveConcat(s[1..], t, dead);
    }
  }

  lemma {:induction false} LiveNone(s: seq<string>, dead: set<string>)
    requires forall i | 0 <= i < |s| :: s[i] in dead
    ensures Live(s, dead) == []
  {
    if s != [] {
      LiveNone(s[1..], dead);
    }
  }

  /** As far as these readings can tell, exactly the proxies in `dead` are banned. */
  ghost predicate Steady(b: Books, pool: seq<string>, dead: set<string>, times: set<real>) {
    forall p, t | p in pool && t in times :: Banned(b, p, t) <==> p in dead
  }

  lemma {:induction false} AskedSteady(b: Books, pool: seq<string>, clock: Clock, n: nat, dead: set<string>,
        times: set<real>)
    requires n <= |pool| && Steady(b, pool, dead, times) && forall i: nat :: clock(i) in times
    ensures Steady(Asked(b, pool, clock, n), pool, dead, times)
  {
    hide Active;
    if n > 0 {
      AskedSteady(b, pool, clock, n - 1, dead, times);
      CheckedSteady(Asked(b, pool, clock, n - 1), pool, pool[n - 1], clock(n - 1), dead, times);
    }
  }

  lemma CheckedSteady(b: Books, pool: seq<string>, key: string, now: real, dead: set<string>, times: set<real>)
    requires Steady(b, pool, dead, times) && now in times && key in pool
    ensures Steady(Checked(b, key, now), pool, dead, times)
  {
    hide Active;
    assert Banned(b, key, now) <==> key in dead;
  }

  /** One call moves the first live proxy to the end of the live ones. */
  lemma GetRotates(s: State, clock: Clock, maxUse: int, dead: set<string>, times: set<real>)
    requires Steady(s.books, s.pool, dead, times) && forall i: nat :: clock(i) in times
    requires Live(s.pool, dead) != [] && Use(s, Live(s.pool, dead)[0]) + 1 < maxUse
    ensures
      var live := Live(s.pool, dead);
      var t := Got(s, clock, maxUse);
      && Handed(s, clock) == Some(live[0])
      && Live(t.pool, dead) == live[1..] + [live[0]]
      && t.use == s.use[live[0] := Use(s, live[0]) + 1]
      && Steady(t.books, t.pool, dead, times)
  {
    hide Asked, Banned, Steady;
    var j := Found(s, clock);
    FoundIsFirstLive(s, clock, dead, times);
    var p := s.pool[j];
    var t := Got(s, clock, maxUse);
    assert t.pool == s.pool[j + 1..] + [p];
    LiveConcat(s.pool[j + 1..], [p], dead);
    AskedSteady(s.books, s.pool, clock, j + 1, dead, times);
    SteadySub(t.books, s.pool, t.pool, dead, times);
  }

  lemma SteadySub(b: Books, pool: seq<string>, sub: seq<string>, dead: set<string>, times: set<real>)
    requires Steady(b, pool, dead, times) && forall p | p in sub :: p in pool
    ensures Steady(b, sub, dead, times)
  {
    hide Banned;
  }

  lemma FoundIsFirstLive(s: State, clock: Clock, dead: set<string>, times: set<real>)
    requires Steady(s.books, s.pool, dead, times) && forall i: nat :: clock(i) in times
    requires Live(s.pool, dead) != []
    ensures
      var j := Found(s, clock);
      && j < |s.pool| && s.pool[j] !in dead
      && Live(s.pool, dead) == [s.pool[j]] + Live(s.pool[j + 1..], dead)
  {
    hide Banned;
    var j := Found(s, clock);
    assert forall k | 0 <= k < j :: Banned(s.books, s.pool[k], clock(k));
    LiveNone(s.pool[..j], dead);
    assert s.pool == s.pool[..j] + s.pool[j..];
    LiveConcat(s.pool[..j], s.pool[j..], dead);
    if j < |s.pool| {
      assert s.pool[j..][1..] == s.pool[j + 1..];
    }
  }

  /** The state after `n` calls in a row. */
  function Gets(s: State, clocks: seq<Clock>, maxUse: int, n: nat): State
    requires n <= |clocks|
  {
    if n == 0 then s else Got(Gets(s, clocks, maxUse, n - 1), clocks[n - 1], maxUse)
  }

  function Rotated(s: seq<string>, n: nat): seq<string>
    requires s != []
  {
    s[n % |s|..] + s[..n % |s|]
  }

  lemma RotatedNext(s: seq<string>, n: nat)
    requires s != []
    ensures Rotated(s, n) != [] && Rotated(s, n)[0] == s[n % |s|]
    ensures Rotated(s, n)[1..] + [Rotated(s, n)[0]] == Rotated(s, n + 1)
  {
    ModNext(n, |s|);
  }

  lemma NotRotated(s: seq<string>)
    requires s != []
    ensures Rotated(s, 0) == s
  {
  }

  /** How many of the first `n` calls fall on position `i` of `k`. */
  function Turns(n: nat, k: nat, i: nat): nat
    requires k > 0
  {
    if n == 0 then 0 else Turns(n - 1, k, i) + (if (n - 1) % k == i then 1 else 0)
  }

  /** None of the first `n` calls wears a proxy out. */
  ghost predicate Lasting(s: State, live: seq<string>, n: nat, maxUse: int)
    requires live != []
  {
    forall i | 0 <= i < |live| && Turns(n, |live|, i) > 0 :: Use(s, live[i]) + Turns(n, |live|, i) < maxUse
  }

  lemma {:induction false} LiveNoDup(pool: seq<string>, dead: set<string>)
    requires NoDup(pool)
    ensures NoDup(Live(pool, dead)) && forall p | p in Live(pool, dead) :: p in pool
  {
    if pool != [] {
      RotationTail(pool, 0);
      LiveNoDup(pool[1..], dead);
      if pool[0] !in dead {
        ConsNoDup(pool[0], Live(pool[1..], dead));
      }
    }
  }

  lemma {:induction false} GetsRotate(s: State, clocks: seq<Clock>, maxUse: int, n: nat, dead: set<string>,
        times: set<real>)
    requires n <= |clocks| && NoDup(s.pool) && Steady(s.books, s.pool, dead, times)
    requires forall i: nat, k | 0 <= k < |clocks| :: clocks[k](i) in times
    requires Live(s.pool, dead) != [] && Lasting(s, Live(s.pool, dead), n, maxUse)
    ensures
      var live := Live(s.pool, dead);
      var t := Gets(s, clocks, maxUse, n);
      && Live(t.pool, dead) == Rotated(live, n)
      && Steady(t.books, t.pool, dead, times)
      && forall i | 0 <= i < |live| :: Use(t, live[i]) == Use(s, live[i]) + Turns(n, |live|, i)
  {
    hide Got, Steady, Live, NoDup, Rotated, Handed;
    if n == 0 {
      NotRotated(Live(s.pool, dead));
    } else {
      var live := Live(s.pool, dead);
      GetsRotate(s, clocks, maxUse, n - 1, dead, times);
      var t := Gets(s, clocks, maxUse, n - 1);
      var k := (n - 1) % |live|;
      RotatedNext(live, n - 1);
      assert Turns(n, |live|, k) == Turns(n - 1, |live|, k) + 1;
      assert Use(s, live[k]) + Turns(n, |live|, k) < maxUse;
      GetRotates(t, clocks[n - 1], maxUse, dead, times);
      LiveNoDup(s.pool, dead);
      TurnTaken(s, t, Gets(s, clocks, maxUse, n), live, n, k);
    }
  }

  lemma TurnTaken(s: State, t: State, t': State, live: seq<string>, n: nat, k: nat)
    requires NoDup(live) && live != [] && n > 0 && k == (n - 1) % |live|
    requires forall i | 0 <= i < |live| :: Use(t, live[i]) == Use(s, live[i]) + Turns(n - 1, |live|, i)
    requires t'.use == t.use[live[k] := Use(t, live[k]) + 1]
    ensures forall i | 0 <= i < |live| :: Use(t', live[i]) == Use(s, live[i]) + Turns(n, |live|, i)
  {
  }

  /** Strict round robin: while the bans do not change and until a proxy wears out, the `n`-th
      call hands out the live proxies in turn, whatever banned ones lie between them. */
  lemma RoundRobin(s: State, clocks: seq<Clock>, maxUse: int, n: nat, dead: set<string>, times: set<real>)
    requires n < |clocks| && NoDup(s.pool) && Steady(s.books, s.pool, dead, times)
    requires forall i: nat, k | 0 <= k < |clocks| :: clocks[k](i) in times
    requires Live(s.pool, dead) != [] && Lasting(s, Live(s.pool, dead), n, maxUse)
    ensures
      var live := Live(s.pool, dead);
      Handed(Gets(s, clocks, maxUse, n), clocks[n]) == Some(live[n % |live|])
  {
    hide Got, Steady, Live, Handed, Rotated, Lasting;
    GetsRotate(s, clocks, maxUse, n, dead, times);
    RotatedNext(Live(s.pool, dead), n);
    HandsFirstLive(Gets(s, clocks, maxUse, n), clocks[n], dead, times);
  }

  lemma HandsFirstLive(s: State, clock: Clock, dead: set<string>, times: set<real>)
    requires Steady(s.books, s.pool, dead, times) && forall i: nat :: clock(i) in times
    requires Live(s.pool, dead) != []
    ensures Handed(s, clock) == Some(Live(s.pool, dead)[0])
  {
    hide Steady, Banned;
    FoundIsFirstLive(s, clock, dead, times);
  }

  // ---------------------------------------------------------------- reported proxies stay away

  ghost predicate Bare(p: string) {
    NoSchemeBefore(p, |p|)
  }

  /** The pool holds bare proxies and hands them out with a scheme; taking the scheme off again
      gives the pool's own spelling. */
  lemma RawOfHandedOut(p: string)
    ensures Bare(p) ==> Normalize(p) == "http://" + p && Raw(Normalize(p)) == p
    ensures Raw(Normalize(p)) == Raw(p)
  {
    if Bare(p) {
      NoScheme(p);
      HttpStripped(p);
    } else if AfterScheme(p).None? {
      HttpStripped(p);
    }
  }

  lemma HttpStripped(p: string)
    ensures AfterScheme("http://" + p) == Some(p)
  {
    var q := "http://" + p;
    assert q[0] == 'h' && q[1] == 't' && q[2] == 't' && q[3] == 'p' && q[4] == ':' && q[5] == '/' && q[6] == '/';
    forall i: nat | i < 4 ensures !SchemeEnds(q, i) {
    }
    AfterSchemeAt(q, 4);
    assert q[7..] == p;
  }

  /** The clock readings of the event all lie before `end`. */
  ghost predicate ReadsBefore(e: Event, end: Until) {
    end.Forever? ||
    match e
    case Get(clock) => forall i: nat :: clock(i) < end.t
    case Fetched(_, clock) => forall i: nat :: clock(i) < end.t
    case Pruning(now) => now < end.t
    case _ => true
  }

  /** The event does not report a proxy spelled `p`, with or without a scheme, as bad. */
  predicate Spares(e: Event, p: string) {
    e.BadReport? ==> e.proxy != p && Raw(e.proxy) != p
  }

  ghost predicate BannedUntil(b: Books, p: string, end: Until) {
    p in b.banned && b.banned[p] == end
  }

  /** The state after `n` more events. */
  function From(u: Setup, s: State, es: seq<Event>, n: nat): State
    requires n <= |es|
  {
    if n == 0 then s else Apply(u, From(u, s, es, n - 1), es[n - 1])
  }

  lemma {:induction false} AskedBan(b: Books, pool: seq<string>, clock: Clock, n: nat, p: string, end: Until)
    requires n <= |pool| && BannedUntil(b, p, end) && (end.Forever? || forall i: nat :: clock(i) < end.t)
    ensures BannedUntil(Asked(b, pool, clock, n), p, end)
  {
    if n > 0 {
      AskedBan(b, pool, clock, n - 1, p, end);
    }
  }

  lemma {:induction false} RefilledBan(s: State, offered: seq<string>, clock: Clock, n: nat, p: string, end: Until)
    requires n <= |offered| && BannedUntil(s.books, p, end) && (end.Forever? || forall i: nat :: clock(i) < end.t)
    ensures BannedUntil(Refilled(s, offered, clock, n).books, p, end)
  {
    if n > 0 {
      RefilledBan(s, offered, clock, n - 1, p, end);
    }
  }

  lemma BanStep(u: Setup, s: State, e: Event, p: string, end: Until)
    requires BannedUntil(s.books, p, end) && ReadsBefore(e, end) && Spares(e, p)
    ensures BannedUntil(Apply(u, s, e).books, p, end)
  {
    hide Asked, Refilled, Drop, Raw, BanUntil, StillCounts, Found, Use;
    match e
    case Get(clock) =>
      var j := Found(s, clock);
      AskedBan(s.books, s.pool, clock, if j == |s.pool| then j else j + 1, p, end);
    case Fetched(offered, clock) => RefilledBan(s, offered, clock, |offered|, p, end);
    case _ =>
  }

  lemma {:induction false} BanLasts(u: Setup, s: State, es: seq<Event>, n: nat, p: string, end: Until)
    requires n <= |es| && BannedUntil(s.books, p, end)
    requires forall i | 0 <= i < |es| :: ReadsBefore(es[i], end) && Spares(es[i], p)
    ensures BannedUntil(From(u, s, es, n).books, p, end)
  {
    hide Apply, BannedUntil;
    if n > 0 {
      BanLasts(u, s, es, n - 1, p, end);
      BanStep(u, From(u, s, es, n - 1), es[n - 1], p, end);
    }
  }

  lemma BannedNotHanded(s: State, clock: Clock, p: string, end: Until)
    requires BannedUntil(s.books, p, end) && (end.Forever? || forall i: nat :: clock(i) < end.t)
    ensures Handed(s, clock) != Some(p)
  {
    var j := Found(s, clock);
    assert Banned(s.books, p, clock(j));
  }

  /** What is reported bad as it was handed out leaves the pool, and no later call hands it out
      before its ban ends: not after refills that offer it, nor after pruning, successes or
      suspicions, and whatever happens to other proxies. */
  lemma ReportedStaysAway(u: Setup, s: State, clock: Clock, now: real, es: seq<Event>, n: nat)
    requires NoDup(s.pool) && Handed(s, clock).Some?
    requires
      var p := Handed(s, clock).value;
      var t := Reported(u.limits, Got(s, clock, u.maxUse), Normalize(p), now);
      forall i | 0 <= i < |es| :: Spares(es[i], p) && (p in t.books.banned ==> ReadsBefore(es[i], t.books.banned[p]))
    requires Bare(Handed(s, clock).value) && n < |es| && es[n].Get?
    ensures
      var p := Handed(s, clock).value;
      var t := Reported(u.limits, Got(s, clock, u.maxUse), Normalize(p), now);
      && p !in t.pool && p in t.books.banned
      && Handed(From(u, t, es, n), es[n].clock) != Some(p)
  {
    hide Got, Handed, Apply, From, Drop, Normalize, Raw, BanUntil, StillCounts, ReadsBefore, Spares;
    var p := Handed(s, clock).value;
    var g := Got(s, clock, u.maxUse);
    var t := Reported(u.limits, g, Normalize(p), now);
    RawOfHandedOut(p);
    GotNoDup(s, clock, u.maxUse);
    DropKeepsNoDup(g.pool, p);
    var end := t.books.banned[p];
    BanLasts(u, t, es, n, p, end);
    ReadsClock(es[n], end);
    BannedNotHanded(From(u, t, es, n), es[n].clock, p, end);
  }

  lemma ReadsClock(e: Event, end: Until)
    requires e.Get? && ReadsBefore(e, end)
    ensures end.Forever? || forall i: nat :: e.clock(i) < end.t
  {
  }

  // ---------------------------------------------------------------- refills

  /** A refill keeps the pool and its order, and adds only what was offered. */
  lemma {:induction false} RefillAppends(s: State, offered: seq<string>, clock: Clock, n: nat)
    requires n <= |offered|
    ensures
      var r := Refilled(s, offered, clock, n);
      s.pool <= r.pool && forall i | |s.pool| <= i < |r.pool| :: r.pool[i] in offered
  {
    hide Banned, Checked;
    if n > 0 {
      RefillAppends(s, offered, clock, n - 1);
    }
  }

  /** The readings of a call do not go back. */
  ghost predicate Forward(clock: Clock) {
    forall i: nat, j: nat | i < j :: clock(i) <= clock(j)
  }

  lemma {:induction false} RefilledAnswers(s: State, offered: seq<string>, clock: Clock, n: nat, p: string, t: real)
    requires n <= |offered| && Forward(clock) && (forall i: nat | i < n :: clock(i) <= t)
    ensures Banned(Refilled(s, offered, clock, n).books, p, t) == Banned(s.books, p, t)
  {
    if n > 0 {
      RefilledAnswers(s, offered, clock, n - 1, p, t);
    }
  }

  /** What is offered is in the pool afterwards if it was there before or is not banned when the
      refill looks at it. */
  lemma {:induction false} RefillTakes(s: State, offered: seq<string>, clock: Clock, n: nat, i: nat)
    requires i < n <= |offered| && Forward(clock)
    requires !Banned(s.books, offered[i], clock(i)) || offered[i] in s.pool
    ensures offered[i] in Refilled(s, offered, clock, n).pool
    decreases n
  {
    hide Checked, Banned;
    if i < n - 1 {
      RefillTakes(s, offered, clock, n - 1, i);
    } else {
      RefilledAnswers(s, offered, clock, i, offered[i], clock(i));
      RefillAppends(s, offered, clock, i);
    }
  }

  /** A proxy that was worn out and is not banned starts afresh: pruning forgets its uses, and
      the refill puts it back with none. Proxies in the pool keep their counts. */
  lemma WornOutStartsAfresh(l: Limits, s: State, now: real, offered: seq<string>, clock: Clock, p: string)
    ensures p in s.pool ==> Use(Pruned(l, s, now), p) == Use(s, p)
    ensures p !in s.pool && !Banned(s.books, p, now) ==>
              Use(Refilled(Pruned(l, s, now), offered, clock, |offered|), p) == 0
  {
    hide Stale, Active;
    RefilledUse(Pruned(l, s, now), offered, clock, |offered|);
  }
}
