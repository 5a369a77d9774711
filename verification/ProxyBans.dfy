/** Ban bookkeeping of the proxy pool: doubling bans, suspicion, and pruning that nobody can
    notice. */
module ProxyBans {
  import opened Seqs

  datatype Limits = Limits(banSeconds: real, banMax: real, suspectAfter: int)

  /** A ban ends at a time, or never. */
  datatype Until = At(t: real) | Forever

  /** Consecutive reports and the time of the last one. */
  datatype Tally = Tally(n: nat, last: real)

  datatype Books = Books(banned: map<string, Until>, fails: map<string, Tally>, suspects: map<string, Tally>)

  const NO_BOOKS := Books(map[], map[], map[])

  /** The text after the first `://`, if there is one. */
  function AfterScheme(p: string): Option<string> {
    if |p| < 3 then None else if p[..3] == "://" then Some(p[3..]) else AfterScheme(p[1..])
  }

  function Raw(proxy: string): string {
    var r := AfterScheme(proxy);
    if r.Some? then r.value else proxy
  }

  /** `base` doubled `n` times. */
  function Doubled(base: real, n: nat): real {
    if n == 0 then base else 2.0 * Doubled(base, n - 1)
  }

  /** The ban for the `n`-th consecutive failure, counted from `now`. */
  function BanUntil(l: Limits, n: nat, now: real): Until
    requires n >= 1
  {
    if l.banSeconds <= 0.0 then Forever else At(now + MinReal(Doubled(l.banSeconds, n - 1), l.banMax))
  }

  /** Consecutive reports that still count at `now`; a gap above the longest ban resets them.
      A last time of zero is the "never" marker of the source and does not reset. */
  function StillCounts(m: map<string, Tally>, raw: string, now: real, max: real): nat {
    if raw !in m then 0
    else if m[raw].last != 0.0 && now - m[raw].last > max then 0
    else m[raw].n
  }

  function Bad(l: Limits, b: Books, proxy: string, now: real): Books {
    var raw := Raw(proxy);
    var n := StillCounts(b.fails, raw, now, l.banMax) + 1;
    var until := BanUntil(l, n, now);
    Books(b.banned[raw := until][proxy := until], b.fails[raw := Tally(n, now)], b.suspects - {raw})
  }

  function Good(b: Books, proxy: string): Books {
    b.(fails := b.fails - {Raw(proxy)}, suspects := b.suspects - {Raw(proxy)})
  }

  /** Enough suspicious failures in a row. */
  predicate Tips(l: Limits, b: Books, proxy: string, now: real) {
    StillCounts(b.suspects, Raw(proxy), now, l.banMax) + 1 >= Max(l.suspectAfter, 1)
  }

  /** One more suspicious failure; when it tips, the tally is cleared, and a bad report follows in
      a step of its own. */
  function Suspect(l: Limits, b: Books, proxy: string, now: real): Books {
    var raw := Raw(proxy);
    if Tips(l, b, proxy, now) then b.(suspects := b.suspects - {raw})
    else b.(suspects := b.suspects[raw := Tally(StillCounts(b.suspects, raw, now, l.banMax) + 1, now)])
  }

  predicate Active(u: Until, now: real) {
    u.Forever? || u.t > now
  }

  predicate Banned(b: Books, key: string, now: real) {
    key in b.banned && Active(b.banned[key], now)
  }

  /** Asking about a key forgets its ban once it is over. */
  function Checked(b: Books, key: string, now: real): Books {
    if key in b.banned && !Active(b.banned[key], now) then b.(banned := b.banned - {key}) else b
  }

  /** Keys whose last report is too old to count. */
  function Stale(m: map<string, Tally>, now: real, max: real): set<string> {
    set k | k in m && now - m[k].last > max
  }

  function Expired(m: map<string, Until>, now: real): set<string> {
    set k | k in m && !Active(m[k], now)
  }

  function Prune(l: Limits, b: Books, now: real): Books {
    Books(b.banned - Expired(b.banned, now),
          b.fails - Stale(b.fails, now, l.banMax), b.suspects - Stale(b.suspects, now, l.banMax))
  }

  // ---------------------------------------------------------------- runs

  datatype Op =
    | BadOp(proxy: string)
    | GoodOp(proxy: string)
    | SuspectOp(proxy: string)
    | CheckOp(key: string)
    | PruneOp

  datatype Event = Event(now: real, op: Op)

  function Apply(l: Limits, b: Books, e: Event): Books {
    match e.op
    case BadOp(p) => Bad(l, b, p, e.now)
    case GoodOp(p) => Good(b, p)
    case SuspectOp(p) => Suspect(l, b, p, e.now)
    case CheckOp(k) => Checked(b, k, e.now)
    case PruneOp => Prune(l, b, e.now)
  }

  /** The books after the first `n` events. */
  function After(l: Limits, es: seq<Event>, n: nat): Books
    requires n <= |es|
  {
    if n == 0 then NO_BOOKS else Apply(l, After(l, es, n - 1), es[n - 1])
  }

  /** The same events without the pruning ones. */
  function WithoutPrunes(es: seq<Event>): seq<Event> {
    if es == [] then []
    else
      var rest := WithoutPrunes(es[..|es| - 1]);
      if es[|es| - 1].op.PruneOp? then rest else rest + [es[|es| - 1]]
  }

  ghost predicate Clocked(es: seq<Event>) {
    && (forall i | 0 <= i < |es| :: 0.0 < es[i].now)
    && (forall i, j | 0 <= i < j < |es| :: es[i].now <= es[j].now)
  }

  // ---------------------------------------------------------------- pruning is invisible

  /** From `now` on, the two tallies count alike. */
  ghost predicate SameTally(m: map<string, Tally>, k: map<string, Tally>, now: real, max: real) {
    forall raw: string, t: real | t >= now :: StillCounts(m, raw, t, max) == StillCounts(k, raw, t, max)
  }

  /** What can be observed of a ban. */
  function Ban(b: Books, key: string, now: real): Option<Until> {
    if Banned(b, key, now) then Some(b.banned[key]) else None
  }

  ghost predicate SameBans(b: Books, c: Books, now: real) {
    forall key: string, t: real | t >= now :: Ban(b, key, t) == Ban(c, key, t)
  }

  ghost predicate Alike(l: Limits, b: Books, c: Books, now: real) {
    SameBans(b, c, now) && SameTally(b.fails, c.fails, now, l.banMax)
        && SameTally(b.suspects, c.suspects, now, l.banMax)
  }

  ghost predicate Positive(m: map<string, Tally>) {
    forall k | k in m :: m[k].last > 0.0
  }

  lemma StaleAreZero(m: map<string, Tally>, now: real, max: real)
    requires Positive(m)
    ensures SameTally(m - Stale(m, now, max), m, now, max)
  {
  }

  lemma PruneAlike(l: Limits, b: Books, now: real)
    requires Positive(b.fails) && Positive(b.suspects)
    ensures Alike(l, Prune(l, b, now), b, now)
  {
    StaleAreZero(b.fails, now, l.banMax);
    StaleAreZero(b.suspects, now, l.banMax);
  }

  lemma SetTallyAlike(m: map<string, Tally>, k: map<string, Tally>, now: real, max: real,
      m': map<string, Tally>, k': map<string, Tally>, raw: string, v: Tally)
    requires SameTally(m, k, now, max)
    requires m' == m[raw := v] && k' == k[raw := v]
    ensures SameTally(m', k', now, max)
  {
    forall r: string, t: real | t >= now
      ensures StillCounts(m', r, t, max) == StillCounts(k', r, t, max)
    {
      assert StillCounts(m, r, t, max) == StillCounts(k, r, t, max);
    }
  }

  lemma DropTallyAlike(m: map<string, Tally>, k: map<string, Tally>, now: real, max: real, raw: string)
    requires SameTally(m, k, now, max)
    ensures SameTally(m - {raw}, k - {raw}, now, max)
  {
    forall r: string, t: real | t >= now
      ensures StillCounts(m - {raw}, r, t, max) == StillCounts(k - {raw}, r, t, max)
    {
      assert StillCounts(m, r, t, max) == StillCounts(k, r, t, max);
    }
  }

  lemma SetBanAlike(b: Books, c: Books, now: real, b': Books, c': Books, key: string, u: Until)
    requires SameBans(b, c, now)
    requires b'.banned == b.banned[key := u] && c'.banned == c.banned[key := u]
    ensures SameBans(b', c', now)
  {
    forall r: string, t: real | t >= now
      ensures Ban(b', r, t) == Ban(c', r, t)
    {
      assert Ban(b, r, t) == Ban(c, r, t);
    }
  }

  lemma CheckedAlike(l: Limits, b: Books, key: string, now: real)
    ensures Alike(l, Checked(b, key, now), b, now)
  {
  }

  lemma AlikeTrans(l: Limits, a: Books, b: Books, c: Books, now: real)
    requires Alike(l, a, b, now) && Alike(l, b, c, now)
    ensures Alike(l, a, c, now)
  {
    hide StillCounts, Ban;
    assert SameBans(a, c, now) by {
      forall r: string, t: real | t >= now ensures Ban(a, r, t) == Ban(c, r, t) {
        assert Ban(a, r, t) == Ban(b, r, t);
      }
    }
    TallyTrans(a.fails, b.fails, c.fails, now, l.banMax);
    TallyTrans(a.suspects, b.suspects, c.suspects, now, l.banMax);
  }

  lemma TallyTrans(a: map<string, Tally>, b: map<string, Tally>, c: map<string, Tally>, now: real, max: real)
    requires SameTally(a, b, now, max) && SameTally(b, c, now, max)
    ensures SameTally(a, c, now, max)
  {
    hide StillCounts;
    forall r: string, t: real | t >= now ensures StillCounts(a, r, t, max) == StillCounts(c, r, t, max) {
      assert StillCounts(a, r, t, max) == StillCounts(b, r, t, max);
    }
  }

  lemma AlikeSym(l: Limits, b: Books, c: Books, now: real)
    requires Alike(l, b, c, now)
    ensures Alike(l, c, b, now)
  {
  }

  lemma BadAlike(l: Limits, b: Books, c: Books, proxy: string, now: real)
    requires Alike(l, b, c, now)
    ensures Alike(l, Bad(l, b, proxy, now), Bad(l, c, proxy, now), now)
  {
    hide Ban, SameBans, BanUntil;
    var raw := Raw(proxy);
    var n := StillCounts(b.fails, raw, now, l.banMax) + 1;
    assert n == StillCounts(c.fails, raw, now, l.banMax) + 1;
    var u := BanUntil(l, n, now);
    SetTallyAlike(b.fails, c.fails, now, l.banMax, Bad(l, b, proxy, now).fails, Bad(l, c, proxy, now).fails, raw,
        Tally(n, now));
    DropTallyAlike(b.suspects, c.suspects, now, l.banMax, raw);
    var b1, c1 := b.(banned := b.banned[raw := u]), c.(banned := c.banned[raw := u]);
    SetBanAlike(b, c, now, b1, c1, raw, u);
    SetBanAlike(b1, c1, now, Bad(l, b, proxy, now), Bad(l, c, proxy, now), proxy, u);
  }

  lemma TalliesAlike(l: Limits, b: Books, c: Books, now: real, b': Books, c': Books)
    requires Alike(l, b, c, now)
    requires b'.banned == b.banned && c'.banned == c.banned
    requires SameTally(b'.fails, c'.fails, now, l.banMax) && SameTally(b'.suspects, c'.suspects, now, l.banMax)
    ensures Alike(l, b', c', now)
  {
    hide SameTally;
    forall r: string, t: real | t >= now ensures Ban(b', r, t) == Ban(c', r, t) {
      assert Ban(b, r, t) == Ban(c, r, t);
    }
  }

  lemma SuspectAlike(l: Limits, b: Books, c: Books, proxy: string, now: real)
    requires Alike(l, b, c, now)
    ensures Alike(l, Suspect(l, b, proxy, now), Suspect(l, c, proxy, now), now)
  {
    hide Ban, SameBans;
    var raw := Raw(proxy);
    var n := StillCounts(b.suspects, raw, now, l.banMax) + 1;
    assert n == StillCounts(c.suspects, raw, now, l.banMax) + 1;
    if Tips(l, b, proxy, now) {
      DropTallyAlike(b.suspects, c.suspects, now, l.banMax, raw);
    } else {
      SetTallyAlike(b.suspects, c.suspects, now, l.banMax,
                    Suspect(l, b, proxy, now).suspects, Suspect(l, c, proxy, now).suspects, raw, Tally(n, now));
    }
    TalliesAlike(l, b, c, now, Suspect(l, b, proxy, now), Suspect(l, c, proxy, now));
  }

  /** The same report changes two indistinguishable books into two indistinguishable books. */
  lemma ApplyAlike(l: Limits, b: Books, c: Books, e: Event)
    requires Alike(l, b, c, e.now) && !e.op.PruneOp?
    ensures Alike(l, Apply(l, b, e), Apply(l, c, e), e.now)
  {
    hide Alike, SameTally, Bad, Suspect, Checked;
    match e.op
    case BadOp(p) => BadAlike(l, b, c, p, e.now);
    case SuspectOp(p) => SuspectAlike(l, b, c, p, e.now);
    case GoodOp(p) => GoodAlike(l, b, c, p, e.now);
    case CheckOp(k) =>
      CheckedAlike(l, b, k, e.now);
      CheckedAlike(l, c, k, e.now);
      AlikeSym(l, Checked(c, k, e.now), c, e.now);
      AlikeTrans(l, Checked(b, k, e.now), b, c, e.now);
      AlikeTrans(l, Checked(b, k, e.now), c, Checked(c, k, e.now), e.now);
  }

  lemma GoodAlike(l: Limits, b: Books, c: Books, p: string, now: real)
    requires Alike(l, b, c, now)
    ensures Alike(l, Good(b, p), Good(c, p), now)
  {
    hide SameTally, SameBans;
    DropTallyAlike(b.fails, c.fails, now, l.banMax, Raw(p));
    DropTallyAlike(b.suspects, c.suspects, now, l.banMax, Raw(p));
    TalliesAlike(l, b, c, now, Good(b, p), Good(c, p));
  }

  lemma ApplyPositive(l: Limits, b: Books, e: Event)
    requires Positive(b.fails) && Positive(b.suspects) && e.now > 0.0
    ensures Positive(Apply(l, b, e).fails) && Positive(Apply(l, b, e).suspects)
  {
    hide BanUntil, StillCounts, Raw;
  }

  lemma {:induction false} AfterPositive(l: Limits, es: seq<Event>, n: nat)
    requires n <= |es| && Clocked(es)
    ensures Positive(After(l, es, n).fails) && Positive(After(l, es, n).suspects)
  {
    hide Apply;
    if n > 0 {
      AfterPositive(l, es, n - 1);
      ApplyPositive(l, After(l, es, n - 1), es[n - 1]);
    }
  }

  lemma {:induction false} AfterPrefix(l: Limits, es: seq<Event>, fs: seq<Event>, n: nat)
    requires n <= |es| && n <= |fs| && forall i | 0 <= i < n :: es[i] == fs[i]
    ensures After(l, es, n) == After(l, fs, n)
  {
    if n > 0 {
      AfterPrefix(l, es, fs, n - 1);
    }
  }

  lemma AlikeLater(l: Limits, b: Books, c: Books, now: real, later: real)
    requires Alike(l, b, c, now) && now <= later
    ensures Alike(l, b, c, later)
  {
  }

  /** Pruning at any moments of any run leaves books no later query can tell apart. */
  lemma {:induction false} RunsAlike(l: Limits, es: seq<Event>, now: real)
    requires Clocked(es) && (es == [] || es[|es| - 1].now <= now)
    ensures Alike(l, After(l, es, |es|), After(l, WithoutPrunes(es), |WithoutPrunes(es)|), now)
  {
    hide Alike, Apply;
    if es == [] {
      AlikeRefl(l, NO_BOOKS, now);
    } else {
      var n := |es| - 1;
      var e, ds := es[n], es[..n];
      var ws := WithoutPrunes(ds);
      RunsAlike(l, ds, e.now);
      AfterPrefix(l, es, ds, n);
      var b, c := After(l, ds, n), After(l, ws, |ws|);
      if e.op.PruneOp? {
        AfterPositive(l, ds, n);
        PruneStep(l, b, e);
        AlikeTrans(l, Apply(l, b, e), b, c, e.now);
        AlikeLater(l, Apply(l, b, e), c, e.now, now);
      } else {
        AfterPrefix(l, ws + [e], ws, |ws|);
        ApplyAlike(l, b, c, e);
        AlikeLater(l, Apply(l, b, e), Apply(l, c, e), e.now, now);
      }
    }
  }

  lemma PruneStep(l: Limits, b: Books, e: Event)
    requires e.op.PruneOp? && Positive(b.fails) && Positive(b.suspects)
    ensures Alike(l, Apply(l, b, e), b, e.now)
  {
    hide Alike, Prune;
    PruneAlike(l, b, e.now);
  }

  lemma AlikeRefl(l: Limits, b: Books, now: real)
    ensures Alike(l, b, b, now)
  {
  }

  /** Whether and until when a key is banned does not depend on the pruning. */
  lemma PruningIsInvisible(l: Limits, es: seq<Event>, key: string, now: real)
    requires Clocked(es) && (es == [] || es[|es| - 1].now <= now)
    ensures Ban(After(l, es, |es|), key, now)
         == Ban(After(l, WithoutPrunes(es), |WithoutPrunes(es)|), key, now)
  {
    hide Ban, SameTally;
    RunsAlike(l, es, now);
  }

  /** Were the clock allowed to read zero, pruning would show: a zero time is taken for
      "no earlier failure" and never ages, but pruning removes it. */
  lemma PruningShowsAtTimeZero()
    ensures
      var l := Limits(1.0, 10.0, 1);
      var es := [Event(0.0, BadOp("a")), Event(20.0, PruneOp), Event(20.0, BadOp("a"))];
      var ws := [Event(0.0, BadOp("a")), Event(20.0, BadOp("a"))];
      Ban(After(l, es, 3), "a", 21.0) == None && Ban(After(l, ws, 2), "a", 21.0) == Some(At(22.0))
  {
    var l := Limits(1.0, 10.0, 1);
    var es := [Event(0.0, BadOp("a")), Event(20.0, PruneOp), Event(20.0, BadOp("a"))];
    var ws := [Event(0.0, BadOp("a")), Event(20.0, BadOp("a"))];
    assert Raw("a") == "a";
    assert Doubled(1.0, 1) == 2.0;
  }

  // ---------------------------------------------------------------- bans double

  predicate GoodFor(e: Event, raw: string) {
    e.op.GoodOp? && Raw(e.op.proxy) == raw
  }

  /** Event `i` is a bad report about `raw`. */
  predicate BadFor(es: seq<Event>, i: nat, raw: string)
    requires i < |es|
  {
    es[i].op.BadOp? && Raw(es[i].op.proxy) == raw
  }

  /** Bad reports about `raw` among the events from `first` up to `n`. */
  function BadCount(es: seq<Event>, raw: string, first: nat, n: nat): (k: nat)
    requires n <= |es|
  {
    if n <= first then 0
    else BadCount(es, raw, first, n - 1) + (if BadFor(es, n - 1, raw) then 1 else 0)
  }

  /** No bad report before `first` still weighs at `first`. */
  ghost predicate CleanStart(l: Limits, es: seq<Event>, raw: string, first: nat)
    requires first < |es|
  {
    forall j: nat | j < first && BadFor(es, j, raw) ::
      || (exists g: nat :: j < g < first && GoodFor(es[g], raw))
      || es[first].now - es[j].now > l.banMax
  }

  /** From `first` on: no success, and each bad report within the longest ban of an earlier one. */
  ghost predicate Unbroken(l: Limits, es: seq<Event>, raw: string, first: nat) {
    && (forall i: nat | first < i < |es| :: !GoodFor(es[i], raw))
    && (forall i: nat | first < i < |es| && BadFor(es, i, raw) ::
          exists j: nat :: first <= j < i && BadFor(es, j, raw) && es[i].now - es[j].now <= l.banMax)
  }

  /** Only bad reports and successes of `raw` change what its failures count for. */
  lemma FailsFrame(l: Limits, es: seq<Event>, n: nat, raw: string, t: real)
    requires n < |es| && Clocked(es) && t >= es[n].now
    requires !BadFor(es, n, raw) && !GoodFor(es[n], raw)
    ensures StillCounts(After(l, es, n + 1).fails, raw, t, l.banMax)
        == StillCounts(After(l, es, n).fails, raw, t, l.banMax)
  {
    hide BanUntil;
    AfterPositive(l, es, n);
    if es[n].op.PruneOp? {
      StaleAreZero(After(l, es, n).fails, es[n].now, l.banMax);
    }
  }

  lemma BadStep(l: Limits, es: seq<Event>, n: nat, raw: string)
    requires n < |es| && BadFor(es, n, raw)
    ensures
      var k := StillCounts(After(l, es, n).fails, raw, es[n].now, l.banMax) + 1;
      var b := After(l, es, n + 1);
      && raw in b.fails && b.fails[raw] == Tally(k, es[n].now)
      && es[n].op.proxy in b.banned && b.banned[es[n].op.proxy] == BanUntil(l, k, es[n].now)
      && raw in b.banned && b.banned[raw] == BanUntil(l, k, es[n].now)
  {
    hide BanUntil, StillCounts;
  }

  /** Whatever failures still count were reported recently, with no success since. */
  lemma {:induction false} CountedIsRecent(l: Limits, es: seq<Event>, n: nat, raw: string, t: real) returns (j: nat)
    requires n <= |es| && Clocked(es) && (forall i | 0 <= i < n :: es[i].now <= t)
    requires StillCounts(After(l, es, n).fails, raw, t, l.banMax) > 0
    ensures j < n && BadFor(es, j, raw) && t - es[j].now <= l.banMax
    ensures forall g: nat | j < g < n :: !GoodFor(es[g], raw)
  {
    hide Apply, BanUntil, Raw;
    if BadFor(es, n - 1, raw) {
      BadStep(l, es, n - 1, raw);
      j := n - 1;
    } else {
      NotAfterGood(l, es, n, raw, t);
      FailsFrame(l, es, n - 1, raw, t);
      j := CountedIsRecent(l, es, n - 1, raw, t);
    }
  }

  lemma NotAfterGood(l: Limits, es: seq<Event>, n: nat, raw: string, t: real)
    requires n <= |es| && StillCounts(After(l, es, n).fails, raw, t, l.banMax) > 0
    ensures n > 0 && !GoodFor(es[n - 1], raw)
  {
    hide BanUntil;
  }

  /** The tally of an unbroken series is the number of its bad reports. */
  lemma {:induction false} SeriesTally(l: Limits, es: seq<Event>, raw: string, first: nat, n: nat, t: real)
    requires first < n <= |es| && Clocked(es) && BadFor(es, first, raw)
    requires CleanStart(l, es, raw, first) && Unbroken(l, es, raw, first)
    requires forall i | 0 <= i < n :: es[i].now <= t
    requires exists j: nat :: first <= j < n && BadFor(es, j, raw) && t - es[j].now <= l.banMax
    ensures StillCounts(After(l, es, n).fails, raw, t, l.banMax) == BadCount(es, raw, first, n)
    decreases n, 0
  {
    hide Apply, BanUntil, Raw, BadFor;
    var m := n - 1;
    if BadFor(es, m, raw) {
      BadStep(l, es, m, raw);
      SeriesStep(l, es, raw, first, m);
    } else {
      var j: nat :| first <= j < n && BadFor(es, j, raw) && t - es[j].now <= l.banMax;
      FailsFrame(l, es, m, raw, t);
      SeriesTally(l, es, raw, first, m, t);
    }
  }

  lemma {:induction false} SeriesStep(l: Limits, es: seq<Event>, raw: string, first: nat, m: nat)
    requires first <= m < |es| && Clocked(es) && BadFor(es, first, raw) && BadFor(es, m, raw)
    requires CleanStart(l, es, raw, first) && Unbroken(l, es, raw, first)
    ensures StillCounts(After(l, es, m).fails, raw, es[m].now, l.banMax) == BadCount(es, raw, first, m)
    decreases m, 1
  {
    hide Apply, BanUntil, Raw, BadFor, StillCounts;
    if m == first {
      if StillCounts(After(l, es, m).fails, raw, es[m].now, l.banMax) > 0 {
        var j := CountedIsRecent(l, es, m, raw, es[m].now);
        assert false;
      }
    } else {
      SeriesTally(l, es, raw, first, m, es[m].now);
    }
  }

  /** A bad report that ends an unbroken series of `k` bans both spellings of the proxy for the
      base time doubled `k - 1` times, up to the longest ban. */
  lemma BansDouble(l: Limits, es: seq<Event>, raw: string, first: nat, m: nat)
    requires first <= m < |es| && Clocked(es) && BadFor(es, first, raw) && BadFor(es, m, raw)
    requires CleanStart(l, es, raw, first) && Unbroken(l, es, raw, first)
    ensures
      var k := BadCount(es, raw, first, m + 1);
      var b := After(l, es, m + 1);
      && k >= 1
      && raw in b.banned && es[m].op.proxy in b.banned
      && b.banned[raw] == b.banned[es[m].op.proxy]
      && b.banned[raw] == if l.banSeconds <= 0.0 then Forever
                          else At(es[m].now + MinReal(Doubled(l.banSeconds, k - 1), l.banMax))
  {
    hide Apply, After, Raw, BadFor, StillCounts, CleanStart, Unbroken, Clocked, Doubled;
    SeriesStep(l, es, raw, first, m);
    BadStep(l, es, m, raw);
    var k := BadCount(es, raw, first, m + 1);
    assert k == StillCounts(After(l, es, m).fails, raw, es[m].now, l.banMax) + 1;
    assert After(l, es, m + 1).banned[raw] == BanUntil(l, k, es[m].now);
  }

  // ---------------------------------------------------------------- spellings

  /** `://` stands at position `i`. */
  predicate SchemeEnds(p: string, i: nat) {
    i + 3 <= |p| && p[i] == ':' && p[i + 1] == '/' && p[i + 2] == '/'
  }

  /** No `://` starts within the first `n` characters. */
  ghost predicate NoSchemeBefore(p: string, n: nat) {
    forall i: nat | i < n :: !SchemeEnds(p, i)
  }

  lemma SchemeAtStart(p: string)
    requires |p| >= 3
    ensures p[..3] == "://" <==> SchemeEnds(p, 0)
  {
    var q := p[..3];
    assert q[0] == p[0] && q[1] == p[1] && q[2] == p[2];
    if SchemeEnds(p, 0) {
      assert q == "://";
    }
  }

  lemma SchemeLater(p: string, i: nat)
    requires p != []
    ensures SchemeEnds(p[1..], i) <==> SchemeEnds(p, i + 1)
  {
  }

  lemma NoneLater(p: string, n: nat)
    requires p != [] && NoSchemeBefore(p, n + 1)
    ensures NoSchemeBefore(p[1..], n)
  {
    hide SchemeEnds;
    forall i: nat | i < n ensures !SchemeEnds(p[1..], i) {
      SchemeLater(p, i);
    }
  }

  /** What follows the first `://`. */
  lemma {:induction false} AfterSchemeAt(p: string, n: nat)
    requires SchemeEnds(p, n) && NoSchemeBefore(p, n)
    ensures n + 3 <= |p| && AfterScheme(p) == Some(p[n + 3..])
  {
    SchemeAtStart(p);
    if n > 0 {
      NoneLater(p, n - 1);
      SchemeLater(p, n - 1);
      AfterSchemeAt(p[1..], n - 1);
      assert p[1..][n + 2..] == p[n + 3..];
    }
  }

  lemma {:induction false} NoScheme(p: string)
    requires NoSchemeBefore(p, |p|)
    ensures AfterScheme(p) == None
  {
    if |p| >= 3 {
      SchemeAtStart(p);
      NoneLater(p, |p| - 1);
      NoScheme(p[1..]);
    }
  }

  // ---------------------------------------------------------------- suspicions

  /** The books after the first `n` suspicions of a proxy, at the given times. */
  function Suspicions(l: Limits, b: Books, proxy: string, times: seq<real>, n: nat): Books
    requires n <= |times|
  {
    if n == 0 then b else Suspect(l, Suspicions(l, b, proxy, times, n - 1), proxy, times[n - 1])
  }

  /** Suspicions in a row, none of them long after the one before. */
  ghost predicate InARow(l: Limits, times: seq<real>) {
    && (forall i | 0 <= i < |times| :: 0.0 < times[i])
    && (forall i | 0 < i < |times| :: times[i - 1] <= times[i] <= times[i - 1] + l.banMax)
  }

  lemma {:induction false} SuspicionsAdd(l: Limits, b: Books, proxy: string, times: seq<real>, n: nat)
    requires InARow(l, times) && n < |times| && n < Max(l.suspectAfter, 1)
    requires StillCounts(b.suspects, Raw(proxy), times[0], l.banMax) == 0
    ensures StillCounts(Suspicions(l, b, proxy, times, n).suspects, Raw(proxy), times[n], l.banMax) == n
  {
    hide Raw;
    if n > 0 {
      SuspicionsAdd(l, b, proxy, times, n - 1);
    }
  }

  /** A series of suspicions tips at exactly the configured number (at once when that is below
      one), and not before. */
  lemma SuspicionsTip(l: Limits, b: Books, proxy: string, times: seq<real>, n: nat)
    requires InARow(l, times) && n < |times| && n < Max(l.suspectAfter, 1)
    requires StillCounts(b.suspects, Raw(proxy), times[0], l.banMax) == 0
    ensures Tips(l, Suspicions(l, b, proxy, times, n), proxy, times[n]) <==> n + 1 == Max(l.suspectAfter, 1)
  {
    hide Raw, StillCounts, Suspicions;
    SuspicionsAdd(l, b, proxy, times, n);
  }

  // ---------------------------------------------------------------- laws of the ban itself

  /** How long the `n`-th ban in a row lasts. */
  function BanLength(l: Limits, n: nat): real
    requires n >= 1 && l.banSeconds > 0.0
  {
    BanUntil(l, n, 0.0).t
  }

  /** The first ban lasts the base time and each next one twice as long as the one before, up to
      the longest; the length does not depend on when it starts. */
  lemma EachBanDoubles(l: Limits, n: nat, now: real)
    requires n >= 1 && l.banSeconds > 0.0 && l.banMax >= 0.0
    ensures BanLength(l, 1) == MinReal(l.banSeconds, l.banMax)
    ensures BanLength(l, n + 1) == MinReal(2.0 * BanLength(l, n), l.banMax)
    ensures BanUntil(l, n, now) == At(now + BanLength(l, n))
  {
    assert Doubled(l.banSeconds, 0) == l.banSeconds;
    DoubledPositive(l.banSeconds, n - 1);
    assert Doubled(l.banSeconds, n) == 2.0 * Doubled(l.banSeconds, n - 1);
  }

  lemma {:induction false} DoubledPositive(base: real, n: nat)
    requires base > 0.0
    ensures Doubled(base, n) > 0.0
  {
    if n > 0 {
      DoubledPositive(base, n - 1);
    }
  }

  /** A success forgets both tallies of the proxy and no other; a bad report forgets its
      suspicions. */
  lemma ReportsForget(l: Limits, b: Books, proxy: string, now: real, raw: string, t: real)
    ensures raw == Raw(proxy) ==>
              && StillCounts(Good(b, proxy).fails, raw, t, l.banMax) == 0
              && StillCounts(Good(b, proxy).suspects, raw, t, l.banMax) == 0
              && StillCounts(Bad(l, b, proxy, now).suspects, raw, t, l.banMax) == 0
    ensures raw != Raw(proxy) ==>
              && StillCounts(Good(b, proxy).fails, raw, t, l.banMax) == StillCounts(b.fails, raw, t, l.banMax)
              && StillCounts(Good(b, proxy).suspects, raw, t, l.banMax) == StillCounts(b.suspects, raw, t, l.banMax)
    ensures Good(b, proxy).banned == b.banned
  {
    hide Raw, BanUntil;
  }

  /** Pruning keeps exactly the bans that still hold and the tallies that can still count. */
  lemma PruneKeepsExactlyTheLive(l: Limits, b: Books, now: real, k: string)
    ensures
      var p := Prune(l, b, now);
      && (k in p.banned <==> k in b.banned && (b.banned[k].Forever? || b.banned[k].t > now))
      && (k in p.fails <==> k in b.fails && now - b.fails[k].last <= l.banMax)
      && (k in p.suspects <==> k in b.suspects && now - b.suspects[k].last <= l.banMax)
      && (k in p.banned ==> p.banned[k] == b.banned[k])
      && (k in p.fails ==> p.fails[k] == b.fails[k]) && (k in p.suspects ==> p.suspects[k] == b.suspects[k])
  {
  }
}
