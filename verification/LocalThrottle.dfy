/** The in-process rate limiter and the circuit breaker that feeds it penalties. */
module LocalThrottle {
  import opened Seqs

  /** Settings that stay fixed during a run. */
  datatype Settings = Settings(downloadDelay: real, randomize: bool, threshold: int, cooldown: real)

  function Get<K, V>(m: map<K, V>, k: K, default: V): V {
    if k in m then m[k] else default
  }

  /** The interval of one ticket: the larger of the setting and the domain's own delay, with
      jitter if asked for. */
  function Interval(s: Settings, override: real, jitter: real): real {
    var d := MaxReal(s.downloadDelay, override);
    if d > 0.0 && s.randomize then d * jitter else d
  }

  /** What a ticket leaves in the table: nothing is written when there is nothing to wait for. */
  function TicketNext(next: real, now: real, delay: real): real {
    var ready := MaxReal(now, next);
    if delay > 0.0 || ready > now then ready + MaxReal(delay, 0.0) else next
  }

  function PenaltyNext(next: real, now: real, seconds: real): real {
    if seconds <= 0.0 then next else MaxReal(now, next) + seconds
  }

  class DomainThrottle {
    const settings: Settings
    var nextAt: map<string, real>
    var domainDelay: map<string, real>

    constructor (settings: Settings)
      ensures nextAt == map[] && domainDelay == map[] && this.settings == settings
    {
      this.settings := settings;
      nextAt, domainDelay := map[], map[];
    }

    /** Returns the wait. `jitter` is the random factor of this call. */
    method TakeTicket(domain: string, now: real, jitter: real) returns (wait: real)
      modifies this`nextAt
      ensures var delay := Interval(settings, Get(old(domainDelay), domain, 0.0), jitter);
              var next := Get(old(nextAt), domain, 0.0);
              && wait == MaxReal(now, next) - now
              && Get(nextAt, domain, 0.0) == TicketNext(next, now, delay)
      ensures forall d | d != domain :: Get(nextAt, d, 0.0) == Get(old(nextAt), d, 0.0)
    {
      var override := Get(domainDelay, domain, 0.0);
      var delay := MaxReal(settings.downloadDelay, override);
      if delay > 0.0 && settings.randomize {
        delay := delay * jitter;
      }
      var ready := MaxReal(now, Get(nextAt, domain, 0.0));
      if delay > 0.0 || ready > now {
        nextAt := nextAt[domain := ready + MaxReal(delay, 0.0)];
      }
      wait := ready - now;
    }

    method Penalize(domain: string, now: real, seconds: real)
      modifies this`nextAt
      ensures Get(nextAt, domain, 0.0) == PenaltyNext(Get(old(nextAt), domain, 0.0), now, seconds)
      ensures forall d | d != domain :: Get(nextAt, d, 0.0) == Get(old(nextAt), d, 0.0)
    {
      if seconds <= 0.0 {
        return;
      }
      nextAt := nextAt[domain := MaxReal(now, Get(nextAt, domain, 0.0)) + seconds];
    }

    method SetDomainDelay(domain: string, seconds: real)
      modifies this`domainDelay
      ensures domainDelay == old(domainDelay)[domain := MaxReal(seconds, 0.0)]
    {
      domainDelay := domainDelay[domain := MaxReal(seconds, 0.0)];
    }
  }

  // ---------------------------------------------------------------- runs on one domain

  /** A ticket with its interval, or a penalty with its seconds, at a time. */
  datatype Event = Ticket(now: real, amount: real) | Penalty(now: real, amount: real)

  ghost predicate Monotone(es: seq<Event>) {
    && (forall i | 0 <= i < |es| :: 0.0 <= es[i].now && 0.0 <= es[i].amount)
    && (forall i, j | 0 <= i < j < |es| :: es[i].now <= es[j].now)
  }

  function Next(es: seq<Event>, n: nat): real
    requires n <= |es|
  {
    if n == 0 then 0.0
    else
      var e := es[n - 1];
      if e.Ticket? then TicketNext(Next(es, n - 1), e.now, e.amount) else PenaltyNext(Next(es, n - 1), e.now, e.amount)
  }

  /** When ticket `i` may start; for a penalty, the moment it counts from. */
  function Start(es: seq<Event>, i: nat): real
    requires i < |es|
  {
    MaxReal(es[i].now, Next(es, i))
  }

  function AmountSum(es: seq<Event>, i: nat, j: nat): real
    requires i <= j <= |es|
  {
    if i == j then 0.0 else AmountSum(es, i, j - 1) + es[j - 1].amount
  }

  /** The table entry of a domain never decreases. */
  lemma {:induction false} NextNeverDecreases(es: seq<Event>, m: nat, n: nat)
    requires m <= n <= |es| && Monotone(es)
    ensures Next(es, m) <= Next(es, n)
  {
    if m < n {
      NextNeverDecreases(es, m, n - 1);
    }
  }

  lemma StartAdvances(es: seq<Event>, i: nat)
    requires i + 1 < |es| && Monotone(es)
    ensures Start(es, i + 1) >= Start(es, i) + es[i].amount
  {
    assert es[i].now <= es[i + 1].now;
  }

  /** A start is later than any earlier one by all intervals and penalties in between; in
      particular nothing starts before the end of an earlier penalty, whatever the interval. */
  lemma {:induction false} StartsAreSpaced(es: seq<Event>, i: nat, j: nat)
    requires i <= j < |es| && Monotone(es)
    ensures Start(es, j) >= Start(es, i) + AmountSum(es, i, j)
  {
    if i < j {
      StartsAreSpaced(es, i, j - 1);
      StartAdvances(es, j - 1);
    }
  }

  lemma {:induction false} AmountSumAtLeast(es: seq<Event>, i: nat, k: nat, least: real)
    requires i + k <= |es| && forall e | i <= e < i + k :: es[e].amount >= least
    ensures AmountSum(es, i, i + k) >= k as real * least
  {
    if k > 0 {
      AmountSumAtLeast(es, i, k - 1, least);
      assert k as real * least == (k - 1) as real * least + least;
    }
  }

  /** Tickets waiting out a penalty or a trip start no earlier than its end. */
  lemma PenaltyHoldsEveryoneBack(es: seq<Event>, p: nat, i: nat)
    requires p < i < |es| && Monotone(es) && es[p].Penalty?
    ensures Start(es, i) >= es[p].now + es[p].amount
  {
    StartsAreSpaced(es, p, i);
    AmountSumAtLeast(es, p + 1, i - p - 1, 0.0);
    AmountSplit(es, p, i);
  }

  lemma {:induction false} AmountSplit(es: seq<Event>, i: nat, j: nat)
    requires i < j <= |es|
    ensures AmountSum(es, i, j) == es[i].amount + AmountSum(es, i + 1, j)
  {
    if i + 1 < j {
      AmountSplit(es, i, j - 1);
    }
  }

  /** Tickets among the events from `i` up to `j`. */
  function Tickets(es: seq<Event>, i: nat, j: nat): nat
    requires i <= j <= |es|
  {
    if i == j then 0 else Tickets(es, i, j - 1) + (if es[j - 1].Ticket? then 1 else 0)
  }

  lemma {:induction false} TicketsTakeTime(es: seq<Event>, i: nat, j: nat, least: real)
    requires i <= j <= |es| && Monotone(es)
    requires forall e | i <= e < j && es[e].Ticket? :: es[e].amount >= least
    ensures AmountSum(es, i, j) >= Tickets(es, i, j) as real * least
  {
    if i < j {
      TicketsTakeTime(es, i, j - 1, least);
      var n := Tickets(es, i, j - 1);
      assert (n + 1) as real * least == n as real * least + least;
    }
  }

  /** If every ticket's interval is at least `least`, the tickets from `i` to `j` start within a
      window only if it has room for the intervals of all but the last: a window of length W
      holds at most W / least + 1 starts, whatever penalties fall into it. */
  lemma WindowHoldsFewStarts(es: seq<Event>, i: nat, j: nat, least: real, window: real)
    requires i <= j < |es| && Monotone(es)
    requires forall e | i <= e < j && es[e].Ticket? :: es[e].amount >= least
    requires Start(es, j) - Start(es, i) <= window
    ensures Tickets(es, i, j) as real * least <= window
  {
    hide Start, AmountSum, Monotone;
    StartsAreSpaced(es, i, j);
    TicketsTakeTime(es, i, j, least);
  }

  // ---------------------------------------------------------------- no longer than needed

  /** The interval: without jitter the larger of the setting and the domain's own delay; with a
      jitter factor of at least a half, at least half of each. */
  lemma IntervalCoversBoth(st: Settings, own: real, jitter: real)
    ensures !st.randomize ==>
              && Interval(st, own, jitter) >= st.downloadDelay && Interval(st, own, jitter) >= own
              && (Interval(st, own, jitter) == st.downloadDelay || Interval(st, own, jitter) == own)
    ensures jitter >= 0.5 && own >= 0.0 && st.downloadDelay >= 0.0 ==>
              2.0 * Interval(st, own, jitter) >= st.downloadDelay && 2.0 * Interval(st, own, jitter) >= own
  {
    var d := MaxReal(st.downloadDelay, own);
    if jitter >= 0.5 && d >= 0.0 {
      assert (jitter - 0.5) * d >= 0.0;
    }
  }

  /** A ticket starts as early as the clock and the event before it allow, and no later. */
  lemma StartIsExact(es: seq<Event>, i: nat)
    requires Monotone(es)
    ensures 0 < |es| ==> Start(es, 0) == es[0].now
    ensures i + 1 < |es| ==> Start(es, i + 1) == MaxReal(es[i + 1].now, Start(es, i) + es[i].amount)
  {
    if i + 1 < |es| {
      assert es[i].now <= es[i + 1].now;
    }
  }

  /** Two tickets of a free domain at one moment: the first waits for nothing, the second exactly
      one interval. */
  lemma SecondTicketWaitsOneInterval(st: Settings, own: real, jitter: real, next: real, now: real)
    requires next <= now && 0.0 <= now && own >= 0.0 && st.downloadDelay >= 0.0 && jitter >= 0.0
    ensures
      var interval := Interval(st, own, jitter);
      MaxReal(now, next) - now == 0.0 && MaxReal(now, TicketNext(next, now, interval)) - now == interval
  {
    var d := MaxReal(st.downloadDelay, own);
    assert d * jitter >= 0.0;
  }

  // ---------------------------------------------------------------- circuit breaker

  class CircuitBreaker {
    const throttle: DomainThrottle
    var failures: map<string, nat>

    constructor (throttle: DomainThrottle)
      ensures this.throttle == throttle && failures == map[]
    {
      this.throttle := throttle;
      failures := map[];
    }

    method RecordSuccess(domain: string)
      modifies this
      ensures failures == old(failures) - {domain}
    {
      failures := failures - {domain};
    }

    /** Counts a failure; at the threshold the count starts over and the domain is penalized. */
    method RecordFailure(domain: string, now: real) returns (tripped: bool)
      modifies this, throttle`nextAt
      ensures var (count, trip) := Fail(throttle.settings.threshold, Get(old(failures), domain, 0));
              && tripped == trip && Get(failures, domain, 0) == count
              && Get(throttle.nextAt, domain, 0.0) ==
                 (if trip then PenaltyNext(Get(old(throttle.nextAt), domain, 0.0), now, throttle.settings.cooldown)
                  else Get(old(throttle.nextAt), domain, 0.0))
      ensures forall d | d != domain ::
                Get(failures, d, 0) == Get(old(failures), d, 0)
                    && Get(throttle.nextAt, d, 0.0) == Get(old(throttle.nextAt), d, 0.0)
    {
      var threshold := throttle.settings.threshold;
      if threshold <= 0 {
        return false;
      }
      var count := Get(failures, domain, 0) + 1;
      failures := failures[domain := count];
      tripped := count >= threshold;
      if tripped {
        failures := failures - {domain};
        throttle.Penalize(domain, now, throttle.settings.cooldown);
      }
    }
  }

  function Fail(threshold: int, count: nat): (nat, bool) {
    if threshold <= 0 then (count, false)
    else if count + 1 >= threshold then (0, true)
    else (count + 1, false)
  }

  /** Outcomes of one domain, true for success. */
  function CountAfter(threshold: int, outcomes: seq<bool>): nat {
    if outcomes == [] then 0
    else
      var n := |outcomes| - 1;
      if outcomes[n] then 0 else Fail(threshold, CountAfter(threshold, outcomes[..n])).0
  }

  predicate TripsAt(threshold: int, outcomes: seq<bool>) {
    outcomes != [] && !outcomes[|outcomes| - 1] && Fail(threshold, CountAfter(threshold, outcomes[..|outcomes| - 1])).1
  }

  /** Failures since the last success. */
  function Streak(outcomes: seq<bool>): nat {
    if outcomes == [] || outcomes[|outcomes| - 1] then 0 else 1 + Streak(outcomes[..|outcomes| - 1])
  }

  lemma {:induction false} CountFollowsStreak(threshold: int, outcomes: seq<bool>)
    requires threshold > 0
    ensures CountAfter(threshold, outcomes) == Mod(Streak(outcomes), threshold) < threshold
  {
    hide Mod;
    ModZero(threshold);
    if outcomes != [] && !outcomes[|outcomes| - 1] {
      var rest := outcomes[..|outcomes| - 1];
      CountFollowsStreak(threshold, rest);
      ModNext(Streak(rest), threshold);
    }
  }

  /** The count is the number of failures since the last success, modulo the threshold. */
  lemma CountIsStreakModulo(threshold: int, outcomes: seq<bool>)
    requires threshold > 0
    ensures CountAfter(threshold, outcomes) == Streak(outcomes) % threshold
  {
    hide CountAfter, Streak;
    CountFollowsStreak(threshold, outcomes);
  }

  /** The breaker trips exactly at every threshold-th failure in a row. */
  lemma TripsExactlyAtThreshold(threshold: int, outcomes: seq<bool>)
    ensures TripsAt(threshold, outcomes) <==>
            threshold > 0 && Streak(outcomes) > 0 && Streak(outcomes) % threshold == 0
  {
    if threshold > 0 {
      TripsAtMultiple(threshold, outcomes);
    }
  }

  lemma TripsAtMultiple(threshold: int, outcomes: seq<bool>)
    requires threshold > 0
    ensures TripsAt(threshold, outcomes) <==> Streak(outcomes) > 0 && Mod(Streak(outcomes), threshold) == 0
  {
    hide Mod;
    if outcomes != [] && !outcomes[|outcomes| - 1] {
      var rest := outcomes[..|outcomes| - 1];
      CountFollowsStreak(threshold, rest);
      ModNext(Streak(rest), threshold);
    }
  }
}
