/** The cross-node rate limiter: one Redis key per domain holds the next free start time, and
    a script hands out tickets. Times are milliseconds on the Redis clock. */
module GlobalThrottle {
  import opened Seqs

  /** The key's integer value and the moment the key expires. */
  datatype Slot = Slot(next: int, expires: real)

  const MARGIN := 60000

  /** A missing or expired key reads as 0. */
  function Read(slot: Option<Slot>, now: real): int {
    if slot.Some? && now < slot.value.expires then slot.value.next else 0
  }

  /** The start time before rounding. */
  function Ready(next: int, now: real): real {
    if next as real > now then next as real else now
  }

  function Ticket(slot: Option<Slot>, now: real, delay: real): (Slot, int) {
    var ready := Ready(Read(slot, now), now);
    var target := ready + delay;
    (Slot(target.Floor, now + ((target - now).Floor + MARGIN) as real), (ready - now).Floor)
  }

  /** One process's client. `slots` is the Redis key space. */
  class Throttle {
    var slots: map<string, Slot>

    constructor ()
      ensures slots == map[]
    {
      slots := map[];
    }

    /** Seconds in, seconds out; `None` when Redis cannot be reached, and then nothing has
        changed. Other domains are never affected. */
    method TakeTicket(domain: string, delay: real, now: real, redisOk: bool) returns (wait: Option<real>)
      requires 0.0 <= now
      modifies this
      ensures !redisOk ==> wait == None && slots == old(slots)
      ensures redisOk ==>
                var slot := if domain in old(slots) then Some(old(slots)[domain]) else None;
                var (next, ms) := Ticket(slot, now, MaxReal(delay, 0.0) * 1000.0);
                slots == old(slots)[domain := next] && wait == Some(ms as real / 1000.0) && ms >= 0
    {
      if !redisOk {
        return None;
      }
      var d := MaxReal(delay, 0.0) * 1000.0;
      var nextAt := if domain in slots && now < slots[domain].expires then slots[domain].next else 0;
      var ready := now;
      if nextAt as real > now {
        ready := nextAt as real;
      }
      var target := ready + d;
      slots := slots[domain := Slot(target.Floor, now + ((target - now).Floor + MARGIN) as real)];
      var ms := (ready - now).Floor;
      wait := Some(MaxReal(ms as real / 1000.0, 0.0));
    }
  }

  // ---------------------------------------------------------------- spacing of starts

  /** One request for a ticket: the Redis time of the call and the delay asked for. A penalty
      is such a request too. */
  datatype Call = Call(now: real, delay: real)

  ghost predicate Monotone(calls: seq<Call>) {
    && (forall i | 0 <= i < |calls| :: 0.0 <= calls[i].now && 0.0 <= calls[i].delay)
    && (forall i, j | 0 <= i < j < |calls| :: calls[i].now <= calls[j].now)
  }

  /** The key after `n` calls on one domain by any nodes. */
  function After(calls: seq<Call>, n: nat): Option<Slot>
    requires n <= |calls|
  {
    if n == 0 then None else Some(Ticket(After(calls, n - 1), calls[n - 1].now, calls[n - 1].delay).0)
  }

  function ReadyAt(calls: seq<Call>, i: nat): real
    requires i < |calls|
  {
    Ready(Read(After(calls, i), calls[i].now), calls[i].now)
  }

  /** When the holder of ticket `i` starts. */
  function Start(calls: seq<Call>, i: nat): real
    requires i < |calls|
  {
    calls[i].now + Ticket(After(calls, i), calls[i].now, calls[i].delay).1 as real
  }

  /** Rounding the wait down starts a holder less than a millisecond early. */
  lemma StartNearReady(calls: seq<Call>, i: nat)
    requires i < |calls|
    ensures ReadyAt(calls, i) - 1.0 < Start(calls, i) <= ReadyAt(calls, i)
  {
  }

  /** The key outlives the reservation it carries. */
  lemma KeyOutlivesReservation(slot: Option<Slot>, now: real, delay: real)
    ensures var s := Ticket(slot, now, delay).0; s.expires > s.next as real + 59998.0
  {
  }

  /** A ticket is not held back longer than needed: the first is free at once, and each next one
      by the time the delay of the one before has passed, or at once if that is already over. */
  lemma NotLaterThanNeeded(calls: seq<Call>, i: nat)
    requires i < |calls| && Monotone(calls)
    ensures ReadyAt(calls, 0) == calls[0].now
    ensures i + 1 < |calls| ==>
              ReadyAt(calls, i + 1) <= MaxReal(calls[i + 1].now, ReadyAt(calls, i) + calls[i].delay)
  {
    FirstIsFree(calls);
    if i + 1 < |calls| {
      assert 0.0 <= calls[i + 1].now;
      NextIsFree(calls, i);
    }
  }

  lemma NextIsFree(calls: seq<Call>, i: nat)
    requires i + 1 < |calls| && 0.0 <= calls[i + 1].now
    ensures ReadyAt(calls, i + 1) <= MaxReal(calls[i + 1].now, ReadyAt(calls, i) + calls[i].delay)
  {
    var slot := Ticket(After(calls, i), calls[i].now, calls[i].delay).0;
    assert After(calls, i + 1) == Some(slot);
    assert slot.next as real <= ReadyAt(calls, i) + calls[i].delay;
    hide Ticket, After;
  }

  lemma FirstIsFree(calls: seq<Call>)
    requires calls != [] && Monotone(calls)
    ensures ReadyAt(calls, 0) == calls[0].now
  {
    assert After(calls, 0) == None;
  }

  lemma ReadyAdvances(calls: seq<Call>, i: nat)
    requires i + 1 < |calls| && Monotone(calls)
    ensures ReadyAt(calls, i + 1) > ReadyAt(calls, i) + calls[i].delay - 1.0
  {
    var slot := Ticket(After(calls, i), calls[i].now, calls[i].delay).0;
    assert After(calls, i + 1) == Some(slot);
    assert slot.next as real > ReadyAt(calls, i) + calls[i].delay - 1.0;
    KeyOutlivesReservation(After(calls, i), calls[i].now, calls[i].delay);
  }

  function DelaySum(calls: seq<Call>, i: nat, j: nat): real
    requires i <= j <= |calls|
  {
    if i == j then 0.0 else DelaySum(calls, i, j - 1) + calls[j - 1].delay
  }

  lemma {:induction false} ReadyAfterMany(calls: seq<Call>, i: nat, j: nat)
    requires i <= j < |calls| && Monotone(calls)
    ensures ReadyAt(calls, j) >= ReadyAt(calls, i) + DelaySum(calls, i, j) - (j - i) as real
  {
    if i < j {
      ReadyAfterMany(calls, i, j - 1);
      ReadyAdvances(calls, j - 1);
    }
  }

  /** Between any two tickets the starts are apart by all delays in between, less one
      millisecond of rounding for each, and one more. */
  lemma StartsAreSpaced(calls: seq<Call>, i: nat, j: nat)
    requires i < j < |calls| && Monotone(calls)
    ensures Start(calls, j) - Start(calls, i) > DelaySum(calls, i, j) - (j - i) as real - 1.0
  {
    ReadyAfterMany(calls, i, j);
    StartNearReady(calls, i);
    StartNearReady(calls, j);
  }

  /** Consecutive starts are more than the delay minus two milliseconds apart. */
  lemma ConsecutiveStartsAreSpaced(calls: seq<Call>, i: nat)
    requires i + 1 < |calls| && Monotone(calls)
    ensures Start(calls, i + 1) - Start(calls, i) > calls[i].delay - 2.0
  {
    StartsAreSpaced(calls, i, i + 1);
    assert DelaySum(calls, i, i + 1) == DelaySum(calls, i, i) + calls[i].delay;
  }

  /** The bound cannot be tightened to one millisecond: here the gap is 1.996 below the delay. */
  lemma TwoMillisecondsAreNeeded()
    ensures var calls := [Call(0.999, 1.998), Call(1.001, 0.0)];
            Monotone(calls) && Start(calls, 1) - Start(calls, 0) == calls[0].delay - 1.996
  {
    var calls := [Call(0.999, 1.998), Call(1.001, 0.0)];
    assert After(calls, 0) == None;
    assert (2.997 as real).Floor == 2;
    assert After(calls, 1) == Some(Ticket(None, 0.999, 1.998).0);
    assert Read(After(calls, 1), 1.001) == 2;
  }

  // ---------------------------------------------------------------- expiry is unobservable

  /** The same script on a key that never expires; 0 when it was never written. */
  function ForeverAfter(calls: seq<Call>, n: nat): int
    requires n <= |calls|
  {
    if n == 0 then 0 else (Ready(ForeverAfter(calls, n - 1), calls[n - 1].now) + calls[n - 1].delay).Floor
  }

  function ForeverWait(calls: seq<Call>, i: nat): int
    requires i < |calls|
  {
    (Ready(ForeverAfter(calls, i), calls[i].now) - calls[i].now).Floor
  }

  /** The key with a TTL either still holds the same value or holds a value of the past. */
  lemma {:induction false} SameReservation(calls: seq<Call>, n: nat)
    requires n <= |calls| && Monotone(calls)
    ensures After(calls, n).Some? ==> After(calls, n).value.next == ForeverAfter(calls, n)
    ensures After(calls, n).None? ==> n == 0
    ensures forall now: real | now >= 0.0 && (n > 0 ==> now >= calls[n - 1].now) ::
              Ready(Read(After(calls, n), now), now) == Ready(ForeverAfter(calls, n), now)
  {
    if n > 0 {
      SameReservation(calls, n - 1);
      KeyOutlivesReservation(After(calls, n - 1), calls[n - 1].now, calls[n - 1].delay);
    }
  }

  /** Key expiry never changes a ticket: with and without a TTL the same waits are granted. */
  lemma ExpiryIsUnobservable(calls: seq<Call>, i: nat)
    requires i < |calls| && Monotone(calls)
    ensures Ticket(After(calls, i), calls[i].now, calls[i].delay).1 == ForeverWait(calls, i)
  {
    SameReservation(calls, i);
    assert i > 0 ==> calls[i - 1].now <= calls[i].now;
  }
}
