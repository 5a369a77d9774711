/** What every history of the request buffer keeps: nothing is lost, no fingerprint is enqueued
    twice by deduplicated requests, and nothing is dropped without a witness. */
module RequestHistory {
  import opened RequestBuffer

  // ---------------------------------------------------------------- conservation

  /** How often the request `id` occurs. */
  function Count(s: seq<Req>, id: nat): nat {
    if s == [] then 0 else (if s[0].id == id then 1 else 0) + Count(s[1..], id)
  }

  function HandCount(hands: seq<Hand>, id: nat): nat {
    if hands == [] then 0 else HandCount(hands[..|hands| - 1], id) + Count(hands[|hands| - 1].rest, id)
  }

  lemma {:induction false} CountConcat(s: seq<Req>, t: seq<Req>, id: nat)
    ensures Count(s + t, id) == Count(s, id) + Count(t, id)
  {
    if s == [] {
      assert s + t == t;
    } else {
      CountConcat(s[1..], t, id);
      assert (s + t)[1..] == s[1..] + t;
    }
  }

  lemma CountLast(s: seq<Req>, r: Req, id: nat)
    ensures Count(s + [r], id) == Count(s, id) + if r.id == id then 1 else 0
  {
    CountConcat(s, [r], id);
    assert Count([r][1..], id) == 0;
  }

  lemma {:induction false} HandCountUpdate(hands: seq<Hand>, f: nat, h: Hand, id: nat)
    requires f < |hands|
    ensures HandCount(hands[f := h], id) + Count(hands[f].rest, id) == HandCount(hands, id) + Count(h.rest, id)
  {
    var n := |hands| - 1;
    if f < n {
      HandCountUpdate(hands[..n], f, h, id);
      assert hands[f := h][..n] == hands[..n][f := h];
    } else {
      assert hands[f := h][..n] == hands[..n];
    }
  }

  /** Requests put = pending + in the hands of a flush + enqueued + dropped + drained, each once. */
  ghost predicate Conserved(b: Buf, id: nat) {
    && Count(b.pending, id) + HandCount(b.hands, id) + Count(b.enqueued, id) + Count(b.dropped, id)
        + Count(b.drained, id) == b.put[id]
    && b.put[id] <= 1
  }

  lemma ConservedStep(b: Buf, step: Step, id: nat)
    requires Conserved(b, id) && Enabled(b, step)
    ensures Conserved(Apply(b, step), id)
  {
    match step {
      case Put(r) =>
        CountLast(b.pending, r, id);
      case Swap =>
        assert (b.hands + [Hand(b.pending, false)])[..|b.hands|] == b.hands;
      case Drain =>
        CountConcat(b.drained, b.pending, id);
      case AddFails(f) =>
        HandCountUpdate(b.hands, f, Hand([], false), id);
        CountConcat(b.hands[f].rest, b.pending, id);
      case Add(f) =>
        LookupConserved(b, f, id);
      case PutOk(f) =>
        var rest := b.hands[f].rest;
        HandCountUpdate(b.hands, f, Hand(rest[1..], false), id);
        CountLast(b.enqueued, rest[0], id);
      case PutFails(f) =>
        PutBackConserved(b, f, id);
    }
  }

  lemma LookupConserved(b: Buf, f: nat, id: nat)
    requires Conserved(b, id) && Enabled(b, Add(f))
    ensures Conserved(Apply(b, Add(f)), id)
  {
    var rest := b.hands[f].rest;
    HandCountUpdate(b.hands, f, Hand(rest[1..], false), id);
    HandCountUpdate(b.hands, f, Hand(rest, true), id);
    CountLast(b.dropped, rest[0], id);
  }

  lemma PutBackConserved(b: Buf, f: nat, id: nat)
    requires Conserved(b, id) && Enabled(b, PutFails(f))
    ensures Conserved(Apply(b, PutFails(f)), id)
  {
    var rest := b.hands[f].rest;
    HandCountUpdate(b.hands, f, Hand([], false), id);
    CountConcat([rest[0].(filterRepeat := false)] + rest[1..], b.pending, id);
    assert ([rest[0].(filterRepeat := false)] + rest[1..])[1..] == rest[1..];
  }

  /** After every history, however flushes overlap and whatever calls fail. */
  lemma {:induction false} NothingIsLost(steps: seq<Step>, id: nat)
    requires Exec(EMPTY, steps).Some?
    ensures Conserved(Exec(EMPTY, steps).value, id)
  {
    if steps != [] {
      var n := |steps| - 1;
      NothingIsLost(steps[..n], id);
      ConservedStep(Exec(EMPTY, steps[..n]).value, steps[n], id);
    }
  }

  // ---------------------------------------------------------------- deduplication

  /** A request that asked for dedup and no longer does is the one that recorded its fingerprint. */
  ghost predicate Flagged(b: Buf, r: Req) {
    if r.id in b.checked then r.filterRepeat || Recorded(b, r) else !r.filterRepeat
  }

  ghost predicate Recorded(b: Buf, r: Req) {
    r.fp in b.passed && b.passed[r.fp] == r.id
  }

  ghost predicate HandOk(b: Buf, h: Hand) {
    && (forall k | 0 <= k < |h.rest| :: Flagged(b, h.rest[k]) && h.rest[k].id in b.put)
    && (h.passed ==> h.rest != [] && Recorded(b, h.rest[0]))
  }

  ghost predicate Deduped(b: Buf) {
    && (forall k | 0 <= k < |b.pending| :: Flagged(b, b.pending[k]) && b.pending[k].id in b.put)
    && (forall f | 0 <= f < |b.hands| :: HandOk(b, b.hands[f]))
    && (forall k | 0 <= k < |b.enqueued| ::
          b.enqueued[k].id in b.put && (b.enqueued[k].id in b.checked ==> Recorded(b, b.enqueued[k])))
    && (forall k | 0 <= k < |b.dropped| :: b.dropped[k].fp in b.passed && b.dropped[k].id in b.checked)
    && (forall id | id in b.checked :: id in b.put)
  }

  /** Growing the history keeps what is known of a request that was put before. */
  lemma FlaggedStays(b: Buf, c: Buf, r: Req)
    requires Flagged(b, r) && r.id in b.put
    requires forall fp | fp in b.passed :: fp in c.passed && c.passed[fp] == b.passed[fp]
    requires forall id | id in b.put :: id in c.checked <==> id in b.checked
    ensures Flagged(c, r)
  {
  }

  ghost predicate Extends(b: Buf, c: Buf) {
    && (forall fp | fp in b.passed :: fp in c.passed && c.passed[fp] == b.passed[fp])
    && (forall id | id in b.put :: id in c.put && (id in c.checked <==> id in b.checked))
  }

  lemma StepExtends(b: Buf, step: Step)
    requires Enabled(b, step)
    ensures Extends(b, Apply(b, step))
  {
  }

  lemma HandStays(b: Buf, c: Buf, h: Hand)
    requires HandOk(b, h) && Extends(b, c)
    ensures HandOk(c, h)
  {
    forall k | 0 <= k < |h.rest| ensures Flagged(c, h.rest[k]) && h.rest[k].id in c.put {
      FlaggedStays(b, c, h.rest[k]);
    }
  }

  /** Everything a step does not touch stays as it was; what is left is the touched part. */
  lemma DedupedStep(b: Buf, step: Step)
    requires Deduped(b) && Enabled(b, step)
    ensures Deduped(Apply(b, step))
  {
    var c := Apply(b, step);
    StepExtends(b, step);
    PendingStep(b, step);
    HandsStep(b, step);
    hide Flagged, HandOk;
    assert forall id | id in c.checked :: id in c.put;
    forall k | 0 <= k < |c.enqueued|
      ensures c.enqueued[k].id in c.put && (c.enqueued[k].id in c.checked ==> Recorded(c, c.enqueued[k]))
    {
      if k < |b.enqueued| {
        assert c.enqueued[k] == b.enqueued[k];
      } else {
        HeadKnown(b, step);
      }
    }
    forall k | 0 <= k < |c.dropped| ensures c.dropped[k].fp in c.passed && c.dropped[k].id in c.checked {
      if k < |b.dropped| {
        assert c.dropped[k] == b.dropped[k] && b.dropped[k].id in b.put;
      } else {
        HeadAsked(b, step);
      }
    }
  }

  /** What the filter is asked about was put with deduplication on. */
  lemma HeadAsked(b: Buf, step: Step)
    requires Deduped(b) && Enabled(b, step) && step.Add?
    ensures b.hands[step.f].rest[0].id in b.checked
  {
    assert HandOk(b, b.hands[step.f]);
  }

  lemma HeadKnown(b: Buf, step: Step)
    requires Deduped(b) && Enabled(b, step) && step.PutOk?
    ensures var r := b.hands[step.f].rest[0];
            r.id in b.put && (r.id in b.checked ==> Recorded(b, r))
  {
    assert HandOk(b, b.hands[step.f]);
  }

  lemma PendingStep(b: Buf, step: Step)
    requires Deduped(b) && Enabled(b, step)
    ensures var c := Apply(b, step);
            forall k | 0 <= k < |c.pending| :: Flagged(c, c.pending[k]) && c.pending[k].id in c.put
  {
    var c := Apply(b, step);
    StepExtends(b, step);
    if step.AddFails? || step.PutFails? {
      assert HandOk(b, b.hands[step.f]);
    }
    forall k | 0 <= k < |c.pending| ensures Flagged(c, c.pending[k]) && c.pending[k].id in c.put {
      if step.AddFails? && k < |b.hands[step.f].rest| {
        FlaggedStays(b, c, b.hands[step.f].rest[k]);
      } else if step.PutFails? && k < |b.hands[step.f].rest| {
        FlaggedStays(b, c, b.hands[step.f].rest[k]);
      }
    }
  }

  lemma HandsStep(b: Buf, step: Step)
    requires Deduped(b) && Enabled(b, step)
    ensures var c := Apply(b, step); forall f | 0 <= f < |c.hands| :: HandOk(c, c.hands[f])
  {
    var c := Apply(b, step);
    StepExtends(b, step);
    forall f | 0 <= f < |c.hands| ensures HandOk(c, c.hands[f]) {
      if f < |b.hands| {
        HandStays(b, c, b.hands[f]);
      }
    }
  }

  lemma {:induction false} HistoryIsDeduped(steps: seq<Step>)
    requires Exec(EMPTY, steps).Some?
    ensures Deduped(Exec(EMPTY, steps).value)
  {
    if steps != [] {
      var n := |steps| - 1;
      HistoryIsDeduped(steps[..n]);
      DedupedStep(Exec(EMPTY, steps[..n]).value, steps[n]);
    }
  }

  lemma {:induction false} CountTwo(s: seq<Req>, i: nat, j: nat, id: nat)
    requires i < j < |s| && s[i].id == id && s[j].id == id
    ensures Count(s, id) >= 2
  {
    if i > 0 {
      CountTwo(s[1..], i - 1, j - 1, id);
    } else {
      CountOne(s[1..], j - 1, id);
    }
  }

  lemma {:induction false} CountOne(s: seq<Req>, i: nat, id: nat)
    requires i < |s| && s[i].id == id
    ensures Count(s, id) >= 1
  {
    if i > 0 {
      CountOne(s[1..], i - 1, id);
    }
  }

  /** Each fingerprint is enqueued at most once by requests put with deduplication on. */
  lemma EnqueuedAtMostOnce(steps: seq<Step>, i: nat, j: nat)
    requires Exec(EMPTY, steps).Some?
    requires var b := Exec(EMPTY, steps).value;
             && i < |b.enqueued| && j < |b.enqueued| && b.enqueued[i].fp == b.enqueued[j].fp
             && b.enqueued[i].id in b.checked && b.enqueued[j].id in b.checked
    ensures i == j
  {
    var b := Exec(EMPTY, steps).value;
    HistoryIsDeduped(steps);
    var id := b.enqueued[i].id;
    assert Recorded(b, b.enqueued[i]) && Recorded(b, b.enqueued[j]);
    NothingIsLost(steps, id);
    if i < j {
      CountTwo(b.enqueued, i, j, id);
    } else if j < i {
      CountTwo(b.enqueued, j, i, id);
    }
  }

  // ---------------------------------------------------------------- witnesses

  predicate Is(r: Req, fp: string, id: nat) {
    r.fp == fp && r.id == id
  }

  ghost predicate InQueue(b: Buf, fp: string, id: nat) {
    exists k :: 0 <= k < |b.enqueued| && Is(b.enqueued[k], fp, id)
  }

  ghost predicate InPending(b: Buf, fp: string, id: nat) {
    exists k :: 0 <= k < |b.pending| && Is(b.pending[k], fp, id) && !b.pending[k].filterRepeat
  }

  ghost predicate InHand(h: Hand, fp: string, id: nat) {
    exists k :: 0 <= k < |h.rest| && Is(h.rest[k], fp, id) && (!h.rest[k].filterRepeat || (k == 0 && h.passed))
  }

  ghost predicate InHands(b: Buf, fp: string, id: nat) {
    exists f :: 0 <= f < |b.hands| && InHand(b.hands[f], fp, id)
  }

  ghost predicate InDrained(b: Buf, fp: string, id: nat) {
    exists k :: 0 <= k < |b.drained| && Is(b.drained[k], fp, id) && !b.drained[k].filterRepeat
  }

  /** The request that recorded the fingerprint is enqueued, or waits to be enqueued without
      being deduplicated again, or was drained with its flag cleared. */
  ghost predicate Witnessed(b: Buf, fp: string) {
    fp in b.passed ==>
      InQueue(b, fp, b.passed[fp]) || InPending(b, fp, b.passed[fp]) || InHands(b, fp, b.passed[fp])
          || InDrained(b, fp, b.passed[fp])
  }

  lemma WitnessedStep(b: Buf, step: Step, fp: string)
    requires Enabled(b, step) && Witnessed(b, fp)
    ensures Witnessed(Apply(b, step), fp)
  {
    var c := Apply(b, step);
    if fp in b.passed {
      var id := b.passed[fp];
      if InQueue(b, fp, id) {
        var k :| 0 <= k < |b.enqueued| && Is(b.enqueued[k], fp, id);
        assert Is(c.enqueued[k], fp, id);
      } else if InDrained(b, fp, id) {
        var k :| 0 <= k < |b.drained| && Is(b.drained[k], fp, id) && !b.drained[k].filterRepeat;
        assert c.drained[k] == b.drained[k];
      } else if InPending(b, fp, id) {
        PendingWitness(b, step, fp, id);
      } else {
        HandWitness(b, step, fp, id);
      }
    } else if fp in c.passed {
      assert InHand(c.hands[step.f], fp, c.passed[fp]) by {
        assert Is(c.hands[step.f].rest[0], fp, c.passed[fp]);
      }
    }
  }

  lemma PendingWitness(b: Buf, step: Step, fp: string, id: nat)
    requires Enabled(b, step) && InPending(b, fp, id)
    ensures InPending(Apply(b, step), fp, id) || InHands(Apply(b, step), fp, id) || InDrained(Apply(b, step), fp, id)
  {
    var c := Apply(b, step);
    var k :| 0 <= k < |b.pending| && Is(b.pending[k], fp, id) && !b.pending[k].filterRepeat;
    if step.Swap? {
      var h := c.hands[|b.hands|];
      assert Is(h.rest[k], fp, id);
      assert InHand(h, fp, id);
    } else if step.Drain? {
      assert c.drained[|b.drained| + k] == b.pending[k];
    } else {
      assert c.pending[k + |c.pending| - |b.pending|] == b.pending[k] || c.pending[k] == b.pending[k];
    }
  }

  lemma HandWitness(b: Buf, step: Step, fp: string, id: nat)
    requires Enabled(b, step) && InHands(b, fp, id)
    ensures var c := Apply(b, step); InQueue(c, fp, id) || InPending(c, fp, id) || InHands(c, fp, id)
  {
    var c := Apply(b, step);
    var f :| 0 <= f < |b.hands| && InHand(b.hands[f], fp, id);
    if step.Put? || step.Swap? || step.Drain? || step.f != f {
      assert InHand(c.hands[f], fp, id);
    } else {
      TouchedHandWitness(b, step, fp, id);
    }
  }

  lemma TouchedHandWitness(b: Buf, step: Step, fp: string, id: nat)
    requires !step.Put? && !step.Swap? && !step.Drain? && Enabled(b, step) && InHand(b.hands[step.f], fp, id)
    ensures var c := Apply(b, step); InQueue(c, fp, id) || InPending(c, fp, id) || InHands(c, fp, id)
  {
    var c, h := Apply(b, step), b.hands[step.f];
    var k :| 0 <= k < |h.rest| && Is(h.rest[k], fp, id) && (!h.rest[k].filterRepeat || (k == 0 && h.passed));
    match step {
      case AddFails(f) => assert c.pending[k] == h.rest[k];
      case PutFails(f) => assert Is(c.pending[k], fp, id) && !c.pending[k].filterRepeat;
      case PutOk(f) =>
        if k == 0 {
          assert c.enqueued[|b.enqueued|] == h.rest[0];
        } else {
          assert c.hands[f].rest[k - 1] == h.rest[k];
          assert InHand(c.hands[f], fp, id);
        }
      case Add(f) =>
        if h.rest[0].fp in b.passed {
          assert c.hands[f].rest[k - 1] == h.rest[k];
        } else {
          assert c.hands[f].rest[k] == h.rest[k];
        }
        assert InHand(c.hands[f], fp, id);
    }
  }

  /** Every dropped request has a witness with the same fingerprint that was enqueued, or that
      is still in the buffer and will be enqueued without passing the filter again. */
  lemma {:induction false} HistoryIsWitnessed(steps: seq<Step>, fp: string)
    requires Exec(EMPTY, steps).Some?
    ensures Witnessed(Exec(EMPTY, steps).value, fp)
  {
    if steps != [] {
      var n := |steps| - 1;
      HistoryIsWitnessed(steps[..n], fp);
      WitnessedStep(Exec(EMPTY, steps[..n]).value, steps[n], fp);
    }
  }

  lemma DroppedHasWitness(steps: seq<Step>, k: nat)
    requires Exec(EMPTY, steps).Some? && k < |Exec(EMPTY, steps).value.dropped|
    ensures var b := Exec(EMPTY, steps).value;
            var fp := b.dropped[k].fp;
            fp in b.passed &&
            (InQueue(b, fp, b.passed[fp]) || InPending(b, fp, b.passed[fp]) || InHands(b, fp, b.passed[fp])
                || InDrained(b, fp, b.passed[fp]))
  {
    HistoryIsDeduped(steps);
    HistoryIsWitnessed(steps, Exec(EMPTY, steps).value.dropped[k].fp);
  }

  lemma {:induction false} HandCountOne(hands: seq<Hand>, f: nat, k: nat, id: nat)
    requires f < |hands| && k < |hands[f].rest| && hands[f].rest[k].id == id
    ensures HandCount(hands, id) >= 1
  {
    CountOne(hands[f].rest, k, id);
    if f < |hands| - 1 {
      HandCountOne(hands[..|hands| - 1], f, k, id);
    }
  }

  lemma WitnessCounts(b: Buf, fp: string, id: nat)
    requires InQueue(b, fp, id) || InPending(b, fp, id) || InHands(b, fp, id) || InDrained(b, fp, id)
    ensures Count(b.pending, id) + HandCount(b.hands, id) + Count(b.enqueued, id) + Count(b.drained, id) >= 1
  {
    if InQueue(b, fp, id) {
      var k :| 0 <= k < |b.enqueued| && Is(b.enqueued[k], fp, id);
      CountOne(b.enqueued, k, id);
    } else if InPending(b, fp, id) {
      var k :| 0 <= k < |b.pending| && Is(b.pending[k], fp, id);
      CountOne(b.pending, k, id);
    } else if InDrained(b, fp, id) {
      var k :| 0 <= k < |b.drained| && Is(b.drained[k], fp, id);
      CountOne(b.drained, k, id);
    } else {
      var f :| 0 <= f < |b.hands| && InHand(b.hands[f], fp, id);
      var k :| 0 <= k < |b.hands[f].rest| && Is(b.hands[f].rest[k], fp, id);
      HandCountOne(b.hands, f, k, id);
    }
  }

  /** No request is ever dropped for the fingerprint it recorded itself, however often its
      enqueueing fails and is tried again. */
  lemma NeverDroppedByItself(steps: seq<Step>, k: nat)
    requires Exec(EMPTY, steps).Some? && k < |Exec(EMPTY, steps).value.dropped|
    ensures var b := Exec(EMPTY, steps).value;
            b.dropped[k].fp in b.passed && b.passed[b.dropped[k].fp] != b.dropped[k].id
  {
    hide Exec, InQueue, InPending, InHands, InDrained;
    var b := Exec(EMPTY, steps).value;
    var id := b.dropped[k].id;
    DroppedHasWitness(steps, k);
    NothingIsLost(steps, id);
    CountOne(b.dropped, k, id);
    if b.passed[b.dropped[k].fp] == id {
      WitnessCounts(b, b.dropped[k].fp, id);
    }
  }

  /** A request put without deduplication, as every retry is, is never dropped: after any
      history it is pending, in a flush, enqueued, or drained. */
  lemma RetryIsNeverSwallowed(steps: seq<Step>, id: nat)
    requires Exec(EMPTY, steps).Some?
    requires var b := Exec(EMPTY, steps).value; id in b.put && id !in b.checked
    ensures var b := Exec(EMPTY, steps).value;
            Count(b.pending, id) + HandCount(b.hands, id) + Count(b.enqueued, id) + Count(b.drained, id) == 1
  {
    hide Exec;
    var b := Exec(EMPTY, steps).value;
    HistoryIsDeduped(steps);
    NothingIsLost(steps, id);
    CountNone(b.dropped, id);
  }

  lemma {:induction false} CountNone(s: seq<Req>, id: nat)
    requires forall k | 0 <= k < |s| :: s[k].id != id
    ensures Count(s, id) == 0
  {
    if s != [] {
      CountNone(s[1..], id);
    }
  }

  // ---------------------------------------------------------------- order

  ghost predicate Increasing(rs: seq<Req>) {
    forall i, j | 0 <= i < j < |rs| :: rs[i].id < rs[j].id
  }

  /** What the flush in progress has left. */
  function Active(b: Buf): seq<Req> {
    if b.hands == [] then [] else b.hands[|b.hands| - 1].rest
  }

  /** Everything that was enqueued or will be, in that order. */
  function Line(b: Buf): seq<Req> {
    b.enqueued + Active(b) + b.pending
  }

  ghost predicate Ordered(b: Buf) {
    && (forall f | 0 <= f < |b.hands| - 1 :: b.hands[f].rest == [])
    && Increasing(Line(b))
    && (forall k | 0 <= k < |Line(b)| :: Line(b)[k].id in b.put)
  }

  /** Flushes do not overlap, and puts are numbered as they come. */
  ghost predicate InTurn(b: Buf, step: Step) {
    && (step.Swap? ==> Active(b) == [])
    && (step.Put? ==> forall id | id in b.put :: id < step.r.id)
  }

  lemma SameIds(rs: seq<Req>, ss: seq<Req>, b: Buf, c: Buf)
    requires |rs| == |ss| && forall k | 0 <= k < |rs| :: rs[k].id == ss[k].id
    requires Increasing(rs) && (forall k | 0 <= k < |rs| :: rs[k].id in b.put) && b.put <= c.put
    ensures Increasing(ss) && forall k | 0 <= k < |ss| :: ss[k].id in c.put
  {
  }

  lemma CutMiddle(a: seq<Req>, x: seq<Req>, z: seq<Req>, b: Buf)
    requires Increasing(a + x + z) && forall k | 0 <= k < |a + x + z| :: (a + x + z)[k].id in b.put
    ensures Increasing(a + z) && forall k | 0 <= k < |a + z| :: (a + z)[k].id in b.put
  {
    var l, m := a + x + z, a + z;
    forall k | 0 <= k < |m| ensures m[k] == l[if k < |a| then k else k + |x|] {
    }
  }

  /** Only the last flush has anything left. */
  lemma ActiveIsLast(b: Buf, f: nat)
    requires Ordered(b) && f < |b.hands| && b.hands[f].rest != []
    ensures f == |b.hands| - 1 && Active(b) == b.hands[f].rest
  {
  }

  lemma OrderedStep(b: Buf, step: Step)
    requires Ordered(b) && Enabled(b, step) && InTurn(b, step)
    ensures Ordered(Apply(b, step))
  {
    hide Ordered, Apply, Enabled;
    match step
    case Put(r) => OrderedPut(b, r);
    case Swap => OrderedSwap(b);
    case Drain => OrderedDrain(b);
    case AddFails(f) => OrderedAddFails(b, f);
    case Add(f) => OrderedAdd(b, f);
    case PutOk(f) => OrderedPutOk(b, f);
    case PutFails(f) => OrderedPutFails(b, f);
  }

  lemma OrderedSwap(b: Buf)
    requires Ordered(b) && Active(b) == []
    ensures Ordered(Apply(b, Swap))
  {
    assert Line(Apply(b, Swap)) == Line(b);
  }

  lemma OrderedDrain(b: Buf)
    requires Ordered(b)
    ensures Ordered(Apply(b, Step.Drain))
  {
    var left := b.enqueued + Active(b);
    assert Line(Apply(b, Step.Drain)) == left + [];
    assert Line(b) == left + b.pending + [];
    CutMiddle(left, b.pending, [], b);
  }

  lemma OrderedAddFails(b: Buf, f: nat)
    requires Ordered(b) && Enabled(b, AddFails(f))
    ensures Ordered(Apply(b, AddFails(f)))
  {
    ActiveIsLast(b, f);
    assert Line(Apply(b, AddFails(f))) == Line(b);
  }

  lemma OrderedPutOk(b: Buf, f: nat)
    requires Ordered(b) && Enabled(b, PutOk(f))
    ensures Ordered(Apply(b, PutOk(f)))
  {
    hide Increasing;
    ActiveIsLast(b, f);
    var rest, c := b.hands[f].rest, Apply(b, PutOk(f));
    assert Active(c) == rest[1..];
    MoveHead(b.enqueued, rest, b.pending);
    assert Line(c) == Line(b);
  }

  lemma MoveHead(a: seq<Req>, rest: seq<Req>, z: seq<Req>)
    requires rest != []
    ensures a + [rest[0]] + rest[1..] + z == a + rest + z
  {
    assert rest == [rest[0]] + rest[1..];
  }

  lemma OrderedPut(b: Buf, r: Req)
    requires Ordered(b) && Enabled(b, Step.Put(r)) && InTurn(b, Step.Put(r))
    ensures Ordered(Apply(b, Step.Put(r)))
  {
    var c := Apply(b, Step.Put(r));
    assert Line(c) == Line(b) + [r];
    forall k | 0 <= k < |Line(c)| ensures Line(c)[k].id in c.put && (k < |Line(b)| ==> Line(c)[k].id < r.id) {
      if k < |Line(b)| {
        assert Line(c)[k] == Line(b)[k];
      }
    }
  }

  lemma OrderedAdd(b: Buf, f: nat)
    requires Ordered(b) && Enabled(b, Add(f))
    ensures Ordered(Apply(b, Add(f)))
  {
    var c := Apply(b, Add(f));
    ActiveIsLast(b, f);
    var rest := b.hands[f].rest;
    if rest[0].fp in b.passed {
      assert rest == [rest[0]] + rest[1..];
      assert Line(b) == b.enqueued + [rest[0]] + (rest[1..] + b.pending);
      CutMiddle(b.enqueued, [rest[0]], rest[1..] + b.pending, b);
      assert Line(c) == b.enqueued + (rest[1..] + b.pending);
    } else {
      assert Line(c) == Line(b);
    }
  }

  lemma OrderedPutFails(b: Buf, f: nat)
    requires Ordered(b) && Enabled(b, PutFails(f))
    ensures Ordered(Apply(b, PutFails(f)))
  {
    var c := Apply(b, PutFails(f));
    ActiveIsLast(b, f);
    var rest := b.hands[f].rest;
    assert Line(c) == b.enqueued + ([rest[0].(filterRepeat := false)] + rest[1..] + b.pending);
    SameIds(Line(b), Line(c), b, c);
  }

  ghost predicate InTurnRun(steps: seq<Step>) {
    Exec(EMPTY, steps).Some? &&
    forall i | 0 <= i < |steps| :: Exec(EMPTY, steps[..i]).Some? && InTurn(Exec(EMPTY, steps[..i]).value, steps[i])
  }

  /** With flushes one after the other, failures put requests back in their place: what is
      enqueued, and what still waits, stays in the order of the puts. */
  lemma {:induction false} OrderIsKept(steps: seq<Step>)
    requires InTurnRun(steps)
    ensures Ordered(Exec(EMPTY, steps).value)
  {
    hide Ordered, Apply, InTurn;
    if steps == [] {
      EmptyOrdered();
    } else {
      var n := |steps| - 1;
      forall i | 0 <= i < n
        ensures Exec(EMPTY, steps[..n][..i]).Some? && InTurn(Exec(EMPTY, steps[..n][..i]).value, steps[..n][i])
      {
        assert steps[..n][..i] == steps[..i];
      }
      OrderIsKept(steps[..n]);
      assert InTurn(Exec(EMPTY, steps[..n]).value, steps[n]);
      OrderedStep(Exec(EMPTY, steps[..n]).value, steps[n]);
    }
  }

  lemma EmptyOrdered()
    ensures Ordered(EMPTY)
  {
  }
}
