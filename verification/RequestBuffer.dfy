/** The buffer between callbacks and the task queue. Requests are deduplicated and enqueued by
    flushes that may overlap, and every dedup or queue call may fail. */
module RequestBuffer {
  import opened Seqs

  /** `id` numbers the calls of `put`: an object put again after it left the buffer, as a retry
      is, counts anew. `filterRepeat` asks for deduplication. */
  datatype Req = Req(id: nat, fp: string, filterRepeat: bool)

  /** A flush in progress: what is left of its batch, and whether the dedup of the head has
      already answered "new". */
  datatype Hand = Hand(rest: seq<Req>, passed: bool)

  /** `enqueued` and `dropped` are the calls made so far. `passed` is the exact filter together
      with history: each recorded fingerprint and the request that recorded it. `put` lists
      the puts so far and `checked` those with deduplication on. `drained` is what was taken out
      at shutdown. */
  datatype Buf = Buf(pending: seq<Req>, hands: seq<Hand>, enqueued: seq<Req>, dropped: seq<Req>, drained: seq<Req>,
                     passed: map<string, nat>, put: multiset<nat>, checked: set<nat>)

  const EMPTY := Buf([], [], [], [], [], map[], multiset{}, {})

  datatype Step =
    | Put(r: Req)
    | Swap
    | AddFails(f: nat)
    | Add(f: nat)
    | PutOk(f: nat)
    | PutFails(f: nat)
    | Drain

  /** The head still has to pass the filter. */
  predicate AtDedup(h: Hand) {
    h.rest != [] && !h.passed && h.rest[0].filterRepeat
  }

  /** The head goes to the queue next. */
  predicate AtQueue(h: Hand) {
    h.rest != [] && (h.passed || !h.rest[0].filterRepeat)
  }

  predicate Enabled(b: Buf, step: Step) {
    match step
    case Put(r) => r.id !in b.put
    case Swap => true
    case Drain => true
    case AddFails(f) => f < |b.hands| && AtDedup(b.hands[f])
    case Add(f) => f < |b.hands| && AtDedup(b.hands[f])
    case PutOk(f) => f < |b.hands| && AtQueue(b.hands[f])
    case PutFails(f) => f < |b.hands| && AtQueue(b.hands[f])
  }

  function Apply(b: Buf, step: Step): Buf
    requires Enabled(b, step)
  {
    match step
    case Put(r) =>
      b.(pending := b.pending + [r], put := b.put + multiset{r.id},
         checked := if r.filterRepeat then b.checked + {r.id} else b.checked)
    case Swap => b.(hands := b.hands + [Hand(b.pending, false)], pending := [])
    case Drain => b.(drained := b.drained + b.pending, pending := [])
    case AddFails(f) =>
      // nothing was recorded: everything goes back, the flags as they are
      b.(hands := b.hands[f := Hand([], false)], pending := b.hands[f].rest + b.pending)
    case Add(f) =>
      var head, tail := b.hands[f].rest[0], b.hands[f].rest[1..];
      if head.fp in b.passed then b.(hands := b.hands[f := Hand(tail, false)], dropped := b.dropped + [head])
      else b.(hands := b.hands[f := Hand(b.hands[f].rest, true)], passed := b.passed[head.fp := head.id])
    case PutOk(f) =>
      var head, tail := b.hands[f].rest[0], b.hands[f].rest[1..];
      b.(hands := b.hands[f := Hand(tail, false)], enqueued := b.enqueued + [head])
    case PutFails(f) =>
      // the head is recorded already: it goes back with its flag cleared
      var head, tail := b.hands[f].rest[0], b.hands[f].rest[1..];
      b.(hands := b.hands[f := Hand([], false)], pending := [head.(filterRepeat := false)] + tail + b.pending)
  }

  /** The state a sequence of steps leads to, if every step is enabled when its turn comes. */
  function Exec(b: Buf, steps: seq<Step>): Option<Buf> {
    if steps == [] then Some(b)
    else
      var n := |steps| - 1;
      var c := Exec(b, steps[..n]);
      if c.Some? && Enabled(c.value, steps[n]) then Some(Apply(c.value, steps[n])) else None
  }

  lemma {:induction false} ExecConcat(b: Buf, s: seq<Step>, t: seq<Step>)
    requires Exec(b, s).Some?
    ensures Exec(b, s + t) == Exec(Exec(b, s).value, t)
  {
    if t == [] {
      assert s + t == s;
    } else {
      var n := |t| - 1;
      ExecConcat(b, s, t[..n]);
      assert (s + t)[..|s + t| - 1] == s + t[..n];
    }
  }

  lemma ExecOne(b: Buf, step: Step)
    requires Enabled(b, step)
    ensures Exec(b, [step]) == Some(Apply(b, step))
  {
    assert [step][..0] == [];
  }

  // ---------------------------------------------------------------- the buffer object

  class RequestBuffer {
    var pending: seq<Req>
    /** The exact filter and the queue the buffer writes to. */
    var seen: set<string>
    var queue: seq<Req>
    var dropped: seq<Req>
    var drained: seq<Req>
    ghost var passed: map<string, nat>
    ghost var put: multiset<nat>
    ghost var checked: set<nat>

    ghost predicate Valid()
      reads this
    {
      seen == passed.Keys
    }

    /** The buffer with the flushes `hands` in progress. */
    ghost function View(hands: seq<Hand>): Buf
      reads this
    {
      Buf(pending, hands, queue, dropped, drained, passed, put, checked)
    }

    constructor ()
      ensures Valid() && View([]) == EMPTY
    {
      pending, seen, queue, dropped, drained := [], {}, [], [], [];
      passed, put, checked := map[], multiset{}, {};
    }

    method Put(r: Req)
      requires Valid() && r.id !in put
      modifies this
      ensures Valid() && View([]) == Apply(old(View([])), Step.Put(r))
    {
      pending := pending + [r];
      put := put + multiset{r.id};
      checked := if r.filterRepeat then checked + {r.id} else checked;
    }

    /** A retry skips deduplication. */
    method PutRetry(r: Req)
      requires Valid() && r.id !in put
      modifies this
      ensures Valid() && View([]) == Apply(old(View([])), Step.Put(r.(filterRepeat := false)))
    {
      Put(r.(filterRepeat := false));
    }

    /** Everything pending is handed out, for the shutdown to push back. */
    method DrainPending() returns (batch: seq<Req>)
      requires Valid()
      modifies this
      ensures Valid() && batch == old(pending) && View([]) == Apply(old(View([])), Step.Drain)
    {
      batch := pending;
      drained := drained + pending;
      pending := [];
    }

    /** One flush. `addOk` and `putOk` say which dedup and queue calls succeed. It runs as a
        sequence of the atomic steps above on a batch of its own, and ends either with the
        batch used up or with the rest put back. */
    method Flush(addOk: seq<bool>, putOk: seq<bool>) returns (ok: bool, ghost steps: seq<Step>)
      requires Valid() && |addOk| == |pending| == |putOk|
      modifies this
      ensures Valid()
      ensures Exec(old(View([])), steps) == Some(View([Hand([], false)]))
      ensures ok ==> pending == []
      ensures !ok ==> |pending| > 0 && |pending| + |queue| + |dropped| == |old(pending)| + |old(queue)| + |old(dropped)|
    {
      hide Apply, Enabled;
      var batch := pending;
      pending := [];
      steps := [Swap];
      SwapAll(old(View([])));
      assert batch == batch[0..];
      for i := 0 to |batch|
        invariant Valid() && pending == [] && |queue| + |dropped| == |old(queue)| + |old(dropped)| + i
        invariant Exec(old(View([])), steps) == Some(View([Hand(batch[i..], false)]))
      {
        ghost var more;
        ok, more := Head(batch[i..], addOk[i], putOk[i]);
        ExecConcat(old(View([])), steps, more);
        steps := steps + more;
        if !ok {
          return;
        }
        assert batch[i..][1..] == batch[i + 1..];
      }
      ok := true;
    }

    /** The first request of a batch: dedup if asked for, then enqueue; put the batch back on
        a failure. */
    method Head(batch: seq<Req>, addOk: bool, putOk: bool) returns (ok: bool, ghost steps: seq<Step>)
      requires Valid() && batch != [] && pending == []
      modifies this
      ensures Valid()
      ensures Exec(old(View([Hand(batch, false)])), steps) == Some(View([Hand(if ok then batch[1..] else [], false)]))
      ensures |queue| + |dropped| == |old(queue)| + |old(dropped)| + if ok then 1 else 0
      ensures if ok then pending == [] else |pending| == |batch|
    {
      if !batch[0].filterRepeat {
        ok, steps := Enqueue(batch, false, putOk);
        return;
      }
      if !addOk {
        ExecOne(View([Hand(batch, false)]), AddFails(0));
        Replaced(Hand(batch, false), Hand([], false));
        pending := batch + pending;
        return false, [AddFails(0)];
      }
      ExecOne(View([Hand(batch, false)]), Add(0));
      Replaced(Hand(batch, false), Hand(batch[1..], false));
      Replaced(Hand(batch, false), Hand(batch, true));
      if batch[0].fp in seen {
        dropped := dropped + [batch[0]];
        return true, [Add(0)];
      }
      seen := seen + {batch[0].fp};
      passed := passed[batch[0].fp := batch[0].id];
      ok, steps := Enqueue(batch, true, putOk);
      ExecConcat(old(View([Hand(batch, false)])), [Add(0)], steps);
      steps := [Add(0)] + steps;
    }

    method Enqueue(batch: seq<Req>, afterDedup: bool, putOk: bool) returns (ok: bool, ghost steps: seq<Step>)
      requires Valid() && batch != [] && pending == [] && (afterDedup || !batch[0].filterRepeat)
      modifies this`pending, this`queue
      ensures Exec(old(View([Hand(batch, afterDedup)])), steps)
          == Some(View([Hand(if ok then batch[1..] else [], false)]))
      ensures |queue| == |old(queue)| + if ok then 1 else 0
      ensures if ok then pending == [] else |pending| == |batch|
    {
      if !putOk {
        ExecOne(View([Hand(batch, afterDedup)]), PutFails(0));
        Replaced(Hand(batch, afterDedup), Hand([], false));
        pending := [batch[0].(filterRepeat := false)] + batch[1..] + pending;
        return false, [PutFails(0)];
      }
      ExecOne(View([Hand(batch, afterDedup)]), PutOk(0));
      Replaced(Hand(batch, afterDedup), Hand(batch[1..], false));
      queue := queue + [batch[0]];
      return true, [PutOk(0)];
    }
  }

  lemma SwapAll(b: Buf)
    requires b.hands == []
    ensures Exec(b, [Swap]) == Some(b.(pending := [], hands := [Hand(b.pending, false)]))
  {
    ExecOne(b, Swap);
    assert b.hands + [Hand(b.pending, false)] == [Hand(b.pending, false)];
  }

  lemma Replaced(h: Hand, k: Hand)
    ensures [h][0 := k] == [k]
  {
  }
}
