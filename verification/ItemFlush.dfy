/** The item buffer object: buffered items with their owners, hooks, and the flush that
    persists a batch before it acknowledges anyone. */
module ItemFlush {
  import opened Seqs
  import opened ItemBuffer
  import opened ItemSinks

  type Owner = nat
  type Hook = nat

  /** The collector: requests queued locally, requests handed to workers, and the calls that
      acknowledge at the queue. */
  class Collector {
    var buffer: seq<Owner>
    var inProgress: set<Owner>
    var acked: seq<Owner>

    constructor ()
      ensures buffer == [] && inProgress == {} && acked == []
    {
      buffer, inProgress, acked := [], {}, [];
    }

    /** What the heartbeat renews. */
    ghost function Held(): set<Owner>
      reads this
    {
      Elems(buffer) + inProgress
    }

    // Getting a request is three critical sections. What the queue has given is held by nobody
    // until the second and the third have run.

    /** First: hand out a buffered request. The held requests stay the same. */
    method PopBuffered() returns (r: Option<Owner>)
      modifies this`buffer, this`inProgress
      ensures if old(buffer) == [] then r == None && buffer == [] && inProgress == old(inProgress)
              else r == Some(old(buffer)[0]) && buffer == old(buffer)[1..] && inProgress == old(inProgress) + {r.value}
      ensures Held() == old(Held())
    {
      if buffer == [] {
        return None;
      }
      r := Some(buffer[0]);
      assert buffer == [buffer[0]] + buffer[1..];
      inProgress := inProgress + {buffer[0]};
      buffer := buffer[1..];
    }

    /** Second: keep what the queue gave beyond the first. */
    method Stow(extra: seq<Owner>)
      modifies this`buffer
      ensures buffer == old(buffer) + extra && Held() == old(Held()) + Elems(extra)
    {
      buffer := buffer + extra;
    }

    /** Third: the first one goes to the caller. */
    method MarkInProgress(first: Owner)
      modifies this`inProgress
      ensures inProgress == old(inProgress) + {first} && Held() == old(Held()) + {first}
    {
      inProgress := inProgress + {first};
    }

    /** No longer in progress, then acknowledged at the queue; nothing asks whether the request
        was in progress. */
    method Done(r: Owner)
      modifies this`inProgress, this`acked
      ensures inProgress == old(inProgress) - {r} && acked == old(acked) + [r]
    {
      inProgress := inProgress - {r};
      acked := acked + [r];
    }

    method Drain() returns (rs: seq<Owner>)
      modifies this
      ensures rs == old(buffer) && buffer == [] && inProgress == old(inProgress) && acked == old(acked)
    {
      rs := buffer;
      buffer := [];
    }
  }

  datatype Entry = Entry(row: Row, owner: Option<Owner>)

  function Rows(batch: seq<Entry>): seq<Row> {
    seq(|batch|, i requires 0 <= i < |batch| => batch[i].row)
  }

  /** The owners of a batch, each once, in order of first appearance. */
  function OwnersOf(batch: seq<Entry>): seq<Owner> {
    if batch == [] then []
    else
      var n := |batch| - 1;
      var o := OwnersOf(batch[..n]);
      if batch[n].owner.Some? && batch[n].owner.value !in o then o + [batch[n].owner.value] else o
  }

  lemma {:induction false} OwnersOfExact(batch: seq<Entry>)
    ensures NoDup(OwnersOf(batch))
    ensures forall o :: o in OwnersOf(batch) <==> exists e :: e in batch && e.owner == Some(o)
  {
    if batch != [] {
      var n := |batch| - 1;
      OwnersOfExact(batch[..n]);
      forall o ensures o in OwnersOf(batch) <==> exists e :: e in batch && e.owner == Some(o) {
        assert forall e :: e in batch <==> e in batch[..n] || e == batch[n];
      }
    }
  }

  predicate Owns(pending: seq<Entry>, o: Owner) {
    exists i :: 0 <= i < |pending| && pending[i].owner == Some(o)
  }

  class Buffer {
    const sink: ItemSink
    const collector: Collector
    var pending: seq<Entry>
    var hooks: map<Owner, seq<Hook>>
    var ran: seq<Hook>

    constructor (sink: ItemSink, collector: Collector)
      ensures this.sink == sink && this.collector == collector && pending == [] && hooks == map[] && ran == []
    {
      this.sink := sink;
      this.collector := collector;
      pending, hooks, ran := [], map[], [];
    }

    method Put(row: Row, owner: Option<Owner>)
      modifies this`pending
      ensures pending == old(pending) + [Entry(row, owner)]
    {
      pending := pending + [Entry(row, owner)];
    }

    /** Check and registration in one critical section. */
    method AfterPersistIfPending(o: Owner, h: Hook) returns (registered: bool)
      modifies this`hooks
      ensures registered == Owns(pending, o)
      ensures hooks == if registered then old(hooks)[o := (if o in old(hooks) then old(hooks)[o] else []) + [h]]
          else old(hooks)
    {
      for i := 0 to |pending|
        invariant forall k | 0 <= k < i :: pending[k].owner != Some(o)
        invariant hooks == old(hooks)
      {
        if pending[i].owner == Some(o) {
          hooks := hooks[o := (if o in hooks then hooks[o] else []) + [h]];
          return true;
        }
      }
      return false;
    }

    /** Take the batch, persist it, and only then run hooks and acknowledge: when persisting
        raises, no owner is acknowledged and no hook runs; when it completes, every item of
        every acknowledged owner in the batch is settled. */
    method Flush(calls: Calls) returns (completed: bool)
      requires RecordedOnlyIfWritten(sink.View())
      modifies this, sink, collector`inProgress, collector`acked
      ensures RecordedOnlyIfWritten(sink.View()) && pending == []
      ensures !completed ==>
                && hooks == old(hooks) && ran == old(ran)
                && collector.inProgress == old(collector.inProgress) && collector.acked == old(collector.acked)
      ensures completed ==>
                && BatchSettled(sink.View(), sink.filterOn, Rows(old(pending)))
                && collector.inProgress == old(collector.inProgress) - Elems(OwnersOf(old(pending)))
                && collector.acked == old(collector.acked) + OwnersOf(old(pending))
                && hooks == old(hooks) - Elems(OwnersOf(old(pending)))
                && ran == old(ran) + HooksOf(old(hooks), OwnersOf(old(pending)))
    {
      hide RecordedOnlyIfWritten, BatchSettled;
      var batch := pending;
      pending := [];
      ghost var fl, acts;
      completed, fl, acts := sink.Persist(Rows(batch), calls);
      if completed {
        var owners := CollectOwners(batch);
        AckAll(owners);
      }
    }

    method CollectOwners(batch: seq<Entry>) returns (owners: seq<Owner>)
      ensures owners == OwnersOf(batch)
    {
      owners := [];
      for i := 0 to |batch|
        invariant owners == OwnersOf(batch[..i])
      {
        assert batch[..i + 1][..i] == batch[..i];
        if batch[i].owner.Some? && batch[i].owner.value !in owners {
          owners := owners + [batch[i].owner.value];
        }
      }
      assert batch[..|batch|] == batch;
    }

    method AckAll(owners: seq<Owner>)
      modifies this`hooks, this`ran, collector`inProgress, collector`acked
      ensures collector.inProgress == old(collector.inProgress) - Elems(owners)
      ensures collector.acked == old(collector.acked) + owners
      ensures hooks == old(hooks) - Elems(owners)
      ensures ran == old(ran) + HooksOf(old(hooks), owners)
    {
      assert old(hooks) - Elems(owners[..0]) == old(hooks);
      assert old(ran) + HooksOf(old(hooks), owners[..0]) == old(ran);
      for i := 0 to |owners|
        invariant collector.inProgress == old(collector.inProgress) - Elems(owners[..i])
        invariant collector.acked == old(collector.acked) + owners[..i]
        invariant hooks == old(hooks) - Elems(owners[..i])
        invariant ran == old(ran) + HooksOf(old(hooks), owners[..i])
      {
        var o := owners[i];
        HooksNext(old(hooks), owners, i);
        ran := ran + (if o in hooks then hooks[o] else []);
        hooks := hooks - {o};
        collector.Done(o);
        assert owners[..i + 1] == owners[..i] + [o];
      }
      assert owners[..|owners|] == owners;
    }
  }

  /** The hooks of a list of owners, owner by owner; an owner listed again has none left. */
  function HooksOf(hooks: map<Owner, seq<Hook>>, owners: seq<Owner>): seq<Hook> {
    if owners == [] then []
    else
      var n := |owners| - 1;
      HooksOf(hooks, owners[..n]) +
      if owners[n] in hooks && owners[n] !in owners[..n] then hooks[owners[n]] else []
  }

  /** Acknowledging a list of owners runs exactly the hooks registered for them, those of one owner
      in the order of their registration. */
  lemma {:induction false} HooksOfExact(hooks: map<Owner, seq<Hook>>, owners: seq<Owner>, h: Hook)
    ensures h in HooksOf(hooks, owners) <==> exists o :: o in owners && o in hooks && h in hooks[o]
    ensures |owners| == 1 && owners[0] in hooks ==> HooksOf(hooks, owners) == hooks[owners[0]]
  {
    if owners != [] {
      var n := |owners| - 1;
      HooksOfExact(hooks, owners[..n], h);
      assert forall o :: o in owners <==> o in owners[..n] || o == owners[n];
    }
  }

  lemma HooksNext(hooks: map<Owner, seq<Hook>>, owners: seq<Owner>, i: nat)
    requires i < |owners|
    ensures var left := hooks - Elems(owners[..i]);
            && HooksOf(hooks, owners[..i + 1]) == HooksOf(hooks, owners[..i])
                + (if owners[i] in left then left[owners[i]] else [])
            && left - {owners[i]} == hooks - Elems(owners[..i + 1])
            && Elems(owners[..i + 1]) == Elems(owners[..i]) + {owners[i]}
  {
    assert owners[..i + 1][..i] == owners[..i];
    assert owners[..i + 1] == owners[..i] + [owners[i]];
  }
}
