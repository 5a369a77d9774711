/** The leased task queue: two Redis sorted sets, `queue` scored by priority and `inflight`
    scored by lease deadline. Every Lua script is one atomic method. */
module TaskQueue {
  import opened Seqs

  /** A member is the serialized request; it doubles as the lease token. */
  type Member = string
  type Zset = map<Member, real>

  /** `out` lists `count` members of `s` (all of them if there are fewer) with the lowest
      scores, lowest first; ties are left open. */
  ghost predicate Lowest(z: Zset, s: set<Member>, out: seq<Member>, count: nat) {
    && s <= z.Keys && NoDup(out)
    && |out| == (if count < |s| then count else |s|)
    && (forall i | 0 <= i < |out| :: out[i] in s)
    && (forall i, j | 0 <= i < j < |out| :: z[out[i]] <= z[out[j]])
    && (forall i, m | 0 <= i < |out| && m in s && m !in out :: z[out[i]] <= z[m])
  }

  function Expired(z: Zset, now: real): set<Member> {
    set m | m in z && z[m] <= now
  }

  /** Set every member of `out` to one score. */
  function AddAll(z: Zset, out: seq<Member>, score: real): (r: Zset)
    ensures forall m :: m in r <==> m in z || m in out
    ensures forall m | m in r :: r[m] == if m in out then score else z[m]
  {
    z + map m | m in out :: score
  }

  /** ZADD XX: move the deadline of members that are present, add none. */
  function Renewed(z: Zset, tokens: set<Member>, deadline: real): (r: Zset)
    ensures forall m :: m in r <==> m in z
    ensures forall m | m in r :: r[m] == if m in tokens then deadline else z[m]
  {
    z + map m | m in z && m in tokens :: deadline
  }

  lemma AddNone(z: Zset, score: real)
    ensures AddAll(z, [], score) == z
  {
  }

  lemma AddAllNext(z: Zset, out: seq<Member>, score: real, i: nat)
    requires i < |out|
    ensures AddAll(z, out[..i], score)[out[i] := score] == AddAll(z, out[..i + 1], score)
  {
    assert out[..i + 1] == out[..i] + [out[i]];
  }

  lemma RemoveNext(z: Zset, out: seq<Member>, i: nat)
    requires i < |out|
    ensures (z - Elems(out[..i])) - {out[i]} == z - Elems(out[..i + 1])
  {
    assert out[..i + 1] == out[..i] + [out[i]];
  }

  lemma RenewedNext(z: Zset, tokens: seq<Member>, deadline: real, i: nat)
    requires i < |tokens|
    ensures var r := Renewed(z, Elems(tokens[..i]), deadline);
            Renewed(z, Elems(tokens[..i + 1]), deadline) == if tokens[i] in r then r[tokens[i] := deadline] else r
  {
    assert tokens[..i + 1] == tokens[..i] + [tokens[i]];
  }

  /** Members whose deadline a renewal really changes. */
  function Changed(z: Zset, tokens: seq<Member>, deadline: real): set<Member> {
    set m | m in tokens && m in z && z[m] != deadline
  }

  lemma ChangedNext(z: Zset, tokens: seq<Member>, deadline: real, i: nat)
    requires i < |tokens|
    ensures var r := Renewed(z, Elems(tokens[..i]), deadline);
            |Changed(z, tokens[..i + 1], deadline)| ==
            |Changed(z, tokens[..i], deadline)| + if tokens[i] in r && r[tokens[i]] != deadline then 1 else 0
  {
    var m, a, b := tokens[i], Changed(z, tokens[..i], deadline), Changed(z, tokens[..i + 1], deadline);
    assert tokens[..i + 1] == tokens[..i] + [m];
    if m in z && z[m] != deadline && m !in tokens[..i] {
      assert b == a + {m};
    } else {
      assert b == a;
    }
  }

  lemma {:induction false} MinExists(z: Zset, s: set<Member>)
    requires s != {} && s <= z.Keys
    ensures exists m :: m in s && forall x | x in s :: z[m] <= z[x]
    decreases s
  {
    var m :| m in s;
    if s != {m} {
      MinExists(z, s - {m});
      var k :| k in s - {m} && forall x | x in s - {m} :: z[k] <= z[x];
      var best := if z[m] <= z[k] then m else k;
      assert forall x | x in s :: z[best] <= z[x];
    }
  }

  /** What a reclaim returned goes before everything with a positive score: the next take that
      takes such a member takes every returned one too. */
  lemma ReclaimedGoFirst(queue: Zset, moved: seq<Member>, out: seq<Member>, count: nat, m: Member, x: Member)
    requires var z := AddAll(queue, moved, 0.0); Lowest(z, z.Keys, out, count) && x in z && z[x] > 0.0
    requires m in moved && x in out
    ensures m in out
  {
    hide AddAll;
    var z := AddAll(queue, moved, 0.0);
    var i :| 0 <= i < |out| && out[i] == x;
    assert m in z && z[m] == 0.0;
  }

  class RedisTaskQueue {
    var queue: Zset
    var inflight: Zset

    constructor ()
      ensures queue == map[] && inflight == map[]
    {
      queue, inflight := map[], map[];
    }

    method PickLowest(z: Zset, s: set<Member>, count: nat) returns (out: seq<Member>)
      requires s <= z.Keys
      ensures Lowest(z, s, out, count)
    {
      out := [];
      var rest := s;
      while |out| < count && rest != {}
        invariant rest <= s && |rest| + |out| == |s| && |out| <= count
        invariant forall m :: m in s <==> m in rest || m in out
        invariant forall i | 0 <= i < |out| :: out[i] !in rest && out[i] in s
        invariant NoDup(out)
        invariant forall i, j | 0 <= i < j < |out| :: z[out[i]] <= z[out[j]]
        invariant forall i, m | 0 <= i < |out| && m in rest :: z[out[i]] <= z[m]
        decreases |rest|
      {
        MinExists(z, rest);
        var m :| m in rest && forall x | x in rest :: z[m] <= z[x];
        rest := rest - {m};
        out := out + [m];
      }
    }

    method Put(member: Member, priority: real)
      modifies this
      ensures queue == old(queue)[member := priority] && inflight == old(inflight)
    {
      queue := queue[member := priority];
    }

    /** Pop and, with leases on, record the deadline in the same step. */
    method TakeScript(count: nat, deadline: real) returns (out: seq<Member>)
      modifies this
      ensures Lowest(old(queue), old(queue).Keys, out, count)
      ensures queue == old(queue) - Elems(out)
      ensures inflight == if deadline > 0.0 then AddAll(old(inflight), out, deadline) else old(inflight)
    {
      out := PickLowest(queue, queue.Keys, count);
      queue := queue - Elems(out);
      if deadline > 0.0 {
        RecordAll(out, deadline);
      }
    }

    method RecordAll(out: seq<Member>, deadline: real)
      modifies this`inflight
      ensures inflight == AddAll(old(inflight), out, deadline)
    {
      hide AddAll;
      AddNone(inflight, deadline);
      assert out[..0] == [];
      for i := 0 to |out|
        invariant inflight == AddAll(old(inflight), out[..i], deadline)
      {
        AddAllNext(old(inflight), out, deadline, i);
        inflight := inflight[out[i] := deadline];
      }
      assert out[..|out|] == out;
    }

    /** With leases off the plain pop is used, and nothing is recorded. */
    method Take(count: int, now: real, lease: real) returns (out: seq<Member>)
      requires now >= 0.0
      modifies this
      ensures Lowest(old(queue), old(queue).Keys, out, Max(1, count))
      ensures queue == old(queue) - Elems(out)
      ensures inflight == if lease > 0.0 then AddAll(old(inflight), out, now + lease) else old(inflight)
    {
      if lease <= 0.0 {
        out := PickLowest(queue, queue.Keys, Max(1, count));
        queue := queue - Elems(out);
      } else {
        out := TakeScript(Max(1, count), now + lease);
      }
    }

    method RenewScript(deadline: real, tokens: seq<Member>) returns (renewed: nat)
      modifies this
      ensures queue == old(queue) && inflight == Renewed(old(inflight), Elems(tokens), deadline)
      ensures renewed == |Changed(old(inflight), tokens, deadline)|
    {
      renewed := 0;
      assert Changed(inflight, tokens[..0], deadline) == {};
      assert Renewed(inflight, Elems(tokens[..0]), deadline) == inflight;
      hide Changed, Renewed, Elems;
      for i := 0 to |tokens|
        invariant queue == old(queue) && inflight == Renewed(old(inflight), Elems(tokens[..i]), deadline)
        invariant renewed == |Changed(old(inflight), tokens[..i], deadline)|
      {
        RenewedNext(old(inflight), tokens, deadline, i);
        ChangedNext(old(inflight), tokens, deadline, i);
        if tokens[i] in inflight {
          if inflight[tokens[i]] != deadline {
            renewed := renewed + 1;
          }
          inflight := inflight[tokens[i] := deadline];
        }
      }
      assert tokens[..|tokens|] == tokens;
    }

    /** Move expired members back to the head of the queue, at most `limit` of them. */
    method ReclaimScript(now: real, limit: int) returns (moved: seq<Member>)
      modifies this
      ensures Lowest(old(inflight), Expired(old(inflight), now), moved, Max(1, limit))
      ensures inflight == old(inflight) - Elems(moved)
      ensures queue == AddAll(old(queue), moved, 0.0)
    {
      moved := PickLowest(inflight, Expired(inflight, now), Max(1, limit));
      AddNone(queue, 0.0);
      assert moved[..0] == [];
      assert inflight - Elems(moved[..0]) == inflight;
      hide AddAll, Elems;
      for i := 0 to |moved|
        invariant inflight == old(inflight) - Elems(moved[..i])
        invariant queue == AddAll(old(queue), moved[..i], 0.0)
      {
        RemoveNext(old(inflight), moved, i);
        AddAllNext(old(queue), moved, 0.0, i);
        inflight := inflight - {moved[i]};
        queue := queue[moved[i] := 0.0];
      }
      assert moved[..|moved|] == moved;
    }

    method DoneMember(member: Member)
      modifies this
      ensures inflight == old(inflight) - {member} && queue == old(queue)
    {
      inflight := inflight - {member};
    }

    /** The blocking pop: the member leaves the queue before any lease exists. */
    method BzPopMin() returns (member: Option<Member>)
      modifies this
      ensures inflight == old(inflight)
      ensures member.None? ==> queue == old(queue) == map[]
      ensures member.Some? ==>
                && Lowest(old(queue), old(queue).Keys, [member.value], 1)
                && queue == old(queue) - {member.value}
    {
      var out := PickLowest(queue, queue.Keys, 1);
      if out == [] {
        return None;
      }
      queue := queue - {out[0]};
      return Some(out[0]);
    }

    method RecordLease(member: Member, deadline: real)
      modifies this
      ensures inflight == old(inflight)[member := deadline] && queue == old(queue)
    {
      inflight := inflight[member := deadline];
    }
  }
}
