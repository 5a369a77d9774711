/** Handing unfinished requests back to Redis when a node shuts down. */
module Shutdown {
  import opened Seqs
  import opened TaskQueue

  /** `payload` is what the request serializes to now, `token` what it was leased under. */
  datatype Req = Req(payload: Member, priority: real, token: Option<Member>)

  datatype Sets = Sets(queue: Zset, inflight: Zset)

  function PutReq(s: Sets, r: Req): Sets {
    s.(queue := s.queue[r.payload := r.priority])
  }

  function AckReq(s: Sets, r: Req): Sets {
    if r.token.None? then s else s.(inflight := s.inflight - {r.token.value})
  }

  /** The two sets after `n` requests were put and acknowledged; an acknowledgement that fails is
      swallowed and leaves the lease. */
  function Handed(s: Sets, rs: seq<Req>, ackOk: seq<bool>, n: nat): Sets
    requires n <= |rs| == |ackOk|
  {
    if n == 0 then s
    else
      var t := PutReq(Handed(s, rs, ackOk, n - 1), rs[n - 1]);
      if ackOk[n - 1] then AckReq(t, rs[n - 1]) else t
  }

  /** A leased request is still recorded somewhere in Redis. */
  predicate Safe(s: Sets, r: Req) {
    r.token.Some? ==> r.payload in s.queue || r.token.value in s.inflight || r.token.value in s.queue
  }

  ghost predicate PutBefore(rs: seq<Req>, n: nat, m: Member) {
    exists j :: 0 <= j < n && j < |rs| && rs[j].payload == m
  }

  /** If a later request was leased under the token of an earlier one, then by the time that
      token is acknowledged the later request, or what the token stands for, has been put. */
  ghost predicate TokensCovered(rs: seq<Req>) {
    forall i, r | 0 <= i < r < |rs| && rs[r].token.Some? && rs[i].token == rs[r].token ::
      PutBefore(rs, i + 1, rs[r].payload) || PutBefore(rs, i + 1, rs[r].token.value)
  }

  lemma {:induction false} HandedQueue(s: Sets, rs: seq<Req>, ackOk: seq<bool>, n: nat, m: Member)
    requires n <= |rs| == |ackOk|
    ensures m in Handed(s, rs, ackOk, n).queue <==> m in s.queue || PutBefore(rs, n, m)
  {
    if n > 0 {
      HandedQueue(s, rs, ackOk, n - 1, m);
      var j := n - 1;
      assert rs[j].payload == m ==> PutBefore(rs, n, m);
      if PutBefore(rs, n, m) && rs[j].payload != m {
        var k :| 0 <= k < n && k < |rs| && rs[k].payload == m;
        assert PutBefore(rs, n - 1, m);
      }
      if PutBefore(rs, n - 1, m) {
        var k :| 0 <= k < n - 1 && k < |rs| && rs[k].payload == m;
        assert PutBefore(rs, n, m);
      }
    }
  }

  lemma {:induction false} HandedInflight(s: Sets, rs: seq<Req>, ackOk: seq<bool>, n: nat, m: Member)
    requires n <= |rs| == |ackOk| && m in s.inflight && m !in Handed(s, rs, ackOk, n).inflight
    ensures exists i :: 0 <= i < n && rs[i].token == Some(m)
  {
    if n > 0 && m !in Handed(s, rs, ackOk, n - 1).inflight {
      HandedInflight(s, rs, ackOk, n - 1, m);
    } else if n > 0 {
      assert rs[n - 1].token == Some(m);
    }
  }

  lemma {:induction false} AckedIsGone(s: Sets, rs: seq<Req>, ackOk: seq<bool>, n: nat, i: nat)
    requires i < n <= |rs| == |ackOk| && ackOk[i] && rs[i].token.Some?
    ensures rs[i].token.value !in Handed(s, rs, ackOk, n).inflight
  {
    if i < n - 1 {
      AckedIsGone(s, rs, ackOk, n - 1, i);
    }
  }

  /** No request pushed after `i`, among the first `n`, has the same payload. */
  ghost predicate LastOf(rs: seq<Req>, i: nat, n: nat)
    requires i < |rs|
  {
    forall k | i < k < n && k < |rs| :: rs[k].payload != rs[i].payload
  }

  /** A pushed request is queued at its own priority, and nobody else's score changes. */
  lemma {:induction false} HandedScores(s: Sets, rs: seq<Req>, ackOk: seq<bool>, n: nat)
    requires n <= |rs| == |ackOk|
    ensures
      var q := Handed(s, rs, ackOk, n).queue;
      && (forall i | 0 <= i < n && LastOf(rs, i, n) :: rs[i].payload in q && q[rs[i].payload] == rs[i].priority)
      && (forall m | m in s.queue && !PutBefore(rs, n, m) :: m in q && q[m] == s.queue[m])
  {
    if n > 0 {
      HandedScores(s, rs, ackOk, n - 1);
      var p, q := Handed(s, rs, ackOk, n - 1).queue, Handed(s, rs, ackOk, n).queue;
      assert q == p[rs[n - 1].payload := rs[n - 1].priority];
      forall i | 0 <= i < n && LastOf(rs, i, n) ensures rs[i].payload in q && q[rs[i].payload] == rs[i].priority {
        if i < n - 1 {
          assert rs[n - 1].payload != rs[i].payload && LastOf(rs, i, n - 1);
        }
      }
      forall m | m in s.queue && !PutBefore(rs, n, m) ensures m in q && q[m] == s.queue[m] {
        var j := n - 1;
        assert rs[j].payload != m && !PutBefore(rs, n - 1, m);
      }
    }
  }

  /** Stopping the loop after `n` requests, or between the put and the acknowledgement of the
      next, leaves request `r` where it was safe before. */
  ghost predicate SafeAt(s: Sets, rs: seq<Req>, ackOk: seq<bool>, n: nat, r: nat)
    requires n <= |rs| == |ackOk| && r < |rs|
  {
    Safe(s, rs[r]) ==>
      && Safe(Handed(s, rs, ackOk, n), rs[r])
      && (n < |rs| ==> Safe(PutReq(Handed(s, rs, ackOk, n), rs[n]), rs[r]))
  }

  lemma StoppingAnywhereIsSafe(s: Sets, rs: seq<Req>, ackOk: seq<bool>, n: nat, r: nat)
    requires n <= |rs| == |ackOk| && r < |rs| && TokensCovered(rs)
    ensures SafeAt(s, rs, ackOk, n, r)
  {
    hide Handed, TokensCovered;
    if Safe(s, rs[r]) && rs[r].token.Some? {
      var t, m := Handed(s, rs, ackOk, n), rs[r].token.value;
      HandedQueue(s, rs, ackOk, n, rs[r].payload);
      HandedQueue(s, rs, ackOk, n, m);
      if m in s.inflight && m !in t.inflight {
        HandedInflight(s, rs, ackOk, n, m);
        var i :| 0 <= i < n && rs[i].token == Some(m);
        CoveredPut(rs, i, r, n);
      }
    }
  }

  lemma CoveredPut(rs: seq<Req>, i: nat, r: nat, n: nat)
    requires TokensCovered(rs) && i < n <= |rs| && r < |rs| && rs[r].token.Some? && rs[i].token == rs[r].token
    ensures PutBefore(rs, n, rs[r].payload) || PutBefore(rs, n, rs[r].token.value)
  {
    if r < n {
      assert rs[r].payload == rs[r].payload;
    } else {
      var m := if PutBefore(rs, i + 1, rs[r].payload) then rs[r].payload else rs[r].token.value;
      var j :| 0 <= j < i + 1 && j < |rs| && rs[j].payload == m;
      assert PutBefore(rs, n, m);
    }
  }

  /** Whatever Redis holds and whichever acknowledgements fail, stopping anywhere is safe for
      every drained request if and only if tokens leased twice are covered. */
  lemma StoppingIsSafeIff(rs: seq<Req>)
    ensures (forall s, ackOk: seq<bool>, n: nat, r: nat | n <= |rs| == |ackOk| && r < |rs| ::
               SafeAt(s, rs, ackOk, n, r)) <==> TokensCovered(rs)
  {
    hide Handed, PutBefore, SafeAt;
    if TokensCovered(rs) {
      forall s, ackOk: seq<bool>, n: nat, r: nat | n <= |rs| == |ackOk| && r < |rs| ensures SafeAt(s, rs, ackOk, n, r) {
        StoppingAnywhereIsSafe(s, rs, ackOk, n, r);
      }
    } else {
      var i, r :| 0 <= i < r < |rs| && rs[r].token.Some? && rs[i].token == rs[r].token
                  && !PutBefore(rs, i + 1, rs[r].payload) && !PutBefore(rs, i + 1, rs[r].token.value);
      var s, ackOk := UncoveredLoses(rs, i, r);
      assert !SafeAt(s, rs, ackOk, i + 1, r);
    }
  }

  lemma UncoveredLoses(rs: seq<Req>, i: nat, r: nat) returns (s: Sets, ackOk: seq<bool>)
    requires i < r < |rs| && rs[r].token.Some? && rs[i].token == rs[r].token
    requires !PutBefore(rs, i + 1, rs[r].payload) && !PutBefore(rs, i + 1, rs[r].token.value)
    ensures |ackOk| == |rs| && !SafeAt(s, rs, ackOk, i + 1, r)
  {
    hide Handed, PutBefore;
    s, ackOk := Sets(map[], map[rs[r].token.value := 0.0]), seq(|rs|, _ => true);
    AckedIsGone(s, rs, ackOk, i + 1, i);
    HandedQueue(s, rs, ackOk, i + 1, rs[r].payload);
    HandedQueue(s, rs, ackOk, i + 1, rs[r].token.value);
  }

  /** In the opposite order - acknowledge, then put - a stop in between loses the request. */
  lemma AckBeforePutLoses(r: Req)
    requires r.token.Some? && r.payload != r.token.value
    ensures var s := Sets(map[], map[r.token.value := 0.0]); Safe(s, r) && !Safe(AckReq(s, r), r)
  {
  }

  /** The push-back loop. `putOk` says which puts succeed; the first failure dumps the rest
      to disk if dumping is enabled, and `dumpOk` says whether that write succeeds. `ackOk` says
      which acknowledgements reach Redis; one that does not is swallowed. */
  method PushBack(q: RedisTaskQueue, leftovers: seq<Req>, putOk: seq<bool>, ackOk: seq<bool>, dumpEnabled: bool,
        dumpOk: bool)
    returns (pushed: nat, dumped: seq<Req>)
    requires |putOk| == |leftovers| == |ackOk|
    modifies q
    ensures pushed <= |leftovers|
    ensures forall i | 0 <= i < pushed :: putOk[i]
    ensures pushed < |leftovers| ==> !putOk[pushed]
    ensures Sets(q.queue, q.inflight) == Handed(Sets(old(q.queue), old(q.inflight)), leftovers, ackOk, pushed)
    ensures forall i | 0 <= i < pushed && LastOf(leftovers, i, pushed) ::
              leftovers[i].payload in q.queue && q.queue[leftovers[i].payload] == leftovers[i].priority
    ensures forall m | m in old(q.queue) && !PutBefore(leftovers, pushed, m) ::
              m in q.queue && q.queue[m] == old(q.queue)[m]
    ensures dumpEnabled && dumpOk ==> leftovers[..pushed] + dumped == leftovers
    ensures !(dumpEnabled && dumpOk) ==> dumped == []
  {
    pushed, dumped := 0, [];
    while pushed < |leftovers| && putOk[pushed]
      invariant pushed <= |leftovers| && forall i | 0 <= i < pushed :: putOk[i]
      invariant Sets(q.queue, q.inflight) == Handed(Sets(old(q.queue), old(q.inflight)), leftovers, ackOk, pushed)
    {
      var r := leftovers[pushed];
      q.Put(r.payload, r.priority);
      if r.token.Some? && ackOk[pushed] {
        q.DoneMember(r.token.value);
      }
      pushed := pushed + 1;
    }
    HandedScores(Sets(old(q.queue), old(q.inflight)), leftovers, ackOk, pushed);
    if pushed < |leftovers| && dumpEnabled && dumpOk {
      dumped := leftovers[pushed..];
    }
  }
}
