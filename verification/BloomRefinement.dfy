/** The counter-derived Redis filter and the in-memory stack give the same answers, and both
    over-approximate an exact set. */
module BloomRefinement {
  import opened BloomSpec

  /** The same bits layer by layer, the same count, the same warning flag. Layers the stack
      has not grown yet are empty in Redis. */
  ghost predicate Rel(g: Geometry, s: Stack, r: Shared) {
    && Shaped(g, s)
    && |r.bits| == |g.caps| && r.counter == Total(s.layers) && r.warned == s.warned
    && (forall l | 0 <= l < |s.layers| :: r.bits[l] == s.layers[l].bits)
    && (forall l | |s.layers| <= l < |g.caps| :: r.bits[l] == {})
  }

  /** The layer the counter selects is the layer the stack writes, also at the moment the
      top is exactly full and the stack has not grown yet. */
  lemma TopIsGrownTop(g: Geometry, s: Stack)
    requires Good(g) && Shaped(g, s)
    ensures Top(g, Total(s.layers), 0) == |Grown(g, s.layers)| - 1
  {
    var n, t, want := Total(s.layers), Top(g, Total(s.layers), 0), |Grown(g, s.layers)| - 1;
    TotalTop(g, s);
    assert Cumulative(g.caps, want) <= n;
    assert want == |g.caps| - 1 || n < Cumulative(g.caps, want + 1);
    if t < want {
      CumulativeMonotone(g.caps, t + 1, want);
    }
  }

  lemma SameHits(g: Geometry, s: Stack, r: Shared, key: string, n: nat)
    requires Good(g) && Rel(g, s, r) && |s.layers| <= n
    ensures BitsHave(g, r.bits, key, n) <==> StackHas(g, s, key)
  {
    if StackHas(g, s, key) {
      var l :| 0 <= l < |s.layers| && g.pos(key, l) <= s.layers[l].bits;
      assert r.bits[l] == s.layers[l].bits;
    }
  }

  /** A key that hits changes neither filter. */
  lemma HitRefines(g: Geometry, s: Stack, r: Shared, key: string)
    requires Good(g) && Rel(g, s, r) && StackHas(g, s, key)
    requires BitsHave(g, r.bits, key, Top(g, r.counter, 0) + 1)
    ensures StackAdd(g, s, key) == (s, false) && SharedAdd(g, r, key) == (r, false)
  {
    hide Top, Total, Cumulative, BitsHave, StackHas;
  }

  /** Layer by layer the same bits, empty above. */
  ghost predicate SameBits(layers: seq<Layer>, bits: seq<set<nat>>) {
    && |layers| <= |bits|
    && (forall l | 0 <= l < |layers| :: bits[l] == layers[l].bits)
    && (forall l | |layers| <= l < |bits| :: bits[l] == {})
  }

  lemma GrownSameBits(g: Geometry, s: Stack, bits: seq<set<nat>>)
    requires 0 < |s.layers| <= |g.caps| == |bits| && SameBits(s.layers, bits)
    ensures SameBits(Grown(g, s.layers), bits)
  {
  }

  lemma WrittenSameBits(g: Geometry, s: Stack, bits: seq<set<nat>>, key: string)
    requires 0 < |s.layers| <= |g.caps| == |bits| && SameBits(s.layers, bits)
    ensures
      var top := |s.layers| - 1;
      SameBits(TopWritten(g, s, key).layers, bits[top := bits[top] + g.pos(key, top)])
  {
  }

  /** A key that misses is written to the same layer of both. */
  lemma MissRefines(g: Geometry, s: Stack, r: Shared, key: string)
    requires Good(g) && Rel(g, s, r) && !StackHas(g, s, key)
    requires Top(g, r.counter, 0) == |Grown(g, s.layers)| - 1 && !BitsHave(g, r.bits, key, Top(g, r.counter, 0) + 1)
    ensures StackAdd(g, s, key).1 && SharedAdd(g, r, key).1
    ensures Rel(g, StackAdd(g, s, key).0, SharedAdd(g, r, key).0)
  {
    hide Top, Total, Cumulative, BitsHave, StackHas, Grown, TopWritten;
    StackAddShaped(g, s, key);
    GrownSameBits(g, s, r.bits);
    WrittenSameBits(g, s.(layers := Grown(g, s.layers)), r.bits, key);
  }

  /** One add: same answer, related states, and the warning is raised at the same add. */
  lemma AddRefines(g: Geometry, s: Stack, r: Shared, key: string)
    requires Good(g) && Rel(g, s, r)
    ensures StackAdd(g, s, key).1 == SharedAdd(g, r, key).1
    ensures Rel(g, StackAdd(g, s, key).0, SharedAdd(g, r, key).0)
  {
    hide Top, Good, StackAdd, SharedAdd, Grown, BitsHave, StackHas, Total;
    TopIsGrownTop(g, s);
    GrownNotLower(g, s);
    SameHits(g, s, r, key, Top(g, r.counter, 0) + 1);
    if StackHas(g, s, key) {
      HitRefines(g, s, r, key);
    } else {
      MissRefines(g, s, r, key);
    }
  }

  lemma GrownNotLower(g: Geometry, s: Stack)
    requires 0 < |s.layers| <= |g.caps|
    ensures |s.layers| <= |Grown(g, s.layers)|
  {
  }

  /** The Redis membership test reads every layer, the stack only those it has grown. */
  lemma ContainsRefines(g: Geometry, s: Stack, r: Shared, key: string)
    requires Good(g) && Rel(g, s, r)
    ensures BitsHave(g, r.bits, key, |g.caps|) <==> StackHas(g, s, key)
  {
    SameHits(g, s, r, key, |g.caps|);
  }

  // ---------------------------------------------------------------- whole runs

  /** State and answers after adding `keys` in order. */
  ghost function StackRun(g: Geometry, keys: seq<string>): (r: (Stack, seq<bool>))
    requires Good(g)
    ensures Shaped(g, r.0) && |r.1| == |keys|
  {
    if keys == [] then (EMPTY_STACK, [])
    else
      var n := |keys| - 1;
      var (s, answers) := StackRun(g, keys[..n]);
      StackAddShaped(g, s, keys[n]);
      var (t, isNew) := StackAdd(g, s, keys[n]);
      (t, answers + [isNew])
  }

  ghost function SharedRun(g: Geometry, keys: seq<string>): (r: (Shared, seq<bool>))
    requires Good(g)
    ensures |r.0.bits| == |g.caps| && |r.1| == |keys|
  {
    if keys == [] then (Shared(seq(|g.caps|, _ => {}), 0, false), [])
    else
      var n := |keys| - 1;
      var (s, answers) := SharedRun(g, keys[..n]);
      var (t, isNew) := SharedAdd(g, s, keys[n]);
      (t, answers + [isNew])
  }

  /** For every add sequence the two filters answer alike and hold the same bits and count. */
  lemma {:induction false} RunRefines(g: Geometry, keys: seq<string>)
    requires Good(g)
    ensures StackRun(g, keys).1 == SharedRun(g, keys).1
    ensures Rel(g, StackRun(g, keys).0, SharedRun(g, keys).0)
  {
    if keys != [] {
      var n := |keys| - 1;
      RunRefines(g, keys[..n]);
      AddRefines(g, StackRun(g, keys[..n]).0, SharedRun(g, keys[..n]).0, keys[n]);
    }
  }

  function Trues(answers: seq<bool>): nat {
    if answers == [] then 0
    else Trues(answers[..|answers| - 1]) + if answers[|answers| - 1] then 1 else 0
  }

  /** The count is the number of keys answered fresh; both filters are saturated exactly when
      that number is above the total capacity. */
  lemma {:induction false} CountIsFreshAnswers(g: Geometry, keys: seq<string>)
    requires Good(g)
    ensures Total(StackRun(g, keys).0.layers) == Trues(StackRun(g, keys).1) == SharedRun(g, keys).0.counter
    ensures SharedRun(g, keys).0.warned == StackRun(g, keys).0.warned
            == (Trues(StackRun(g, keys).1) > Cumulative(g.caps, |g.caps|))
  {
    RunRefines(g, keys);
    if keys != [] {
      var n := |keys| - 1;
      CountIsFreshAnswers(g, keys[..n]);
      StackAddShaped(g, StackRun(g, keys[..n]).0, keys[n]);
      var answers := StackRun(g, keys).1;
      assert answers[..n] == StackRun(g, keys[..n]).1;
    } else {
      assert Total([Layer({}, 0)]) == Total([]) + 0;
    }
  }

  /** Bits are never cleared, so a key that hits keeps hitting. */
  lemma AddKeepsHits(g: Geometry, s: Stack, added: string, key: string)
    requires Good(g) && Shaped(g, s)
    ensures StackHas(g, s, key) ==> StackHas(g, StackAdd(g, s, added).0, key)
    ensures StackHas(g, StackAdd(g, s, added).0, added)
  {
    var t := StackAdd(g, s, added).0;
    if StackHas(g, s, key) {
      var l :| 0 <= l < |s.layers| && g.pos(key, l) <= s.layers[l].bits;
      assert s.layers[l].bits <= t.layers[l].bits;
    }
    if !StackHas(g, s, added) {
      var top := |t.layers| - 1;
      assert g.pos(added, top) <= t.layers[top].bits;
    }
  }

  /** No false negatives: every added key is found by both filters, forever. */
  lemma {:induction false} NoFalseNegatives(g: Geometry, keys: seq<string>, i: nat)
    requires Good(g) && i < |keys|
    ensures StackHas(g, StackRun(g, keys).0, keys[i])
    ensures BitsHave(g, SharedRun(g, keys).0.bits, keys[i], |g.caps|)
  {
    var n := |keys| - 1;
    if i < n {
      NoFalseNegatives(g, keys[..n], i);
    }
    AddKeepsHits(g, StackRun(g, keys[..n]).0, keys[n], keys[i]);
    RunRefines(g, keys);
    ContainsRefines(g, StackRun(g, keys).0, SharedRun(g, keys).0, keys[i]);
  }

  /** Against the exact filter: whatever a Bloom filter calls fresh is new to the exact set,
      so a repeated key is never let through twice. */
  lemma FreshImpliesExactFresh(g: Geometry, keys: seq<string>, i: nat)
    requires Good(g) && i < |keys|
    ensures StackRun(g, keys[..i + 1]).1[i] ==> keys[i] !in keys[..i]
  {
    if keys[i] in keys[..i] {
      var j :| 0 <= j < i && keys[j] == keys[i];
      NoFalseNegatives(g, keys[..i], j);
      assert keys[..i + 1][..i] == keys[..i];
    }
  }

  // ---------------------------------------------------------------- many nodes

  /** Bits and counter are shared; each node keeps its own warning flag. */
  datatype Cluster = Cluster(bits: seq<set<nat>>, counter: nat, warned: map<nat, bool>)

  datatype NodeAdd = NodeAdd(node: nat, key: string)

  function Flag(c: Cluster, node: nat): bool {
    node in c.warned && c.warned[node]
  }

  function ClusterAdd(g: Geometry, c: Cluster, op: NodeAdd): (Cluster, bool)
    requires g.caps != [] && |c.bits| == |g.caps|
  {
    var (r, isNew) := SharedAdd(g, Shared(c.bits, c.counter, Flag(c, op.node)), op.key);
    (Cluster(r.bits, r.counter, c.warned[op.node := r.warned]), isNew)
  }

  ghost function ClusterRun(g: Geometry, ops: seq<NodeAdd>): (r: (Cluster, seq<bool>))
    requires Good(g)
    ensures |r.0.bits| == |g.caps| && |r.1| == |ops|
  {
    if ops == [] then (Cluster(seq(|g.caps|, _ => {}), 0, map[]), [])
    else
      var n := |ops| - 1;
      var (c, answers) := ClusterRun(g, ops[..n]);
      var (d, isNew) := ClusterAdd(g, c, ops[n]);
      (d, answers + [isNew])
  }

  function KeysOf(ops: seq<NodeAdd>): seq<string> {
    seq(|ops|, i requires 0 <= i < |ops| => ops[i].key)
  }

  /** A node's flag influences neither the answer nor the shared state. */
  lemma FlagIsPrivate(g: Geometry, r: Shared, flag: bool, key: string)
    requires g.caps != [] && |r.bits| == |g.caps|
    ensures var (a, b) := (SharedAdd(g, r, key), SharedAdd(g, r.(warned := flag), key));
            a.1 == b.1 && a.0.bits == b.0.bits && a.0.counter == b.0.counter
  {
  }

  lemma {:induction false} NodesShareOneFilter(g: Geometry, ops: seq<NodeAdd>)
    requires Good(g)
    ensures ClusterRun(g, ops).1 == SharedRun(g, KeysOf(ops)).1
    ensures var c, r := ClusterRun(g, ops).0, SharedRun(g, KeysOf(ops)).0; c.bits == r.bits && c.counter == r.counter
  {
    assert g.caps != [];
    hide SharedAdd, Good;
    if ops != [] {
      var n := |ops| - 1;
      NodesShareOneFilter(g, ops[..n]);
      assert KeysOf(ops)[..n] == KeysOf(ops[..n]);
      var c := ClusterRun(g, ops[..n]).0;
      FlagIsPrivate(g, SharedRun(g, KeysOf(ops[..n])).0, Flag(c, ops[n].node), ops[n].key);
    }
  }

  /** However many nodes interleave their adds, together they answer like one in-memory
      filter fed the same keys. */
  lemma NodesActAsOneFilter(g: Geometry, ops: seq<NodeAdd>)
    requires Good(g)
    ensures ClusterRun(g, ops).1 == StackRun(g, KeysOf(ops)).1
    ensures ClusterRun(g, ops).0.counter == Trues(StackRun(g, KeysOf(ops)).1)
  {
    NodesShareOneFilter(g, ops);
    RunRefines(g, KeysOf(ops));
    CountIsFreshAnswers(g, KeysOf(ops));
  }
}
