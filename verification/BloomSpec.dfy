/** Layered Bloom filters as values: the in-memory stack of layers and the Redis form that
    derives the layer to write from one shared counter. */
module BloomSpec {

  /** Layer capacities, and the bits a key occupies in each layer. */
  datatype Geometry = Geometry(caps: seq<nat>, pos: (string, nat) -> set<nat>)

  ghost predicate Good(g: Geometry) {
    && g.caps != []
    && (forall l | 0 <= l < |g.caps| :: g.caps[l] >= 1)
    && (forall key, l :: g.pos(key, l) != {})
  }

  /** Capacity of the first `n` layers together. */
  function Cumulative(caps: seq<nat>, n: nat): nat
    requires n <= |caps|
  {
    if n == 0 then 0 else Cumulative(caps, n - 1) + caps[n - 1]
  }

  // ---------------------------------------------------------------- in-memory stack

  datatype Layer = Layer(bits: set<nat>, count: nat)

  datatype Stack = Stack(layers: seq<Layer>, warned: bool)

  const EMPTY_STACK := Stack([Layer({}, 0)], false)

  predicate StackHas(g: Geometry, s: Stack, key: string) {
    exists l :: 0 <= l < |s.layers| && g.pos(key, l) <= s.layers[l].bits
  }

  /** A full top layer grows a new layer, unless the stack has reached its last one. */
  function Grown(g: Geometry, layers: seq<Layer>): (r: seq<Layer>)
    requires 0 < |layers| <= |g.caps|
    ensures 0 < |r| <= |g.caps|
  {
    var top := |layers| - 1;
    if layers[top].count >= g.caps[top] && |layers| < |g.caps| then layers + [Layer({}, 0)] else layers
  }

  /** Set the bits of the key in the top layer; the warning goes up when the last layer
      is above its capacity. */
  function TopWritten(g: Geometry, s: Stack, key: string): (t: Stack)
    requires 0 < |s.layers| <= |g.caps|
    ensures |t.layers| == |s.layers|
  {
    var top := |s.layers| - 1;
    var layer := Layer(s.layers[top].bits + g.pos(key, top), s.layers[top].count + 1);
    var saturated := |s.layers| >= |g.caps| && layer.count > g.caps[top];
    Stack(s.layers[top := layer], s.warned || saturated)
  }

  function StackAdd(g: Geometry, s: Stack, key: string): (r: (Stack, bool))
    requires 0 < |s.layers| <= |g.caps|
    ensures 0 < |r.0.layers| <= |g.caps|
  {
    if StackHas(g, s, key) then (s, false)
    else (TopWritten(g, s.(layers := Grown(g, s.layers)), key), true)
  }

  /** A freshly grown layer is empty, and no key has zero bits. */
  lemma GrownHasSame(g: Geometry, s: Stack, key: string)
    requires Good(g) && 0 < |s.layers| <= |g.caps|
    ensures StackHas(g, s.(layers := Grown(g, s.layers)), key) == StackHas(g, s, key)
  {
    var t := s.(layers := Grown(g, s.layers));
    if StackHas(g, s, key) {
      var l :| 0 <= l < |s.layers| && g.pos(key, l) <= s.layers[l].bits;
      assert t.layers[l] == s.layers[l];
    }
  }

  function Total(layers: seq<Layer>): nat {
    if layers == [] then 0 else Total(layers[..|layers| - 1]) + layers[|layers| - 1].count
  }

  // ---------------------------------------------------------------- Redis form

  datatype Shared = Shared(bits: seq<set<nat>>, counter: nat, warned: bool)

  /** First layer whose cumulative capacity is above the counter, or the last layer. */
  function Top(g: Geometry, n: nat, l: nat): (t: nat)
    requires l < |g.caps|
    ensures l <= t < |g.caps|
    ensures t == |g.caps| - 1 || n < Cumulative(g.caps, t + 1)
    ensures forall k | l < k <= t :: Cumulative(g.caps, k) <= n
    decreases |g.caps| - l
  {
    if n < Cumulative(g.caps, l + 1) || l == |g.caps| - 1 then l else Top(g, n, l + 1)
  }

  /** The key is present in one of the first `n` layers. */
  predicate BitsHave(g: Geometry, bits: seq<set<nat>>, key: string, n: nat) {
    exists l :: 0 <= l < n && l < |bits| && g.pos(key, l) <= bits[l]
  }

  function SharedAdd(g: Geometry, r: Shared, key: string): (Shared, bool)
    requires g.caps != [] && |r.bits| == |g.caps|
  {
    var top := Top(g, r.counter, 0);
    if BitsHave(g, r.bits, key, top + 1) then
      (r.(warned := r.warned || r.counter > Cumulative(g.caps, |g.caps|)), false)
    else
      (Shared(r.bits[top := r.bits[top] + g.pos(key, top)], r.counter + 1,
              r.warned || r.counter + 1 > Cumulative(g.caps, |g.caps|)), true)
  }

  // ---------------------------------------------------------------- shape of the stack

  /** Every layer below the top is exactly full; the top overflows only if it is the last. */
  ghost predicate Shaped(g: Geometry, s: Stack) {
    && 0 < |s.layers| <= |g.caps|
    && (forall l | 0 <= l < |s.layers| - 1 :: s.layers[l].count == g.caps[l])
    && (|s.layers| < |g.caps| ==> s.layers[|s.layers| - 1].count <= g.caps[|s.layers| - 1])
    && (|s.layers| > 1 ==> s.layers[|s.layers| - 1].count >= 1)
    && (s.warned <==> Total(s.layers) > Cumulative(g.caps, |g.caps|))
  }

  lemma {:induction false} TotalShaped(g: Geometry, layers: seq<Layer>)
    requires |layers| <= |g.caps| && forall l | 0 <= l < |layers| :: layers[l].count == g.caps[l]
    ensures Total(layers) == Cumulative(g.caps, |layers|)
  {
    if layers != [] {
      TotalShaped(g, layers[..|layers| - 1]);
    }
  }

  lemma {:induction false} CumulativeMonotone(caps: seq<nat>, m: nat, n: nat)
    requires m <= n <= |caps| && forall l | 0 <= l < |caps| :: caps[l] >= 1
    ensures Cumulative(caps, m) + (n - m) <= Cumulative(caps, n)
  {
    if m < n {
      CumulativeMonotone(caps, m, n - 1);
    }
  }

  /** The counts of a shaped stack determine its total. */
  lemma TotalTop(g: Geometry, s: Stack)
    requires 0 < |s.layers| <= |g.caps|
    requires forall l | 0 <= l < |s.layers| - 1 :: s.layers[l].count == g.caps[l]
    ensures Total(s.layers) == Cumulative(g.caps, |s.layers| - 1) + s.layers[|s.layers| - 1].count
  {
    TotalShaped(g, s.layers[..|s.layers| - 1]);
  }

  lemma TotalGrown(layers: seq<Layer>)
    ensures Total(layers + [Layer({}, 0)]) == Total(layers)
  {
    assert (layers + [Layer({}, 0)])[..|layers|] == layers;
  }

  lemma GrownShaped(g: Geometry, s: Stack)
    requires Good(g) && Shaped(g, s)
    ensures var r := Grown(g, s.layers);
            && Total(r) == Total(s.layers)
            && (forall l | 0 <= l < |r| - 1 :: r[l].count == g.caps[l])
            && (|r| < |g.caps| ==> r[|r| - 1].count < g.caps[|r| - 1])
  {
    hide Total, Cumulative;
    TotalGrown(s.layers);
    var r, n := Grown(g, s.layers), |s.layers|;
    forall l | 0 <= l < |r| - 1 ensures r[l].count == g.caps[l] {
      assert r[l] == s.layers[l];
    }
    assert |r| < |g.caps| ==> r[|r| - 1].count < g.caps[|r| - 1];
  }

  /** Adding keeps the shape: growth happens at exactly the capacity of the old top. */
  lemma StackAddShaped(g: Geometry, s: Stack, key: string)
    requires Good(g) && Shaped(g, s)
    ensures Shaped(g, StackAdd(g, s, key).0)
    ensures Total(StackAdd(g, s, key).0.layers) == Total(s.layers) + (if StackAdd(g, s, key).1 then 1 else 0)
  {
    hide Grown, StackHas;
    if !StackHas(g, s, key) {
      GrownShaped(g, s);
      WriteShaped(g, s.(layers := Grown(g, s.layers)), key);
    }
  }

  lemma WriteShaped(g: Geometry, s: Stack, key: string)
    requires Good(g) && 0 < |s.layers| <= |g.caps|
    requires forall l | 0 <= l < |s.layers| - 1 :: s.layers[l].count == g.caps[l]
    requires |s.layers| < |g.caps| ==> s.layers[|s.layers| - 1].count < g.caps[|s.layers| - 1]
    requires s.warned <==> Total(s.layers) > Cumulative(g.caps, |g.caps|)
    ensures Shaped(g, TopWritten(g, s, key)) && Total(TopWritten(g, s, key).layers) == Total(s.layers) + 1
  {
    var t, n := TopWritten(g, s, key), |s.layers|;
    TotalTop(g, s);
    TotalTop(g, t);
    CumulativeMonotone(g.caps, n, |g.caps|);
    assert Cumulative(g.caps, n) == Cumulative(g.caps, n - 1) + g.caps[n - 1];
  }
}
