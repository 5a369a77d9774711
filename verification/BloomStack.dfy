/** The in-memory filter that grows a layer when the top one is full. */
module BloomStack {
  import opened BloomSpec
  import opened BloomFilters

  /** `f` has the parameters of layer `l`. */
  ghost predicate IsLayer(f: MemoryBloomFilter, h: Hashing, c: Config, l: nat)
    reads f
  {
    && f.Valid() && f.hashing == h && f.capacity == LayerCapacity(c, l)
    && f.size == LayerSize(h, c, l) && f.hashes == OptimalHashes(h, f.size, f.capacity)
  }

  class ScalableBloomFilter {
    const hashing: Hashing
    const config: Config
    var layers: seq<MemoryBloomFilter>
    var warned: bool
    /** The value this filter stands for. */
    ghost var stack: Stack

    ghost predicate Valid()
      reads this, layers, set f | f in layers :: f.bits
    {
      && 0 < |layers| <= Layers(config)
      && (forall l | 0 <= l < |layers| :: IsLayer(layers[l], hashing, config, l))
      && (forall i, j | 0 <= i < j < |layers| :: layers[i] != layers[j] && layers[i].bits != layers[j].bits)
      && stack.warned == warned && |stack.layers| == |layers|
      && (forall l | 0 <= l < |layers| :: stack.layers[l] == Layer(layers[l].Bits(), layers[l].count))
    }

    ghost function Geo(): Geometry {
      GeometryOf(hashing, config)
    }

    constructor (hashing: Hashing, config: Config)
      requires StackAccepts(config)
      ensures Valid() && stack == EMPTY_STACK
      ensures this.hashing == hashing && this.config == config
      ensures fresh(layers) && forall f | f in layers :: fresh(f.bits)
    {
      this.hashing := hashing;
      this.config := config;
      var layer := new MemoryBloomFilter(hashing, LayerCapacity(config, 0), LayerError(config, 0));
      layers := [layer];
      warned := false;
      stack := EMPTY_STACK;
    }

    method Contains(key: string) returns (found: bool)
      requires Valid()
      ensures found <==> StackHas(Geo(), stack, key)
    {
      for l := 0 to |layers|
        invariant forall k | 0 <= k < l :: !(Geo().pos(key, k) <= stack.layers[k].bits)
      {
        var hit := layers[l].Contains(key);
        if hit {
          assert Geo().pos(key, l) <= stack.layers[l].bits;
          return true;
        }
      }
      return false;
    }

    method MakeLayer(l: nat) returns (layer: MemoryBloomFilter)
      ensures IsLayer(layer, hashing, config, l) && fresh(layer) && fresh(layer.bits)
      ensures layer.Bits() == {} && layer.count == 0
    {
      layer := new MemoryBloomFilter(hashing, LayerCapacity(config, l), LayerError(config, l));
    }

    /** A new top layer when the old one is full, as long as layers are left. */
    method Grow()
      requires Valid()
      modifies this`layers, this`stack
      ensures Valid() && |old(layers)| <= |layers| <= |old(layers)| + 1 && layers[..|old(layers)|] == old(layers)
      ensures stack == old(stack).(layers := Grown(Geo(), old(stack).layers))
      ensures |layers| > |old(layers)| ==> fresh(layers[|layers| - 1]) && fresh(layers[|layers| - 1].bits)
    {
      hide LayerCapacity, LayerSize, OptimalHashes, LayerPositions, Layers;
      var n := |layers|;
      assert Geo().caps[n - 1] == layers[n - 1].capacity;
      if layers[n - 1].count >= layers[n - 1].capacity && n < Layers(config) {
        var layer := MakeLayer(n);
        layers := layers + [layer];
        stack := stack.(layers := stack.layers + [Layer({}, 0)]);
      }
    }

    method AddToTop(key: string) returns (over: bool)
      requires Valid() && !StackHas(Geo(), stack, key)
      modifies this`stack, layers[|layers| - 1], layers[|layers| - 1].bits
      ensures Valid()
      ensures var top := |layers| - 1;
              var was := old(stack).layers[top];
              stack == old(stack).(layers := old(stack).layers[
                  top := Layer(was.bits + Geo().pos(key, top), was.count + 1)])
      ensures over == (stack.layers[|layers| - 1].count > Geo().caps[|layers| - 1])
    {
      hide LayerCapacity, LayerSize, OptimalHashes, Positions;
      var top := |layers| - 1;
      assert !(Geo().pos(key, top) <= stack.layers[top].bits);
      var isNew := layers[top].Add(key);
      over := layers[top].count > layers[top].capacity;
      stack := stack.(layers := stack.layers[top := Layer(layers[top].Bits(), layers[top].count)]);
      forall l | 0 <= l < top ensures stack.layers[l] == Layer(layers[l].Bits(), layers[l].count) {
        assert layers[l] != layers[top] && layers[l].bits != layers[top].bits;
      }
    }

    method Warn(saturated: bool)
      requires Valid()
      modifies this`warned, this`stack
      ensures Valid() && stack == old(stack).(warned := old(stack).warned || saturated)
    {
      if saturated {
        warned := true;
        stack := stack.(warned := true);
      }
    }

    /** Write the key into the top layer and raise the warning when the last layer is over. */
    method WriteTop(key: string)
      requires Valid() && !StackHas(Geo(), stack, key)
      modifies this`stack, this`warned, layers[|layers| - 1], layers[|layers| - 1].bits
      ensures Valid()
      ensures stack == TopWritten(Geo(), old(stack), key)
    {
      hide StackHas, LayerCapacity, LayerPositions;
      var over := AddToTop(key);
      Warn(|layers| >= Layers(config) && over);
    }

    method Add(key: string) returns (isNew: bool)
      requires Valid()
      modifies this, layers, set f | f in layers :: f.bits
      ensures Valid()
      ensures (stack, isNew) == StackAdd(Geo(), old(stack), key)
    {
      hide StackHas, Grown, TopWritten, LayerCapacity, LayerPositions;
      var found := Contains(key);
      if found {
        return false;
      }
      Grow();
      GeometryGood(hashing, config);
      GrownHasSame(Geo(), old(stack), key);
      WriteTop(key);
      return true;
    }
  }
}
