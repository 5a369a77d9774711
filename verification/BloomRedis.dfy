/** The filter whose bits and counter live in Redis and are shared by all nodes. */
module BloomRedis {
  import opened Seqs
  import opened BloomSpec
  import opened BloomFilters

  /** The Redis keys of one filter: the counter, and one bit array per layer (a key that does
      not exist reads as all zero bits). */
  class RedisBits {
    var counter: nat
    var bits: seq<set<nat>>

    constructor (layers: nat)
      ensures counter == 0 && bits == seq(layers, _ => {})
    {
      counter := 0;
      bits := seq(layers, _ => {});
    }

    /** All positions of one layer are set. */
    method AllSet(l: nat, positions: seq<nat>) returns (all: bool)
      requires l < |bits|
      ensures all <==> Elems(positions) <= bits[l]
    {
      for j := 0 to |positions|
        invariant forall k | 0 <= k < j :: positions[k] in bits[l]
      {
        if positions[j] !in bits[l] {
          assert positions[j] in Elems(positions);
          return false;
        }
      }
      return true;
    }

    /** The add script, one atomic step. `cum` and `poss` are its arguments: cumulative
        capacity and bit positions per layer. */
    method AddScript(cum: seq<nat>, poss: seq<seq<nat>>, ghost g: Geometry, ghost key: string)
      returns (isNew: bool, count: nat)
      requires |cum| == |poss| == |bits| == |g.caps| && cum != []
      requires forall l | 0 <= l < |cum| :: cum[l] == Cumulative(g.caps, l + 1) && Elems(poss[l]) == g.pos(key, l)
      modifies this
      ensures var (r, fresh') := SharedAdd(g, Shared(old(bits), old(counter), false), key);
              bits == r.bits && counter == r.counter == count && isNew == fresh'
    {
      var top := |cum| - 1;
      var l := 0;
      while l < |cum|
        invariant 0 <= l <= |cum| && top == |cum| - 1
        invariant l < |cum| ==> Top(g, counter, 0) == Top(g, counter, l)
        invariant l == |cum| ==> Top(g, counter, 0) == top
      {
        if counter < cum[l] {
          top := l;
          break;
        }
        l := l + 1;
      }
      assert top == Top(g, counter, 0);
      for k := 0 to top + 1
        invariant bits == old(bits) && counter == old(counter)
        invariant forall i | 0 <= i < k :: !(g.pos(key, i) <= bits[i])
      {
        var all := AllSet(k, poss[k]);
        if all {
          assert g.pos(key, k) <= bits[k];
          return false, counter;
        }
      }
      assert !BitsHave(g, bits, key, top + 1);
      var layer := bits[top];
      for j := 0 to |poss[top]|
        invariant layer == bits[top] + Elems(poss[top][..j])
      {
        assert Elems(poss[top][..j + 1]) == Elems(poss[top][..j]) + {poss[top][j]};
        layer := layer + {poss[top][j]};
      }
      assert poss[top][..|poss[top]|] == poss[top];
      bits := bits[top := layer];
      counter := counter + 1;
      return true, counter;
    }
  }

  class RedisBloomFilter {
    const hashing: Hashing
    const config: Config
    const cumulative: seq<nat>
    const redis: RedisBits
    var warned: bool

    ghost predicate Valid()
      reads this, redis
    {
      && |cumulative| == Layers(config) == |redis.bits|
      && (forall l | 0 <= l < |cumulative| :: cumulative[l] == Cumulative(Geo().caps, l + 1))
    }

    ghost function Geo(): Geometry {
      GeometryOf(hashing, config)
    }

    /** Redis as this node sees it. */
    ghost function View(): Shared
      reads this, redis
    {
      Shared(redis.bits, redis.counter, warned)
    }

    constructor (hashing: Hashing, config: Config, redis: RedisBits)
      requires RedisAccepts(config) && |redis.bits| == Layers(config)
      ensures Valid() && this.hashing == hashing && this.config == config && this.redis == redis && !warned
    {
      this.hashing := hashing;
      this.config := config;
      this.redis := redis;
      this.warned := false;
      var cum: seq<nat>, total: nat := [], 0;
      ghost var caps := GeometryOf(hashing, config).caps;
      for i := 0 to Layers(config)
        invariant |cum| == i && total == Cumulative(caps, i)
        invariant forall l | 0 <= l < i :: cum[l] == Cumulative(caps, l + 1)
      {
        total := total + LayerCapacity(config, i);
        cum := cum + [total];
      }
      this.cumulative := cum;
    }

    method Arguments(key: string) returns (poss: seq<seq<nat>>)
      ensures |poss| == Layers(config)
      ensures forall l | 0 <= l < |poss| :: Elems(poss[l]) == Geo().pos(key, l)
    {
      poss := [];
      for l := 0 to Layers(config)
        invariant |poss| == l && forall k | 0 <= k < l :: Elems(poss[k]) == Geo().pos(key, k)
      {
        poss := poss + [LayerPositions(hashing, config, key, l)];
      }
    }

    method Add(key: string) returns (isNew: bool)
      requires Valid()
      modifies this, redis
      ensures Valid()
      ensures (View(), isNew) == SharedAdd(Geo(), old(View()), key)
    {
      var poss := Arguments(key);
      var count: nat;
      isNew, count := redis.AddScript(cumulative, poss, Geo(), key);
      if count > cumulative[|cumulative| - 1] && !warned {
        warned := true;
      }
    }

    /** Membership reads every layer, also those above the current top. */
    method Contains(key: string) returns (found: bool)
      requires Valid()
      ensures found <==> BitsHave(Geo(), redis.bits, key, Layers(config))
    {
      for l := 0 to Layers(config)
        invariant forall i | 0 <= i < l :: !(Geo().pos(key, i) <= redis.bits[i])
      {
        var all := redis.AllSet(l, LayerPositions(hashing, config, key, l));
        if all {
          assert Geo().pos(key, l) <= redis.bits[l];
          return true;
        }
      }
      return false;
    }
  }
}
