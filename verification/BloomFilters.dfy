/** Sizing and hashing of the Bloom filters, the exact set they are measured against, and one
    Bloom layer as an object. */
module BloomFilters {
  import opened Seqs
  import opened BloomSpec

  // ---------------------------------------------------------------- sizing and hashing

  /** md5 and sha1 as numbers, and the two optimal-size formulas before their lower bounds;
      nothing is assumed about any of them. */
  datatype Hashing = Hashing(md5: string -> nat, sha1: string -> nat,
                             rawSize: (nat, real) -> int, rawHashes: (nat, nat) -> int)

  datatype Config = Config(capacity: int, errorRate: real, maxLayers: int, growth: real, ratio: real)

  function OptimalSize(h: Hashing, cap: nat, errorRate: real): nat {
    Max(h.rawSize(cap, errorRate), 8)
  }

  function OptimalHashes(h: Hashing, size: nat, cap: nat): nat {
    Max(1, h.rawHashes(size, cap))
  }

  /** The formulas decide above their lower bounds of eight bits and one hash. */
  lemma SizesFollowFormulas(h: Hashing, size: nat, cap: nat, errorRate: real)
    ensures OptimalSize(h, cap, errorRate) >= 8 && OptimalHashes(h, size, cap) >= 1
    ensures h.rawSize(cap, errorRate) >= 8 ==> OptimalSize(h, cap, errorRate) == h.rawSize(cap, errorRate)
    ensures h.rawHashes(size, cap) >= 1 ==> OptimalHashes(h, size, cap) == h.rawHashes(size, cap)
  {
  }

  /** Double hashing; the second hash is forced odd. */
  function Positions(h: Hashing, key: string, size: nat, hashes: nat): (r: seq<nat>)
    requires size >= 1
    ensures |r| == hashes && forall i | 0 <= i < hashes :: r[i] < size
  {
    var h1, h2 := h.md5(key), h.sha1(key) + (1 - h.sha1(key) % 2);
    seq(hashes, i requires 0 <= i => (h1 + i * h2) % size)
  }

  // ---------------------------------------------------------------- what the positions are

  /** The second hash with its last bit set. */
  function OddStep(h: Hashing, key: string): (r: nat)
    ensures r % 2 == 1
  {
    if h.sha1(key) % 2 == 0 then h.sha1(key) + 1 else h.sha1(key)
  }

  lemma PositionAt(h: Hashing, key: string, size: nat, hashes: nat, i: nat)
    requires size >= 1 && i < hashes
    ensures Positions(h, key, size, hashes)[i] == (h.md5(key) + i * OddStep(h, key)) % size
  {
  }

  /** The first position is the md5 number, and each next one is an odd step further round. */
  lemma PositionsWalk(h: Hashing, key: string, size: nat, hashes: nat, i: nat)
    requires size >= 1 && i < hashes
    ensures Positions(h, key, size, hashes)[0] == h.md5(key) % size
    ensures i + 1 < hashes ==>
              Positions(h, key, size, hashes)[i + 1] == (Positions(h, key, size, hashes)[i] + OddStep(h, key)) % size
  {
    hide Positions, OddStep;
    PositionAt(h, key, size, hashes, 0);
    assert h.md5(key) + 0 * OddStep(h, key) == h.md5(key);
    PositionAt(h, key, size, hashes, i);
    if i + 1 < hashes {
      PositionAt(h, key, size, hashes, i + 1);
      NextPosition(h.md5(key), OddStep(h, key), i, size);
    }
  }

  lemma NextPosition(base: nat, step: nat, i: nat, size: nat)
    requires size >= 1
    ensures (base + (i + 1) * step) % size == ((base + i * step) % size + step) % size
  {
    assert base + (i + 1) * step == base + i * step + step;
    AddThenMod(base + i * step, step, size);
  }

  /** Equal remainders differ by a multiple. */
  lemma SameRemainder(x: int, y: int, m: nat) returns (q: int)
    requires m >= 1 && x % m == y % m
    ensures x - y == m * q
  {
    q := x / m - y / m;
    assert x == m * (x / m) + x % m && y == m * (y / m) + y % m;
  }

  lemma RemainderUnique(q: int, r: int, q': int, r': int, m: int)
    requires 0 <= r < m && 0 <= r' < m && m * q + r == m * q' + r'
    ensures r == r'
  {
    var d := q - q';
    assert d * m == r' - r;
    if d >= 1 {
      NonNegative(d - 1, m);
      assert false;
    } else if d <= -1 {
      NonNegative(-1 - d, m);
      assert false;
    }
  }

  lemma AddThenMod(x: nat, y: nat, m: nat)
    requires m >= 1
    ensures (x + y) % m == (x % m + y) % m
  {
    var a, b := x + y, x % m + y;
    assert a == m * (a / m) + a % m && b == m * (b / m) + b % m && x == m * (x / m) + x % m;
    assert m * (a / m) + a % m == m * (b / m + x / m) + b % m;
    RemainderUnique(a / m, a % m, b / m + x / m, b % m, m);
  }

  function TwoTo(k: nat): nat {
    if k == 0 then 1 else 2 * TwoTo(k - 1)
  }

  /** An odd factor can be cancelled modulo a power of two. */
  lemma {:induction false} OddCancels(k: nat, d: int, step: int, q: int) returns (e: int)
    requires step % 2 == 1 && d * step == TwoTo(k) * q
    ensures d == TwoTo(k) * e
  {
    if k == 0 {
      e := d;
    } else {
      var half := TwoTo(k - 1) * q;
      assert d * step == 2 * half;
      EvenFactor(d, step, half);
      assert (d / 2) * step == half by {
        assert d == 2 * (d / 2);
        assert 2 * ((d / 2) * step) == d * step;
      }
      e := OddCancels(k - 1, d / 2, step, q);
      assert d == 2 * (TwoTo(k - 1) * e);
    }
  }

  lemma OddTimesOdd(a: int, b: int)
    ensures (2 * a + 1) * (2 * b + 1) == 2 * (2 * a * b + a + b) + 1
  {
  }

  lemma EvenFactor(d: int, step: int, half: int)
    requires step % 2 == 1 && d * step == 2 * half
    ensures d % 2 == 0
  {
    OddTimesOdd(d / 2, step / 2);
  }

  lemma NoSmallMultiple(d: int, size: int, e: int)
    requires 0 < d < size
    ensures d != size * e
  {
    if e >= 1 {
      NonNegative(e - 1, size);
    } else {
      NonNegative(-e, size);
    }
  }

  /** Odd steps round a circle of a power of two meet every point before they come back. */
  lemma StepsAreDistinct(base: nat, step: nat, k: nat, i: nat, j: nat)
    requires step % 2 == 1 && i < j < TwoTo(k)
    ensures (base + i * step) % TwoTo(k) != (base + j * step) % TwoTo(k)
  {
    hide TwoTo;
    var x, y := base + j * step, base + i * step;
    if x % TwoTo(k) == y % TwoTo(k) {
      var q := SameRemainder(x, y, TwoTo(k));
      assert (j - i) * step == x - y;
      var e := OddCancels(k, j - i, step, q);
      NoSmallMultiple(j - i, TwoTo(k), e);
    }
  }

  /** In a layer whose size is a power of two, the first `size` positions of a key are pairwise
      different: no key wastes a hash. */
  lemma PositionsAreDistinct(h: Hashing, key: string, k: nat, hashes: nat, i: nat, j: nat)
    requires i < j < hashes <= TwoTo(k)
    ensures Positions(h, key, TwoTo(k), hashes)[i] != Positions(h, key, TwoTo(k), hashes)[j]
  {
    hide Positions, OddStep, TwoTo;
    PositionAt(h, key, TwoTo(k), hashes, i);
    PositionAt(h, key, TwoTo(k), hashes, j);
    StepsAreDistinct(h.md5(key), OddStep(h, key), k, i, j);
  }

  /** With one hash per key, a key is taken for one added before exactly when their md5 numbers
      agree modulo the size. */
  lemma OneHashTellsResidues(h: Hashing, a: string, b: string, size: nat)
    requires size >= 1
    ensures Elems(Positions(h, b, size, 1)) <= Elems(Positions(h, a, size, 1)) <==> h.md5(a) % size == h.md5(b) % size
    ensures Elems(Positions(h, b, size, 1)) != {}
  {
    PositionsWalk(h, a, size, 1, 0);
    PositionsWalk(h, b, size, 1, 0);
    var p, q := Positions(h, a, size, 1), Positions(h, b, size, 1);
    assert p == [p[0]] && q == [q[0]];
    assert q[0] in Elems(q) && p[0] in Elems(p);
    assert Elems(q) == {q[0]} && Elems(p) == {p[0]};
  }

  function Pow(b: real, n: nat): real {
    if n == 0 then 1.0 else b * Pow(b, n - 1)
  }

  function LayerCapacity(c: Config, l: nat): nat {
    Max(1, (Max(1, c.capacity) as real * Pow(c.growth, l)).Floor)
  }

  /** The first layer has the configured capacity, and each next one is the growth factor larger,
      up to the rounding of both to whole numbers. */
  lemma LayersGrow(c: Config, l: nat)
    requires c.growth >= 1.0
    ensures LayerCapacity(c, 0) == Max(1, c.capacity)
    ensures c.growth * LayerCapacity(c, l) as real - 1.0 < LayerCapacity(c, l + 1) as real
    ensures LayerCapacity(c, l + 1) as real < c.growth * (LayerCapacity(c, l) as real + 1.0)
  {
    hide LayerCapacity, Pow;
    CapacityIsFloor(c, 0);
    FirstPower(c);
    CapacityIsFloor(c, l);
    CapacityIsFloor(c, l + 1);
    NextPower(c, l);
    GrowthRounding(c.growth, Unrounded(c, l), Unrounded(c, l + 1));
  }

  /** The capacity of a layer before rounding. */
  function Unrounded(c: Config, l: nat): real {
    Max(1, c.capacity) as real * Pow(c.growth, l)
  }

  lemma FirstPower(c: Config)
    ensures Unrounded(c, 0) == Max(1, c.capacity) as real
  {
    assert Pow(c.growth, 0) == 1.0;
  }

  lemma NextPower(c: Config, l: nat)
    ensures Unrounded(c, l + 1) == c.growth * Unrounded(c, l)
  {
    var cap, p := Max(1, c.capacity) as real, Pow(c.growth, l);
    assert Pow(c.growth, l + 1) == c.growth * p;
    assert cap * (c.growth * p) == c.growth * (cap * p);
  }

  lemma CapacityIsFloor(c: Config, l: nat)
    requires c.growth >= 1.0
    ensures Unrounded(c, l) >= 1.0 && LayerCapacity(c, l) == Unrounded(c, l).Floor
  {
    PowAtLeastOne(c.growth, l);
    AtLeast(Max(1, c.capacity) as real, Pow(c.growth, l));
    hide Pow;
  }

  lemma GrowthRounding(g: real, x: real, y: real)
    requires g >= 1.0 && y == g * x
    ensures g * x.Floor as real - 1.0 < y.Floor as real < g * (x.Floor as real + 1.0)
  {
    Scaled(g, x.Floor as real, x);
    Scaled(g, x, x.Floor as real + 1.0);
  }

  lemma AtLeast(a: real, p: real)
    requires a >= 1.0 && p >= 1.0
    ensures a * p >= 1.0
  {
    assert (a - 1.0) * p >= 0.0;
  }

  lemma Scaled(g: real, x: real, y: real)
    requires g >= 1.0
    ensures x <= y ==> g * x <= g * y
    ensures x < y ==> g * x < g * y
  {
    if x < y {
      assert g * (y - x) > 0.0;
      assert g * y - g * x == g * (y - x);
    }
  }

  lemma {:induction false} PowAtLeastOne(b: real, n: nat)
    requires b >= 1.0
    ensures Pow(b, n) >= 1.0
  {
    if n > 0 {
      PowAtLeastOne(b, n - 1);
      var p := Pow(b, n - 1);
      assert (b - 1.0) * p >= 0.0;
    }
  }

  function LayerError(c: Config, l: nat): real {
    c.errorRate * Pow(c.ratio, l)
  }

  function LayerSize(h: Hashing, c: Config, l: nat): nat {
    OptimalSize(h, LayerCapacity(c, l), LayerError(c, l))
  }

  function LayerPositions(h: Hashing, c: Config, key: string, l: nat): (r: seq<nat>)
    ensures r != [] && forall i | 0 <= i < |r| :: r[i] < LayerSize(h, c, l)
  {
    Positions(h, key, LayerSize(h, c, l), OptimalHashes(h, LayerSize(h, c, l), LayerCapacity(c, l)))
  }

  function Layers(c: Config): nat {
    Max(1, c.maxLayers)
  }

  function GeometryOf(h: Hashing, c: Config): Geometry {
    Geometry(seq(Layers(c), l requires 0 <= l => LayerCapacity(c, l)),
             (key: string, l: nat) => Elems(LayerPositions(h, c, key, l)))
  }

  lemma GeometryGood(h: Hashing, c: Config)
    ensures Good(GeometryOf(h, c))
  {
    var g := GeometryOf(h, c);
    forall key: string, l: nat ensures g.pos(key, l) != {} {
      assert LayerPositions(h, c, key, l)[0] in g.pos(key, l);
    }
  }

  /** What the two constructors accept; they raise otherwise. */
  predicate StackAccepts(c: Config) {
    0.0 < c.ratio < 1.0 && c.growth >= 1.0 && 0.0 < c.errorRate < 1.0
  }

  predicate RedisAccepts(c: Config) {
    0.0 < c.errorRate < 1.0 && 0.0 < c.ratio < 1.0
  }

  function ErrorSum(c: Config, n: nat): real {
    if n == 0 then 0.0 else ErrorSum(c, n - 1) + LayerError(c, n - 1)
  }

  lemma {:induction false} PowBounds(b: real, n: nat)
    requires 0.0 < b < 1.0
    ensures 0.0 < Pow(b, n) <= 1.0
  {
    if n > 0 {
      PowBounds(b, n - 1);
      var p := Pow(b, n - 1);
      assert 0.0 < b * p;
      assert b * p <= p by {
        assert (1.0 - b) * p >= 0.0;
      }
    }
  }

  lemma GeometricStep(s: real, e: real, r: real, p: real)
    requires s * (1.0 - r) == e * (1.0 - p)
    ensures (s + e * p) * (1.0 - r) == e * (1.0 - r * p)
  {
    assert (s + e * p) * (1.0 - r) == s * (1.0 - r) + (e * p) * (1.0 - r);
    assert (e * p) * (1.0 - r) == e * p - e * (r * p);
  }

  lemma {:induction false} ErrorSumClosed(c: Config, n: nat)
    ensures ErrorSum(c, n) * (1.0 - c.ratio) == c.errorRate * (1.0 - Pow(c.ratio, n))
  {
    if n > 0 {
      ErrorSumClosed(c, n - 1);
      var s, p := ErrorSum(c, n - 1), Pow(c.ratio, n - 1);
      assert ErrorSum(c, n) == s + c.errorRate * p && Pow(c.ratio, n) == c.ratio * p;
      hide ErrorSum, Pow;
      GeometricStep(s, c.errorRate, c.ratio, p);
    }
  }

  lemma BelowQuotient(a: real, b: real, c: real)
    requires c > 0.0 && a * c < b
    ensures a < b / c
  {
    var q := b / c;
    assert q * c == b;
    assert (q - a) * c > 0.0;
  }

  /** However many layers there are, the error rates of the layers add up to less than
      errorRate / (1 - ratio). */
  lemma ErrorRatesConverge(c: Config, n: nat)
    requires RedisAccepts(c)
    ensures ErrorSum(c, n) < c.errorRate / (1.0 - c.ratio)
  {
    hide Pow, ErrorSum;
    ErrorSumClosed(c, n);
    PowBounds(c.ratio, n);
    LessThanWhole(c.errorRate, Pow(c.ratio, n));
    BelowQuotient(ErrorSum(c, n), c.errorRate, 1.0 - c.ratio);
  }

  lemma LessThanWhole(e: real, p: real)
    requires e > 0.0 && p > 0.0
    ensures e * (1.0 - p) < e
  {
    assert e * p > 0.0;
    assert e * (1.0 - p) == e - e * p;
  }

  // ---------------------------------------------------------------- exact filter

  class LiteFilter {
    var seen: set<string>

    constructor ()
      ensures seen == {}
    {
      seen := {};
    }

    method Add(key: string) returns (isNew: bool)
      modifies this
      ensures seen == old(seen) + {key} && isNew == (key !in old(seen))
    {
      if key in seen {
        return false;
      }
      seen := seen + {key};
      return true;
    }
  }

  // ---------------------------------------------------------------- one layer

  class MemoryBloomFilter {
    const hashing: Hashing
    const capacity: nat
    const size: nat
    const hashes: nat
    const bits: array<bool>
    var count: nat
    var warned: bool

    ghost predicate Valid()
      reads this
    {
      size >= 1 && bits.Length == size
    }

    ghost function Bits(): set<nat>
      reads bits
    {
      set p: nat | p < bits.Length && bits[p]
    }

    constructor (hashing: Hashing, capacity: int, errorRate: real)
      ensures Valid() && fresh(bits) && Bits() == {} && count == 0 && !warned
      ensures this.hashing == hashing && this.capacity == Max(1, capacity)
      ensures size == OptimalSize(hashing, this.capacity, errorRate)
      ensures hashes == OptimalHashes(hashing, size, this.capacity)
    {
      this.hashing := hashing;
      this.capacity := Max(1, capacity);
      this.size := OptimalSize(hashing, Max(1, capacity), errorRate);
      this.hashes := OptimalHashes(hashing, OptimalSize(hashing, Max(1, capacity), errorRate), Max(1, capacity));
      bits := new bool[OptimalSize(hashing, Max(1, capacity), errorRate)](_ => false);
      count, warned := 0, false;
    }

    method AllSet(positions: seq<nat>) returns (all: bool)
      requires forall i | 0 <= i < |positions| :: positions[i] < bits.Length
      ensures all <==> Elems(positions) <= Bits()
    {
      for i := 0 to |positions|
        invariant forall j | 0 <= j < i :: positions[j] in Bits()
      {
        if !bits[positions[i]] {
          assert positions[i] in Elems(positions);
          return false;
        }
      }
      return true;
    }

    method Contains(key: string) returns (found: bool)
      requires Valid()
      ensures found <==> Elems(Positions(hashing, key, size, hashes)) <= Bits()
    {
      found := AllSet(Positions(hashing, key, size, hashes));
    }

    /** Adding a present key changes nothing; adding a new one sets its bits and counts it. */
    method Add(key: string) returns (isNew: bool)
      requires Valid()
      modifies this`count, this`warned, bits
      ensures Valid()
      ensures isNew <==> !(Elems(Positions(hashing, key, size, hashes)) <= old(Bits()))
      ensures Bits() == old(Bits()) + Elems(Positions(hashing, key, size, hashes))
      ensures count == old(count) + (if isNew then 1 else 0)
      ensures warned == (old(warned) || (isNew && count > capacity))
    {
      var positions := Positions(hashing, key, size, hashes);
      var present := AllSet(positions);
      if present {
        assert old(Bits()) + Elems(positions) == old(Bits());
        return false;
      }
      SetAll(positions);
      count := count + 1;
      if count > capacity {
        warned := true;
      }
      return true;
    }

    method SetAll(positions: seq<nat>)
      requires forall i | 0 <= i < |positions| :: positions[i] < bits.Length
      modifies bits
      ensures Bits() == old(Bits()) + Elems(positions)
    {
      for i := 0 to |positions|
        invariant forall p: nat | p < bits.Length :: bits[p] <==> (p in old(Bits()) || p in positions[..i])
      {
        bits[positions[i]] := true;
        assert positions[..i + 1] == positions[..i] + [positions[i]];
      }
      assert positions[..|positions|] == positions;
    }
  }
}
