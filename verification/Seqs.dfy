/** Facts about sequences, sets and sums shared by the component models. */
module Seqs {

  datatype Option<+T> = None | Some(value: T)

  function Max(a: int, b: int): int {
    if a < b then b else a
  }

  function MaxReal(a: real, b: real): real {
    if a < b then b else a
  }

  function MinReal(a: real, b: real): real {
    if a < b then a else b
  }

  ghost predicate NoDup<T>(s: seq<T>) {
    forall i, j | 0 <= i < j < |s| :: s[i] != s[j]
  }

  function Elems<T>(s: seq<T>): set<T> {
    set x | x in s
  }

  /** The newest `n` elements, oldest first. */
  function Newest<T>(s: seq<T>, n: nat): seq<T> {
    if |s| <= n then s else s[|s| - n..]
  }

  lemma {:induction false} CardElems<T>(s: seq<T>)
    ensures |Elems(s)| <= |s|
    ensures NoDup(s) ==> |Elems(s)| == |s|
  {
    if s != [] {
      var t := s[1..];
      CardElems(t);
      assert Elems(s) == {s[0]} + Elems(t);
      if NoDup(s) {
        assert s[0] !in t;
      }
    }
  }

  lemma {:induction false} CardSubset<T>(a: set<T>, b: set<T>)
    requires a <= b
    ensures |a| <= |b|
  {
    assert b == a + (b - a);
    assert |b| == |a| + |b - a|;
  }

  /** Pigeonhole: a duplicate-free sequence drawn from `t` is no longer than `t`. */
  lemma Pigeonhole<T>(s: seq<T>, t: seq<T>)
    requires NoDup(s) && forall x :: x in s ==> x in t
    ensures |s| <= |t|
  {
    CardElems(s);
    CardElems(t);
    CardSubset(Elems(s), Elems(t));
  }

  /** Division is kept out of the proofs that only count. */
  function Mod(n: nat, m: nat): nat
    requires m > 0
  {
    n % m
  }

  /** Counting on by one, modulo `m`. */
  lemma ModNext(n: nat, m: nat)
    requires m > 0
    ensures Mod(n + 1, m) == if Mod(n, m) + 1 == m then 0 else Mod(n, m) + 1
  {
    NextRemainder(n / m, n % m, (n + 1) / m, (n + 1) % m, m);
  }

  lemma NextRemainder(q: int, r: int, q': int, r': int, m: int)
    requires 0 <= r < m && 0 <= r' < m && q * m + r + 1 == q' * m + r'
    ensures r' == if r + 1 == m then 0 else r + 1
  {
    var d := q' - q;
    assert d * m == q' * m - q * m;
    if d >= 2 {
      NonNegative(d - 2, m);
      assert false;
    } else if d <= -1 {
      NonNegative(-1 - d, m);
      assert false;
    }
  }

  lemma NonNegative(a: int, b: int)
    requires 0 <= a && 0 <= b
    ensures 0 <= a * b
  {
  }

  lemma ModZero(m: nat)
    requires m > 0
    ensures Mod(0, m) == 0
  {
  }
}
