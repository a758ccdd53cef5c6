/** Arithmetic on reals whose products are kept behind names: doubling, scaling and repeated addition. */
module Reals {

  function Min(a: real, b: real): real { if a <= b then a else b }

  function Max(a: real, b: real): real { if a >= b then a else b }

  /** `x` doubled `k` times. */
  function Doubled(x: real, k: nat): real {
    if k == 0 then x else 2.0 * Doubled(x, k - 1)
  }

  function Scaled(x: real, factor: real): real { x * factor }

  lemma {:induction false} DoubledGrows(x: real, k: nat)
    requires x >= 0.0
    ensures Doubled(x, k) >= x
  {
    if k > 0 {
      DoubledGrows(x, k - 1);
    }
  }

  /** `x` added up `n` times. */
  function Repeated(n: nat, x: real): real {
    if n == 0 then 0.0 else x + Repeated(n - 1, x)
  }

  lemma {:induction false} RepeatedIsProduct(n: nat, x: real)
    ensures Repeated(n, x) == n as real * x
  {
    if n > 0 {
      RepeatedIsProduct(n - 1, x);
      assert n as real * x == (n - 1) as real * x + x;
    }
  }

  lemma {:induction false} DoubledIsProduct(x: real, k: nat)
    ensures Doubled(x, k) == x * PowerOfTwo(k) as real
  {
    if k > 0 {
      DoubledIsProduct(x, k - 1);
    }
  }

  function PowerOfTwo(k: nat): nat {
    if k == 0 then 1 else 2 * PowerOfTwo(k - 1)
  }

  lemma {:induction false} DoubledIsMonotonic(x: real, j: nat, k: nat)
    requires x >= 0.0 && j <= k
    ensures Doubled(x, j) <= Doubled(x, k)
    decreases k
  {
    if j > 0 {
      DoubledIsMonotonic(x, j - 1, k - 1);
    } else {
      DoubledGrows(x, k);
    }
  }

  /** The doubling series of `k` terms in closed form. */
  lemma {:induction false} SeriesInClosedForm(base: real, k: nat)
    ensures Doubled(base, k) - base == base * (PowerOfTwo(k) - 1) as real
  {
    DoubledIsProduct(base, k);
  }
}
