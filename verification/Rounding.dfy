/** std::lround on reals, the clamps of utils_math, and the few facts about products of reals that
    the other modules need one at a time. */
module Rounding {
  function Abs(x: real): real { if x >= 0.0 then x else -x }

  function AbsInt(x: int): nat { if x >= 0 then x else -x }

  function Min(a: int, b: int): int { if a <= b then a else b }

  function Max(a: int, b: int): int { if a >= b then a else b }

  function MinReal(a: real, b: real): real { if a <= b then a else b }

  function MaxReal(a: real, b: real): real { if a >= b then a else b }

  /** std::min(std::max(v, lo), hi) */
  function Clamp(v: int, lo: int, hi: int): int { Min(Max(v, lo), hi) }

  function ClampReal(v: real, lo: real, hi: real): real { MinReal(MaxReal(v, lo), hi) }

  /** Products and quotients under a name, so that proofs can keep them closed. */
  function Prod(a: real, b: real): real { a * b }

  lemma ProdCommutes(x: real, y: real)
    ensures Prod(x, y) == Prod(y, x)
  {}

  function Ratio(a: real, b: real): real
    requires b != 0.0
  {
    a / b
  }

  /** Nearest integer, halves away from zero. */
  function Lround(x: real): int {
    if x >= 0.0 then (x + 0.5).Floor else -((-x + 0.5).Floor)
  }

  lemma LroundMonotone(x: real, y: real)
    requires x <= y
    ensures Lround(x) <= Lround(y)
  {}

  lemma LroundOdd(x: real)
    ensures Lround(-x) == -Lround(x)
    ensures AbsInt(Lround(x)) == Lround(Abs(x))
  {}

  lemma ProductNonneg(a: real, b: real)
    requires 0.0 <= a && 0.0 <= b
    ensures 0.0 <= a * b
  {}

  lemma ProductMonotone(a: real, b: real, k: real)
    requires a <= b && 0.0 <= k
    ensures a * k <= b * k
  {
    ProductNonneg(b - a, k);
    assert (b - a) * k == b * k - a * k;
  }

  lemma ProductShrinks(x: real, d: real)
    requires 0.0 <= x && 0.0 <= d <= 1.0
    ensures x * d <= x
  {
    ProductNonneg(x, 1.0 - d);
    assert x * (1.0 - d) == x - x * d;
  }

  lemma ShrinkBelow(x: real, m: real, d: real)
    requires x <= m && 0.0 <= m && 0.0 <= d <= 1.0
    ensures x * d <= m
  {
    ProductMonotone(x, m, d);
    ProductShrinks(m, d);
  }

  lemma NegatedProduct(x: real, d: real)
    ensures (-x) * d == -(x * d)
  {}

  /** Scaling by a factor in [0, 1] stays within the same bound. */
  lemma ShrinkWithin(x: real, m: real, d: real)
    requires -m <= x <= m && 0.0 <= d <= 1.0
    ensures -m <= x * d <= m
  {
    ShrinkBelow(x, m, d);
    ShrinkBelow(-x, m, d);
    NegatedProduct(x, d);
  }

  lemma ScaleWithin(x: real, m: real, k: real)
    requires -m <= x <= m && 0.0 <= k
    ensures -(m * k) <= x * k <= m * k
  {
    ProductMonotone(x, m, k);
    ProductMonotone(-x, m, k);
    NegatedProduct(x, k);
  }

  lemma LroundWithin(x: real, b: real)
    requires -b <= x <= b
    ensures AbsInt(Lround(x)) <= Lround(b)
  {
    LroundMonotone(x, b);
    LroundMonotone(-x, b);
    LroundOdd(x);
  }

  function Weighted(p: real, a: real, b: real): real { p * a + (1.0 - p) * b }

  lemma WeightedBetween(p: real, a: real, b: real, lo: real, hi: real)
    requires 0.0 <= p <= 1.0 && lo <= a <= hi && lo <= b <= hi
    ensures lo <= Weighted(p, a, b) <= hi
  {
    assert Weighted(p, a, b) - lo == p * (a - lo) + (1.0 - p) * (b - lo);
    assert hi - Weighted(p, a, b) == p * (hi - a) + (1.0 - p) * (hi - b);
    ProductNonneg(p, a - lo);
    ProductNonneg(1.0 - p, b - lo);
    ProductNonneg(p, hi - a);
    ProductNonneg(1.0 - p, hi - b);
  }
}
