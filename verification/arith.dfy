/**
 * Facts about real arithmetic used by the classifier's probability and
 * average computations, each stated for independent variables.
 */
module Arith {

  lemma DivProd(a: real, b: real, m: real, k: real)
    requires m > 0.0 && k > 0.0
    ensures m * k > 0.0
    ensures (a / m) * (b / k) == (a * b) / (m * k)
  {
    assert (a / m) * m == a;
    assert (b / k) * k == b;
    assert ((a / m) * (b / k)) * (m * k) == ((a / m) * m) * ((b / k) * k);
  }

  lemma IntMulReal(a: int, b: int)
    ensures (a * b) as real == (a as real) * (b as real)
  {
  }

  lemma AddRatios(a: real, b: real, d: real)
    requires d > 0.0
    ensures a / d + b / d == (a + b) / d
  {
  }

  lemma DivMul(a: real, d: real)
    requires d > 0.0
    ensures (a / d) * d == a
  {
  }

  /** A ratio of naturals compared with 0 and 1. */
  lemma Ratio(s: int, d: int)
    requires d > 0 && s >= 0
    ensures 0.0 <= s as real / d as real
    ensures s > 0 ==> 0.0 < s as real / d as real
    ensures s <= d ==> s as real / d as real <= 1.0
    ensures s < d ==> s as real / d as real < 1.0
    ensures s == d ==> s as real / d as real == 1.0
  {
  }

  /** Shares of the same positive whole compare as their parts do. */
  lemma RatioOrder(a: int, b: int, d: int)
    requires d > 0
    ensures a as real / d as real <= b as real / d as real <==> a <= b
  {
    DivMul(a as real, d as real);
    DivMul(b as real, d as real);
  }

  /** Scaling by a factor in [0, 1) does not increase a non-negative weight. */
  lemma ScaleBelow(w: real, g: real)
    requires w >= 0.0 && 0.0 <= g < 1.0
    ensures 0.0 <= w * g <= w
    ensures w > 0.0 ==> w * g < w
  {
    assert w - w * g == w * (1.0 - g);
  }

  lemma SumBelow(x: real, y: real, a: real, b: real)
    requires x <= a && y <= b && (x < a || y < b)
    ensures x + y < a + b
  {
  }

  /** A weighted average, weights summing to one, of two values in [0, 1) lies in [0, 1). */
  lemma WeightedBelowOne(wl: real, wr: real, gl: real, gr: real)
    requires wl >= 0.0 && wr >= 0.0 && wl + wr == 1.0
    requires 0.0 <= gl < 1.0 && 0.0 <= gr < 1.0
    ensures 0.0 <= wl * gl + wr * gr < 1.0
  {
    ScaleBelow(wl, gl);
    ScaleBelow(wr, gr);
    SumBelow(wl * gl, wr * gr, wl, wr);
  }
}
