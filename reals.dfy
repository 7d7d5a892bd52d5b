/** Facts about real arithmetic that the rating and the score rely on. */
module Reals {

  /** `a / (b + a)` of two positive reals exceeds a threshold `t` exactly when `(1 - t) * a` exceeds `t * b`. */
  lemma ShareAboveIff(a: real, b: real, t: real)
    requires a > 0.0 && b > 0.0
    ensures a / (b + a) > t <==> (1.0 - t) * a > t * b
  {
    var x := a / (b + a);
    assert x * (b + a) == a;
    assert (1.0 - t) * a - t * b == a - t * (b + a);
    if x > t {
      assert a - t * (b + a) == (x - t) * (b + a);
      MulPositive(x - t, b + a);
    } else {
      assert t * (b + a) - a == (t - x) * (b + a);
      MulNonNegative(t - x, b + a);
    }
  }

  /** `a / (b + a)` of two positive reals exceeds one half exactly when `a` exceeds `b`. */
  lemma ShareAboveHalfIff(a: real, b: real)
    requires a > 0.0 && b > 0.0
    ensures a / (b + a) > 0.5 <==> a > b
  {
    ShareAboveIff(a, b, 0.5);
  }

  /** `p / (p + q)` of two positive reals stays below one half when `p` is below `q`. */
  lemma ShareBelowHalf(p: real, q: real)
    requires 0.0 < p < q
    ensures p / (p + q) < 0.5
  {
    var x := p / (p + q);
    assert x * (p + q) == p;
    if x >= 0.5 {
      assert p - 0.5 * (p + q) == (x - 0.5) * (p + q);
      MulNonNegative(x - 0.5, p + q);
    }
  }

  /** The share `p / (q + p)` of two non-negative reals lies in [0, 1], away from the end whose part is positive. */
  lemma ShareBounds(p: real, q: real)
    requires p >= 0.0 && q >= 0.0 && q + p > 0.0
    ensures 0.0 <= p / (q + p) <= 1.0
    ensures q > 0.0 ==> p / (q + p) < 1.0
    ensures p > 0.0 ==> p / (q + p) > 0.0
  {
    QuotientSign(p, q + p);
    QuotientAtMostOne(p, q + p);
  }

  /** The quotient of a real by a larger positive one is at most one, and below one when the dividend is smaller. */
  lemma QuotientAtMostOne(n: real, d: real)
    requires n <= d && d > 0.0
    ensures n / d <= 1.0
    ensures n < d ==> n / d < 1.0
  {
  }

  /** The quotient of a non-negative real by a positive one is non-negative, and positive for a positive dividend. */
  lemma QuotientSign(n: real, d: real)
    requires n >= 0.0 && d > 0.0
    ensures n / d >= 0.0
    ensures n > 0.0 ==> n / d > 0.0
  {
  }

  /** Multiplying positive reals is strictly monotone. */
  lemma MulLess(a: real, b: real, c: real, d: real)
    requires 0.0 < a < b && 0.0 < c <= d
    ensures a * c < b * d
  {
    ScaleLess(a, b, c);
    ScaleAtMost(c, d, b);
  }

  lemma ScaleLess(a: real, b: real, c: real)
    requires a < b && c > 0.0
    ensures a * c < b * c
  {
    MulPositive(b - a, c);
    assert (b - a) * c == b * c - a * c;
  }

  lemma ScaleAtMost(c: real, d: real, b: real)
    requires c <= d && b > 0.0
    ensures b * c <= b * d
  {
    MulNonNegative(d - c, b);
    assert (d - c) * b == b * d - b * c;
  }

  lemma MulPositive(x: real, y: real)
    requires x > 0.0 && y > 0.0
    ensures x * y > 0.0
  {
  }

  lemma MulNonNegative(x: real, y: real)
    requires x >= 0.0 && y > 0.0
    ensures x * y >= 0.0
  {
  }

  /** A factor can be moved to the front of a product. */
  lemma Reorder(p: real, x: real, q: real)
    ensures p * (x * q) == x * (p * q)
  {
    assert p * (x * q) == (p * x) * q == (x * p) * q == x * (p * q);
  }
}
