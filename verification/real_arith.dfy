/** Facts about real multiplication and division that the kinetics proofs
    rely on, each stated over plain reals and kept small so that the solver
    meets it without the surrounding model. */
module RealArith {

  lemma ProductPositive(a: real, b: real)
    requires a > 0.0 && b > 0.0
    ensures a * b > 0.0
  {
  }

  lemma ProductNonNegative(a: real, b: real)
    requires a >= 0.0 && b >= 0.0
    ensures a * b >= 0.0
  {
  }

  /** Multiplying by c * b is multiplying by b, then by c. */
  lemma ProductRegroup(a: real, c: real, b: real)
    ensures a * (c * b) == c * (a * b)
  {
  }

  /** Multiplying by a, then by c, is multiplying by c * a. */
  lemma ProductRotate(x: real, a: real, c: real)
    ensures x * a * c == x * (c * a)
  {
  }

  /** The sign of a is the sign of a * b when b is positive. */
  lemma FactorSign(a: real, b: real)
    requires b > 0.0
    ensures a * b > 0.0 ==> a > 0.0
    ensures a * b >= 0.0 ==> a >= 0.0
  {
    if a < 0.0 {
      ProductPositive(-a, b);
      assert (-a) * b == -(a * b);
    } else if a == 0.0 {
      assert a * b == 0.0;
    }
  }

  /** s / d lies in [0, 1) when 0 <= s < d. */
  lemma FractionBelowOne(s: real, d: real)
    requires 0.0 <= s < d
    ensures 0.0 <= s / d < 1.0
    ensures s / d == 0.0 <==> s == 0.0
  {
    var f := s / d;
    assert f * d == s;
    assert (1.0 - f) * d == d - s;
    FactorSign(f, d);
    FactorSign(1.0 - f, d);
    if f == 0.0 {
      assert s == 0.0 * d;
    }
  }

  /** -(1/y) * m * x * t is non-positive for non-negative m, x, t and
      positive y, and negative when all of them are positive. */
  lemma ConsumptionSign(y: real, m: real, x: real, t: real)
    requires y > 0.0 && m >= 0.0 && x >= 0.0 && t >= 0.0
    ensures -(1.0 / y) * m * x * t <= 0.0
    ensures m > 0.0 && x > 0.0 && t > 0.0 ==> -(1.0 / y) * m * x * t < 0.0
  {
    var inv := 1.0 / y;
    assert inv > 0.0;
    ProductNonNegative(inv, m);
    ProductNonNegative(inv * m, x);
    ProductNonNegative(inv * m * x, t);
    assert -inv * m * x * t == -(inv * m * x * t);
    if m > 0.0 && x > 0.0 && t > 0.0 {
      ProductPositive(inv, m);
      ProductPositive(inv * m, x);
      ProductPositive(inv * m * x, t);
    }
  }

  /** u * q / t is order-preserving in u for positive q and t. */
  lemma ScaledQuotientMonotone(u: real, v: real, q: real, t: real)
    requires u < v && q > 0.0 && t > 0.0
    ensures u * q / t < v * q / t
  {
    ProductPositive(v - u, q);
    assert v * q - u * q == (v - u) * q;
    assert v * q / t - u * q / t == (v * q - u * q) / t;
  }

  /** u * q / t is positive for positive u, q and t. */
  lemma ScaledQuotientPositive(u: real, q: real, t: real)
    requires u > 0.0 && q > 0.0 && t > 0.0
    ensures u * q / t > 0.0
  {
    ProductPositive(u, q);
  }

  /** One explicit-Euler update x + (m*x - b*x)*t stays non-negative when x,
      m and t are non-negative and b*t is at most 1. */
  lemma EulerUpdateNonNegative(x: real, m: real, b: real, t: real)
    requires x >= 0.0 && m >= 0.0 && t >= 0.0 && b * t <= 1.0
    ensures x + (m * x - b * x) * t >= 0.0
  {
    ProductNonNegative(m, t);
    ProductNonNegative(x, (1.0 - b * t) + m * t);
    assert x + (m * x - b * x) * t == x * ((1.0 - b * t) + m * t);
  }
}
