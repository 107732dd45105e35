/** Facts about real products and quotients that the physical formulas need.
    Each product is passed in under a name of its own, so that the solver never
    has to rewrite a product it has already bounded. */
module RealArith {

  /** Python's `x**2`. */
  function Square(x: real): real {
    x * x
  }

  /** A real's square is positive exactly when the real is not zero. */
  lemma SquarePositive(x: real)
    ensures Square(x) >= 0.0
    ensures Square(x) > 0.0 <==> x != 0.0
  {
    if x > 0.0 {
      ProductPositive(x, x, Square(x));
    } else if x < 0.0 {
      ProductPositive(-x, -x, Square(-x));
      assert Square(-x) == Square(x);
    }
  }

  lemma ProductPositive(a: real, b: real, p: real)
    requires a > 0.0 && b > 0.0
    requires p == a * b
    ensures p > 0.0
  {
  }

  lemma ScaleStrictlyIncreasing(c: real, x: real, y: real, cx: real, cy: real)
    requires c > 0.0 && x < y
    requires cx == c * x && cy == c * y
    ensures cx < cy
  {
    ProductPositive(c, y - x, cy - cx);
  }

  lemma QuotientIncreasing(x: real, y: real, d: real)
    requires d > 0.0 && x < y
    ensures x / d < y / d
  {
    ScaleStrictlyIncreasing(1.0 / d, x, y, x / d, y / d);
  }

  /** Squaring is strictly increasing on the non-negative reals. */
  lemma SquareIncreasing(a: real, b: real)
    requires 0.0 <= a < b
    ensures Square(a) < Square(b)
  {
    if a > 0.0 {
      ScaleStrictlyIncreasing(a, a, b, Square(a), a * b);
    }
    ScaleStrictlyIncreasing(b, a, b, b * a, Square(b));
  }

  /** Dividing a positive real by a larger positive divisor gives less. */
  lemma QuotientDecreasingInDivisor(x: real, d1: real, d2: real)
    requires x > 0.0 && 0.0 < d1 < d2
    ensures x / d2 < x / d1
  {
    ScaleStrictlyIncreasing(x / d2, d1, d2, (x / d2) * d1, x);
    ScaleStrictlyIncreasing(1.0 / d1, (x / d2) * d1, x, x / d2, x / d1);
  }
}
