/** Rounded shares: the arithmetic behind confidences and basis points. */
module Arithmetic {
  import opened Domain

  /** scale * part / whole, rounded half up, in whole numbers. */
  function RoundedShare(scale: nat, part: int, whole: int): int
    requires whole > 0
  {
    (2 * scale * part + whole) / (2 * whole)
  }

  lemma MultiplicationReflects(a: real, b: real, d: real)
    requires d > 0.0 && a * d <= b * d
    ensures a <= b
  {
    assert (a - b) * d <= 0.0;
  }

  lemma StrictMultiplicationReflects(a: real, b: real, d: real)
    requires d > 0.0 && a * d < b * d
    ensures a < b
  {
    assert (a - b) * d < 0.0;
  }

  lemma DivisionBrackets(n: int, d: int)
    requires d > 0
    ensures d * (n / d) <= n < d * (n / d) + d
  {
  }

  lemma ProductsOrder(d: int, a: int, b: int)
    requires d > 0 && a <= b
    ensures d * a <= d * b
  {
    assert d * (b - a) >= 0;
  }

  lemma BracketsOrder(q: int, r: int, a: int, b: int, d: int)
    requires d > 0 && d * q <= a <= b < d * r + d
    ensures q <= r
  {
    if r + 1 <= q {
      ProductsOrder(d, r + 1, q);
    }
  }

  lemma DivisionMonotone(a: int, b: int, d: int)
    requires d > 0 && a <= b
    ensures a / d <= b / d
  {
    var q, r := a / d, b / d;
    DivisionBrackets(a, d);
    DivisionBrackets(b, d);
    BracketsOrder(q, r, a, b, d);
  }

  lemma QuotientIs(n: int, d: int, q: int)
    requires d > 0 && d * q <= n < d * q + d
    ensures n / d == q
  {
    DivisionBrackets(n, d);
    BracketsOrder(q, n / d, n, n, d);
    BracketsOrder(n / d, q, n, n, d);
  }

  lemma RoundedShareIs(scale: nat, part: int, whole: int, q: int)
    requires whole > 0 && 2 * whole * q <= 2 * scale * part + whole < 2 * whole * q + 2 * whole
    ensures RoundedShare(scale, part, whole) == q
  {
    QuotientIs(2 * scale * part + whole, 2 * whole, q);
  }

  lemma RoundedShareMonotone(scale: nat, part: int, more: int, whole: int)
    requires whole > 0 && part <= more
    ensures RoundedShare(scale, part, whole) <= RoundedShare(scale, more, whole)
  {
    assert scale * part <= scale * more;
    DivisionMonotone(2 * scale * part + whole, 2 * scale * more + whole, 2 * whole);
  }

  lemma RoundedShareWhole(scale: nat, whole: int)
    requires whole > 0
    ensures RoundedShare(scale, whole, whole) == scale
    ensures RoundedShare(scale, 0, whole) == 0
  {
    assert 2 * whole * scale == 2 * scale * whole;
    RoundedShareIs(scale, whole, whole, scale);
    RoundedShareIs(scale, 0, whole, 0);
  }

  /** The whole-number form is what rounding the real quotient gives. */
  lemma RoundedShareIsRounded(scale: nat, part: int, whole: int)
    requires whole > 0
    ensures RoundHalfUp(scale as real * (part as real / whole as real)) == RoundedShare(scale, part, whole)
  {
    var k := RoundedShare(scale, part, whole);
    var d := whole as real;
    var q := part as real / d;
    var sp := scale * part;
    assert q * d == part as real;
    DivisionBrackets(2 * sp + whole, 2 * whole);
    assert 2 * scale * part == 2 * sp;
    assert 2 * whole * k <= 2 * sp + whole < 2 * whole * k + 2 * whole;
    var x := scale as real * q + 0.5;
    assert x * d == sp as real + 0.5 * d by {
      assert (scale as real * q) * d == scale as real * (q * d);
      assert scale as real * (part as real) == sp as real;
    }
    assert (k as real) * d == (whole * k) as real;
    assert (k as real + 1.0) * d == (whole * k + whole) as real;
    MultiplicationReflects(k as real, x, d);
    StrictMultiplicationReflects(x, k as real + 1.0, d);
  }

  lemma ShiftRounding(x: real, n: int)
    ensures RoundHalfUp(x + n as real) == RoundHalfUp(x) + n
  {
  }

  lemma RoundingCommutesWithMin(a: real, b: real)
    ensures RoundConfidence(MinReal(a, b)) == MinInt(RoundConfidence(a), RoundConfidence(b))
  {
    if a <= b {
      RoundConfidenceMonotone(a, b);
    } else {
      RoundConfidenceMonotone(b, a);
    }
  }
}
