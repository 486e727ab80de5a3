/** Facts about integer division by a positive divisor, shared by the unit conversions. */
module Arith {

  /** The quotient is determined by any decomposition with a remainder in range. */
  lemma DivUnique(n: int, d: int, q: int, r: int)
    requires d > 0 && n == d * q + r && 0 <= r < d
    ensures n / d == q
  {
    var x := n / d - q;
    assert d * x == r - n % d;
    MulAwayFromZero(d, x);
  }

  lemma MulAwayFromZero(d: int, x: int)
    requires d > 0
    ensures x >= 1 ==> d * x >= d
    ensures x <= -1 ==> d * x <= -d
  {
  }

  /** Scaling by a unit and dividing by it again is exact. */
  lemma ScaleExact(a: int, unit: int)
    requires unit > 0
    ensures (a * unit) % unit == 0 && (a * unit) / unit == a
  {
    DivUnique(a * unit, unit, a, 0);
  }

  /** Remainders of two nested divisions combine into one remainder of the product. */
  lemma Recombine(a: int, b: int, q: int, r1: int, r2: int)
    requires a > 0 && b > 0 && 0 <= r1 < a && 0 <= r2 < b
    ensures 0 <= a * r2 + r1 < a * b
    ensures a * (b * q + r2) + r1 == (a * b) * q + (a * r2 + r1)
  {
    assert a * r2 <= a * (b - 1) by {
      MulMonotone(a, r2, b - 1);
    }
  }

  /** Multiplying by a positive factor keeps order. */
  lemma MulMonotone(a: int, x: int, y: int)
    requires a > 0 && x <= y
    ensures a * x <= a * y
  {
    assert a * y - a * x == a * (y - x);
    MulAwayFromZero(a, y - x);
  }
}
