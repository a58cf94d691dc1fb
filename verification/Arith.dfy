/** Order facts about products, and the original's cast from double to integer. */
module Arith {

  lemma MulLe(a: int, b: int, c: int)
    requires a <= b && c >= 0
    ensures a * c <= b * c
  {
  }

  lemma CancelLe(a: int, b: int, c: int)
    requires a * c <= b * c && c > 0
    ensures a <= b
  {
  }

  lemma CancelLt(a: int, b: int, c: int)
    requires a * c < b * c && c >= 0
    ensures a < b
  {
  }

  lemma MulLeReal(a: real, b: real, c: real)
    requires a <= b && c >= 0.0
    ensures a * c <= b * c
  {
  }

  lemma MulLtReal(a: real, b: real, c: real)
    requires a < b && c > 0.0
    ensures a * c < b * c
  {
  }

  /** Casting a double to an integer drops the fraction. */
  function Trunc(x: real): int {
    if x >= 0.0 then x.Floor else -((-x).Floor)
  }

  lemma CastProduct(a: int, b: int)
    ensures (a * b) as real == a as real * b as real
  {
  }

  lemma QuotientTimes(x: real, y: real)
    requires y != 0.0
    ensures (x / y) * y == x
  {
  }

  lemma QuotientAtLeast(a: real, n: real, q: real)
    requires q > 0.0 && a * q <= n
    ensures a <= n / q
  {
    QuotientTimes(n, q);
    if n / q < a {
      MulLtReal(n / q, a, q);
    }
  }

  lemma QuotientBelow(b: real, n: real, q: real)
    requires q > 0.0 && n < b * q
    ensures n / q < b
  {
    QuotientTimes(n, q);
    if b <= n / q {
      MulLeReal(b, n / q, q);
    }
  }

  lemma TruncBounds(x: real)
    requires x >= 0.0
    ensures 0 <= Trunc(x) && Trunc(x) as real <= x < (Trunc(x) + 1) as real
  {
  }

  lemma QuotientNonneg(x: real, y: real)
    requires x >= 0.0 && y > 0.0
    ensures x / y >= 0.0
  {
  }

  /** Truncating a quotient of integers whose divisor is positive. */
  lemma TruncQuotient(n: int, d: int)
    requires n >= 0 && d > 0
    ensures var k := Trunc(n as real / d as real); k >= 0 && k * d <= n < (k + 1) * d
  {
    QuotientNonneg(n as real, d as real);
    QuotientTimes(n as real, d as real);
    TruncBoundsTimes(n as real / d as real, n, d);
  }

  lemma TruncBoundsTimes(x: real, n: int, d: int)
    requires x >= 0.0 && d > 0 && x * d as real == n as real
    ensures Trunc(x) >= 0 && Trunc(x) * d <= n < (Trunc(x) + 1) * d
  {
    TruncBounds(x);
    var k := Trunc(x);
    MulLeReal(k as real, x, d as real);
    MulLtReal(x, (k + 1) as real, d as real);
    CastProduct(k, d);
    CastProduct(k + 1, d);
  }

  /** A nonnegative number over a negative one truncates to nothing above zero. */
  lemma TruncNegativeQuotient(n: int, d: int)
    requires n >= 0 && d < 0
    ensures Trunc(n as real / d as real) <= 0
  {
    var exact := n as real / d as real;
    assert exact * d as real == n as real;
    assert exact <= 0.0;
  }
}
