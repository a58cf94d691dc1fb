/**
 * The price of a powerup (contracts/eosio.system/src/powerup.cpp, calc_powerup_fee): the integral of a convex
 * price over the part of the market bought, except that what decay has not yet caught up with costs the price
 * at the adjusted utilization.
 */
module FeeCurve {
  import opened Arith

  function Pow(x: real, n: nat): real {
    if n == 0 then 1.0 else x * Pow(x, n - 1)
  }

  function Ceil(x: real): int {
    -((-x).Floor)
  }

  /** The parameters of one market's curve. */
  datatype Curve = Curve(minPrice: int, maxPrice: int, exponent: nat, weight: int)

  /** What the configuration checks guarantee: an exponent of one comes with equal prices. */
  predicate CurveOk(c: Curve) {
    && 0 <= c.minPrice <= c.maxPrice && 0 < c.maxPrice && 0 < c.weight
    && c.exponent >= 1 && (c.exponent == 1 ==> c.minPrice == c.maxPrice)
  }

  function Fraction(c: Curve, utilization: int): real
    requires c.weight > 0
  {
    utilization as real / c.weight as real
  }

  function Coefficient(c: Curve): real
    requires c.exponent >= 1
  {
    (c.maxPrice - c.minPrice) as real / c.exponent as real
  }

  /** The integral of the price from zero to a fraction of the market. */
  function Integral(c: Curve, u: real): real
    requires c.exponent >= 1
  {
    c.minPrice as real * u + Coefficient(c) * Pow(u, c.exponent)
  }

  /** The price at a fraction of the market. */
  function Price(c: Curve, u: real): real
    requires c.exponent >= 1
  {
    if c.exponent == 1 then c.maxPrice as real
    else c.minPrice as real + (c.maxPrice - c.minPrice) as real * Pow(u, c.exponent - 1)
  }

  /** price_integral_delta. */
  function PriceIntegralDelta(c: Curve, start: int, end: int): real
    requires c.weight > 0 && c.exponent >= 1
  {
    c.minPrice as real * Fraction(c, end) - c.minPrice as real * Fraction(c, start)
    + Coefficient(c) * Pow(Fraction(c, end), c.exponent) - Coefficient(c) * Pow(Fraction(c, start), c.exponent)
  }

  function Min(a: int, b: int): int {
    if b < a then b else a
  }

  /** What x units cost at one price. */
  function Flat(c: Curve, price: real, x: int): real
    requires c.weight > 0
  {
    price * x as real / c.weight as real
  }

  /** The fee before it is rounded up. */
  function ExactFee(c: Curve, utilization: int, adjusted: int, increase: int): real
    requires c.weight > 0 && c.exponent >= 1
  {
    var end := utilization + increase;
    if utilization < adjusted then
      Flat(c, Price(c, Fraction(c, adjusted)), Min(increase, adjusted - utilization))
      + if adjusted < end then PriceIntegralDelta(c, adjusted, end) else 0.0
    else if utilization < end then PriceIntegralDelta(c, utilization, end) else 0.0
  }

  /** calc_powerup_fee. */
  function Fee(c: Curve, utilization: int, adjusted: int, increase: int): int
    requires c.weight > 0 && c.exponent >= 1
  {
    if increase <= 0 then 0 else Ceil(ExactFee(c, utilization, adjusted, increase))
  }

  // Powers

  lemma {:induction false} PowNonneg(x: real, n: nat)
    requires x >= 0.0
    ensures Pow(x, n) >= 0.0
    decreases n
  {
    if n > 0 {
      PowNonneg(x, n - 1);
    }
  }

  lemma {:induction false} PowMonotone(x: real, y: real, n: nat)
    requires 0.0 <= x <= y
    ensures 0.0 <= Pow(x, n) <= Pow(y, n)
    decreases n
  {
    if n > 0 {
      PowMonotone(x, y, n - 1);
      ProductsMonotone(x, y, Pow(x, n - 1), Pow(y, n - 1));
    }
  }

  lemma ProductsMonotone(x: real, y: real, a: real, b: real)
    requires 0.0 <= x <= y && 0.0 <= a <= b
    ensures 0.0 <= x * a <= y * b
  {
    MulLeReal(x, y, a);
    MulLeReal(a, b, y);
  }

  lemma {:induction false} PowAtMostOne(x: real, n: nat)
    requires 0.0 <= x <= 1.0
    ensures 0.0 <= Pow(x, n) <= 1.0
    decreases n
  {
    if n > 0 {
      PowAtMostOne(x, n - 1);
      ProductsMonotone(x, 1.0, Pow(x, n - 1), 1.0);
    }
  }

  /** The chord of a power lies between its tangents: n*x^(n-1)*(y-x) <= y^n - x^n <= n*y^(n-1)*(y-x). */
  lemma {:induction false} PowChord(x: real, y: real, n: nat)
    requires 0.0 <= x <= y && n >= 1
    ensures n as real * Pow(x, n - 1) * (y - x) <= Pow(y, n) - Pow(x, n) <= n as real * Pow(y, n - 1) * (y - x)
    decreases n
  {
    if n == 1 {
      assert Pow(x, 0) == 1.0 && Pow(y, 0) == 1.0;
      assert Pow(x, 1) == x * Pow(x, 0) && Pow(y, 1) == y * Pow(y, 0);
    } else {
      PowChord(x, y, n - 1);
      PowMonotone(x, y, n - 1);
      ChordStep(x, y, n, Pow(x, n - 2), Pow(y, n - 2), Pow(x, n - 1), Pow(y, n - 1));
    }
  }

  lemma ChordStep(x: real, y: real, n: nat, a: real, b: real, xa: real, yb: real)
    requires 0.0 <= x <= y && n >= 2 && xa == x * a && yb == y * b && 0.0 <= xa <= yb
    requires (n - 1) as real * a * (y - x) <= yb - xa <= (n - 1) as real * b * (y - x)
    ensures n as real * xa * (y - x) <= y * yb - x * xa <= n as real * yb * (y - x)
  {
    var m, d := (n - 1) as real, y - x;
    MulLeReal(m * a * d, yb - xa, x);
    MulLeReal(yb - xa, m * b * d, y);
    assert n as real == m + 1.0;
    assert y * yb - x * xa == x * (yb - xa) + yb * d == y * (yb - xa) + xa * d;
    assert m * a * d * x == m * xa * d;
    assert m * b * d * y == m * yb * d;
    MulLeReal(xa, yb, d);
    assert (m + 1.0) * xa * d == m * xa * d + xa * d;
    assert (m + 1.0) * yb * d == m * yb * d + yb * d;
  }

  // The curve

  lemma PriceMonotone(c: Curve, u: real, v: real)
    requires CurveOk(c) && 0.0 <= u <= v
    ensures c.minPrice as real <= Price(c, u) <= Price(c, v)
  {
    if c.exponent > 1 {
      PowMonotone(u, v, c.exponent - 1);
      var gap := (c.maxPrice - c.minPrice) as real;
      ProductsMonotone(gap, gap, Pow(u, c.exponent - 1), Pow(v, c.exponent - 1));
    }
  }

  lemma PriceAtMostMax(c: Curve, u: real)
    requires CurveOk(c) && 0.0 <= u <= 1.0
    ensures Price(c, u) <= c.maxPrice as real
  {
    if c.exponent > 1 {
      PowAtMostOne(u, c.exponent - 1);
      MulLeReal(Pow(u, c.exponent - 1), 1.0, (c.maxPrice - c.minPrice) as real);
    }
  }

  /** The integral really is that of the price: over any stretch it lies between the prices at its two ends. */
  lemma IntegralBetweenPrices(c: Curve, u: real, v: real)
    requires CurveOk(c) && 0.0 <= u <= v
    ensures Price(c, u) * (v - u) <= Integral(c, v) - Integral(c, u) <= Price(c, v) * (v - u)
  {
    PowChord(u, v, c.exponent);
    if c.exponent == 1 {
      assert Coefficient(c) == 0.0;
    } else {
      ScaledChord(c.minPrice as real, (c.maxPrice - c.minPrice) as real, c.exponent as real, Coefficient(c), v - u,
                  Pow(u, c.exponent - 1), Pow(v, c.exponent - 1), Pow(u, c.exponent), Pow(v, c.exponent));
      assert c.minPrice as real * v - c.minPrice as real * u == c.minPrice as real * (v - u);
    }
  }

  lemma ScaledChord(lo: real, gap: real, n: real, k: real, d: real, a: real, b: real, x: real, y: real)
    requires n >= 1.0 && k == gap / n && gap >= 0.0
    requires n * a * d <= y - x <= n * b * d
    ensures (lo + gap * a) * d <= lo * d + k * y - k * x <= (lo + gap * b) * d
  {
    assert k * n == gap;
    assert k >= 0.0;
    MulLeReal(n * a * d, y - x, k);
    MulLeReal(y - x, n * b * d, k);
    Regroup(k, n, gap, a, d);
    Regroup(k, n, gap, b, d);
    assert (y - x) * k == k * y - k * x;
    assert (lo + gap * a) * d == lo * d + gap * a * d;
    assert (lo + gap * b) * d == lo * d + gap * b * d;
  }

  lemma Regroup(k: real, n: real, gap: real, a: real, d: real)
    requires k * n == gap
    ensures n * a * d * k == gap * a * d
  {
    assert n * a * d * k == (k * n) * (a * d);
    assert gap * a * d == gap * (a * d);
  }

  // The fee

  lemma FlatIsFraction(c: Curve, price: real, s: int, e: int)
    requires c.weight > 0
    ensures Flat(c, price, e - s) == price * (Fraction(c, e) - Fraction(c, s))
  {
    var w := c.weight as real;
    assert (e - s) as real / w == e as real / w - s as real / w;
    assert price * (e - s) as real / w == price * ((e - s) as real / w);
  }

  lemma FlatAdds(c: Curve, price: real, x: int, y: int)
    requires c.weight > 0
    ensures Flat(c, price, x + y) == Flat(c, price, x) + Flat(c, price, y)
    ensures Flat(c, price, 0) == 0.0
  {
    FlatIsFraction(c, price, 0, x + y);
    FlatIsFraction(c, price, x, x + y);
    FlatIsFraction(c, price, 0, x);
    FlatIsFraction(c, price, 0, 0);
  }

  lemma FlatMonotone(c: Curve, p: real, q: real, x: int)
    requires c.weight > 0 && p <= q && x >= 0
    ensures Flat(c, p, x) <= Flat(c, q, x)
  {
    FlatIsFraction(c, p, 0, x);
    FlatIsFraction(c, q, 0, x);
    MulLeReal(p, q, Fraction(c, x));
  }

  lemma FractionsOrdered(c: Curve, s: int, e: int)
    requires c.weight > 0 && 0 <= s <= e
    ensures 0.0 <= Fraction(c, s) <= Fraction(c, e)
    ensures e <= c.weight ==> Fraction(c, e) <= 1.0
  {
  }

  /** The curved part of a purchase costs between the prices at its ends. */
  lemma CurvedBetween(c: Curve, s: int, e: int)
    requires CurveOk(c) && 0 <= s <= e
    ensures PriceIntegralDelta(c, s, e) == Integral(c, Fraction(c, e)) - Integral(c, Fraction(c, s))
    ensures Flat(c, Price(c, Fraction(c, s)), e - s) <= PriceIntegralDelta(c, s, e)
            <= Flat(c, Price(c, Fraction(c, e)), e - s)
  {
    FractionsOrdered(c, s, e);
    IntegralBetweenPrices(c, Fraction(c, s), Fraction(c, e));
    FlatIsFraction(c, Price(c, Fraction(c, s)), s, e);
    FlatIsFraction(c, Price(c, Fraction(c, e)), s, e);
  }

  /**
   * The fee lies between what is bought at the price of the higher of the two utilizations, and at the price as much
   * further up.
   */
  lemma FeeBetween(c: Curve, utilization: int, adjusted: int, increase: int, top: int)
    requires CurveOk(c) && 0 <= utilization && 0 <= adjusted && increase >= 0
    requires top == if utilization < adjusted then adjusted else utilization
    ensures Flat(c, Price(c, Fraction(c, top)), increase) <= ExactFee(c, utilization, adjusted, increase)
            <= Flat(c, Price(c, Fraction(c, top + increase)), increase)
  {
    var end := utilization + increase;
    var low, high := Price(c, Fraction(c, top)), Price(c, Fraction(c, top + increase));
    FractionsOrdered(c, top, top + increase);
    PriceMonotone(c, Fraction(c, top), Fraction(c, top + increase));
    if utilization < adjusted {
      var flat := Min(increase, adjusted - utilization);
      FlatMonotone(c, low, high, flat);
      if adjusted < end {
        FractionsOrdered(c, end, top + increase);
        PriceMonotone(c, Fraction(c, end), Fraction(c, top + increase));
        CurvedBetween(c, adjusted, end);
        FlatMonotone(c, Price(c, Fraction(c, end)), high, end - adjusted);
        FlatAdds(c, low, flat, end - adjusted);
        FlatAdds(c, high, flat, end - adjusted);
      }
    } else {
      CurvedBetween(c, utilization, end);
      FlatAdds(c, low, 0, 0);
      FlatAdds(c, high, 0, 0);
    }
  }

  /** From an empty market, it is the integral up to what is bought. */
  lemma FeeFromEmpty(c: Curve, increase: int)
    requires CurveOk(c) && increase > 0
    ensures ExactFee(c, 0, 0, increase) == Integral(c, Fraction(c, increase))
  {
    CurvedBetween(c, 0, increase);
    assert Pow(0.0, c.exponent) == 0.0 * Pow(0.0, c.exponent - 1);
  }

  predicate Buyable(c: Curve, utilization: int, adjusted: int, increase: int) {
    CurveOk(c) && 0 <= utilization && 0 <= increase && utilization + increase <= c.weight && 0 <= adjusted <= c.weight
  }

  /** Nobody pays less than the lowest price for what they buy, nor more than the highest. */
  lemma FeeWithinPrices(c: Curve, utilization: int, adjusted: int, increase: int)
    requires Buyable(c, utilization, adjusted, increase)
    ensures Flat(c, c.minPrice as real, increase) <= ExactFee(c, utilization, adjusted, increase)
            <= Flat(c, c.maxPrice as real, increase)
  {
    var end := utilization + increase;
    if utilization < adjusted {
      var flat := Min(increase, adjusted - utilization);
      FlatWithin(c, adjusted, flat);
      if adjusted < end {
        CurvedWithin(c, adjusted, end);
        FlatAdds(c, c.minPrice as real, flat, end - adjusted);
        FlatAdds(c, c.maxPrice as real, flat, end - adjusted);
      }
    } else if utilization < end {
      CurvedWithin(c, utilization, end);
    } else {
      FlatAdds(c, c.minPrice as real, 0, 0);
      FlatAdds(c, c.maxPrice as real, 0, 0);
    }
  }

  lemma FlatWithin(c: Curve, at: int, x: int)
    requires CurveOk(c) && 0 <= at <= c.weight && x >= 0
    ensures Flat(c, c.minPrice as real, x) <= Flat(c, Price(c, Fraction(c, at)), x) <= Flat(c, c.maxPrice as real, x)
  {
    FractionsOrdered(c, at, at);
    PriceMonotone(c, Fraction(c, at), Fraction(c, at));
    PriceAtMostMax(c, Fraction(c, at));
    FlatMonotone(c, c.minPrice as real, Price(c, Fraction(c, at)), x);
    FlatMonotone(c, Price(c, Fraction(c, at)), c.maxPrice as real, x);
  }

  lemma CurvedWithin(c: Curve, s: int, e: int)
    requires CurveOk(c) && 0 <= s <= e <= c.weight
    ensures Flat(c, c.minPrice as real, e - s) <= PriceIntegralDelta(c, s, e) <= Flat(c, c.maxPrice as real, e - s)
  {
    CurvedBetween(c, s, e);
    FlatWithin(c, s, e - s);
    FlatWithin(c, e, e - s);
  }

  /** Before rounding, buying in two steps costs exactly what buying at once costs. */
  lemma ExactFeeSplits(c: Curve, utilization: int, adjusted: int, a: int, b: int)
    requires CurveOk(c) && 0 <= utilization && 0 <= adjusted && a >= 0 && b >= 0
    ensures ExactFee(c, utilization, adjusted, a + b)
            == ExactFee(c, utilization, adjusted, a) + ExactFee(c, utilization + a, adjusted, b)
  {
    var mid, end := utilization + a, utilization + a + b;
    var price := Price(c, Fraction(c, adjusted));
    if utilization < adjusted {
      FlatAdds(c, price, Min(a, adjusted - utilization), Min(a + b, adjusted - utilization) - Min(a, adjusted - utilization));
    }
    if adjusted <= mid {
      CurvedBetween(c, mid, end);
    }
    if adjusted < end {
      CurvedBetween(c, adjusted, end);
    }
    if adjusted < mid {
      CurvedBetween(c, adjusted, mid);
    }
    CurvedBetween(c, utilization, mid);
    CurvedBetween(c, utilization, end);
  }

  lemma CeilBounds(x: real)
    ensures x <= Ceil(x) as real < x + 1.0
  {
  }

  /** So splitting a purchase never saves anything, and costs at most one unit more. */
  lemma FeeSplits(c: Curve, utilization: int, adjusted: int, a: int, b: int)
    requires CurveOk(c) && 0 <= utilization && 0 <= adjusted && a > 0 && b > 0
    ensures var whole := Fee(c, utilization, adjusted, a + b);
            whole <= Fee(c, utilization, adjusted, a) + Fee(c, utilization + a, adjusted, b) <= whole + 1
  {
    ExactFeeSplits(c, utilization, adjusted, a, b);
    CeilBounds(ExactFee(c, utilization, adjusted, a));
    CeilBounds(ExactFee(c, utilization + a, adjusted, b));
    CeilBounds(ExactFee(c, utilization, adjusted, a + b));
  }

  /** Raising the adjusted utilization never lowers the fee. */
  lemma ExactFeeRises(c: Curve, utilization: int, low: int, high: int, increase: int)
    requires CurveOk(c) && 0 <= utilization && 0 <= low <= high && increase >= 0
    ensures ExactFee(c, utilization, low, increase) <= ExactFee(c, utilization, high, increase)
  {
    if utilization < high {
      var flat := Min(increase, high - utilization);
      ExactFeeSplits(c, utilization, low, flat, increase - flat);
      BelowFlat(c, utilization, low, high, flat);
      AboveAdjusted(c, utilization + flat, low, high, increase - flat);
    } else {
      AboveAdjusted(c, utilization, low, high, increase);
    }
  }

  /** From the adjusted utilization on, it no longer matters. */
  lemma AboveAdjusted(c: Curve, utilization: int, low: int, high: int, increase: int)
    requires CurveOk(c) && 0 <= low <= high && increase >= 0 && (increase > 0 ==> high <= utilization)
    ensures increase > 0 ==> ExactFee(c, utilization, low, increase) == PriceIntegralDelta(c, utilization, utilization + increase)
    ensures increase == 0 ==> ExactFee(c, utilization, low, increase) == 0.0
  {
    if increase == 0 {
      FlatAdds(c, Price(c, Fraction(c, low)), 0, 0);
    }
  }

  /** An adjusted utilization below the utilization does not change the fee: the curve is followed from the utilization. */
  lemma LowerAdjustedIgnored(c: Curve, utilization: int, low: int, increase: int)
    requires CurveOk(c) && 0 <= low <= utilization && increase >= 0
    ensures Fee(c, utilization, low, increase) == Fee(c, utilization, utilization, increase)
  {
    AboveAdjusted(c, utilization, low, utilization, increase);
    AboveAdjusted(c, utilization, utilization, utilization, increase);
  }

  /** Up to the higher of two adjusted utilizations, its price covers whatever the lower one would charge. */
  lemma BelowFlat(c: Curve, utilization: int, low: int, high: int, x: int)
    requires CurveOk(c) && 0 <= utilization && 0 <= low <= high && 0 <= x && utilization + x <= high
    ensures ExactFee(c, utilization, low, x) <= Flat(c, Price(c, Fraction(c, high)), x)
  {
    var end, top := utilization + x, Price(c, Fraction(c, high));
    FractionsOrdered(c, low, high);
    PriceMonotone(c, Fraction(c, low), Fraction(c, high));
    FractionsOrdered(c, end, high);
    PriceMonotone(c, Fraction(c, end), Fraction(c, high));
    FlatAdds(c, top, 0, 0);
    if utilization < low {
      var flat := Min(x, low - utilization);
      FlatMonotone(c, Price(c, Fraction(c, low)), top, flat);
      FlatAdds(c, top, flat, x - flat);
      if low < end {
        CurvedBetween(c, low, end);
        FlatMonotone(c, Price(c, Fraction(c, end)), top, end - low);
      }
    } else if utilization < end {
      CurvedBetween(c, utilization, end);
      FlatMonotone(c, Price(c, Fraction(c, end)), top, x);
    }
  }

  lemma FeeRises(c: Curve, utilization: int, low: int, high: int, increase: int)
    requires CurveOk(c) && 0 <= utilization && 0 <= low <= high && increase >= 0
    ensures Fee(c, utilization, low, increase) <= Fee(c, utilization, high, increase)
  {
    ExactFeeRises(c, utilization, low, high, increase);
  }
}
