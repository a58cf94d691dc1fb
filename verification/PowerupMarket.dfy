/**
 * One resource market of contracts/eosio.system/src/powerup.cpp: the shrinking weight ratio, the weight that
 * follows from it, the decaying utilization, and the configuration of all of these.
 */
module PowerupMarket {
  import opened Names
  import opened Arith
  import opened FeeCurve

  const POWERUP_FRAC: int := 1_000_000_000_000_000

  const INT64_MAX: int := 0x7fff_ffff_ffff_ffff

  const DEFAULT_EXPONENT: nat := 2

  const DEFAULT_DECAY_SECS: int := 86400

  datatype Market = Market(
    weight: int,
    weightRatio: int,
    assumedStakeWeight: int,
    initialWeightRatio: int,
    targetWeightRatio: int,
    initialTimestamp: int,
    targetTimestamp: int,
    exponent: nat,
    decaySecs: int,
    minPrice: int,
    maxPrice: int,
    utilization: int,
    adjustedUtilization: int,
    utilizationTimestamp: int)

  /** A market before its first configuration. */
  const UNCONFIGURED: Market :=
    Market(0, 0, 0, POWERUP_FRAC, POWERUP_FRAC / 100, 0, 0, DEFAULT_EXPONENT, DEFAULT_DECAY_SECS, 0, 0, 0, 0, 0)

  // The weight schedule

  /** Division of integers that drops the fraction; the divisor is positive. */
  function Quotient(a: int, b: int): int
    requires b > 0
  {
    if a >= 0 then a / b else -((-a) / b)
  }

  /** A configuration that passed its checks. */
  predicate Scheduled(m: Market) {
    && 0 < m.targetWeightRatio <= m.initialWeightRatio <= POWERUP_FRAC
    && m.assumedStakeWeight >= 1
    && m.assumedStakeWeight * POWERUP_FRAC / m.targetWeightRatio <= INT64_MAX
    && m.initialTimestamp <= m.targetTimestamp
    && (m.initialTimestamp == m.targetTimestamp ==> m.initialWeightRatio == m.targetWeightRatio)
    && m.decaySecs >= 1 && m.exponent >= 1
    && 0 <= m.minPrice <= m.maxPrice && 0 < m.maxPrice
    && (m.exponent == 1 ==> m.minPrice == m.maxPrice)
  }

  /** The linear schedule, from its start on. */
  function RatioAt(m: Market, now: int): int
    requires now < m.targetTimestamp ==> m.initialTimestamp < m.targetTimestamp
  {
    if now >= m.targetTimestamp then m.targetWeightRatio
    else m.initialWeightRatio
         + Quotient((m.targetWeightRatio - m.initialWeightRatio) * (now - m.initialTimestamp),
                    m.targetTimestamp - m.initialTimestamp)
  }

  /** The market weight that makes the ratio assumed / (assumed + weight). */
  function WeightFor(assumed: int, ratio: int): int
    requires ratio > 0
  {
    assumed * POWERUP_FRAC / ratio - assumed
  }

  /** How far the ratio has come down: the part of the drop that has elapsed, rounded down. */
  function Dropped(drop: int, elapsed: int, span: int): int
    requires span > 0
  {
    drop * elapsed / span
  }

  lemma RatioIsDropped(m: Market, now: int)
    requires Scheduled(m) && m.initialTimestamp <= now < m.targetTimestamp
    ensures RatioAt(m, now) == m.initialWeightRatio
              - Dropped(m.initialWeightRatio - m.targetWeightRatio, now - m.initialTimestamp,
                        m.targetTimestamp - m.initialTimestamp)
  {
    var drop, elapsed := m.initialWeightRatio - m.targetWeightRatio, now - m.initialTimestamp;
    assert (m.targetWeightRatio - m.initialWeightRatio) * elapsed == -(drop * elapsed);
    assert drop * elapsed >= 0;
  }

  lemma QuotientBounds(n: int, d: int)
    requires d > 0
    ensures (n / d) * d <= n < (n / d + 1) * d
  {
  }

  /** The ratio comes down on a straight line to its target: what it has lost is the drop's part in the time, rounded down. */
  lemma RatioOnLine(m: Market, now: int)
    requires Scheduled(m) && m.initialTimestamp <= now
    ensures if now >= m.targetTimestamp then RatioAt(m, now) == m.targetWeightRatio
            else
              var lost, span := m.initialWeightRatio - RatioAt(m, now), m.targetTimestamp - m.initialTimestamp;
              lost * span <= (m.initialWeightRatio - m.targetWeightRatio) * (now - m.initialTimestamp) < (lost + 1) * span
  {
    if now < m.targetTimestamp {
      RatioIsDropped(m, now);
      QuotientBounds((m.initialWeightRatio - m.targetWeightRatio) * (now - m.initialTimestamp),
                     m.targetTimestamp - m.initialTimestamp);
    }
  }

  lemma QuotientRises(n: int, m: int, d: int)
    requires 0 <= n <= m && d > 0
    ensures 0 <= n / d <= m / d
  {
    QuotientBounds(n, d);
    QuotientBounds(m, d);
    CancelLt(-1, n / d, d);
    CancelLt(n / d, m / d + 1, d);
  }

  lemma QuotientOfMultiple(n: int, d: int)
    requires d > 0
    ensures n * d / d == n
  {
    QuotientBounds(n * d, d);
    CancelLe(n * d / d, n, d);
    CancelLt(n, n * d / d + 1, d);
  }

  lemma DroppedBounds(drop: int, s: int, t: int, span: int)
    requires drop >= 0 && 0 <= s <= t <= span && span > 0
    ensures 0 <= Dropped(drop, s, span) <= Dropped(drop, t, span) <= drop
  {
    ScaledOrder(drop, s, t);
    ScaledOrder(drop, t, span);
    QuotientRises(drop * s, drop * t, span);
    QuotientRises(drop * t, drop * span, span);
    QuotientOfMultiple(drop, span);
  }

  lemma ScaledOrder(c: int, s: int, t: int)
    requires c >= 0 && 0 <= s <= t
    ensures 0 <= c * s <= c * t
  {
    assert c * t - c * s == c * (t - s);
  }

  /** Between configurations the ratio never rises, and never falls below its target. */
  lemma RatioFalls(m: Market, s: int, t: int)
    requires Scheduled(m) && m.initialTimestamp <= s <= t
    ensures m.targetWeightRatio <= RatioAt(m, t) <= RatioAt(m, s) <= m.initialWeightRatio
  {
    var drop, span := m.initialWeightRatio - m.targetWeightRatio, m.targetTimestamp - m.initialTimestamp;
    if s < m.targetTimestamp {
      RatioIsDropped(m, s);
      var end := if t < m.targetTimestamp then t else m.targetTimestamp;
      DroppedBounds(drop, s - m.initialTimestamp, end - m.initialTimestamp, span);
      if t < m.targetTimestamp {
        RatioIsDropped(m, t);
      }
    }
  }

  lemma QuotientFalls(n: int, d: int, e: int)
    requires n >= 0 && 0 < d <= e
    ensures 0 <= n / e <= n / d
  {
    QuotientBounds(n, d);
    QuotientBounds(n, e);
    CancelLt(-1, n / e, e);
    MulLe(d, e, n / e);
    CancelLt(n / e, n / d + 1, d);
  }

  /** So the weight never shrinks, and is never negative. */
  lemma WeightRises(assumed: int, r: int, s: int)
    requires assumed >= 0 && 0 < s <= r <= POWERUP_FRAC
    ensures 0 <= WeightFor(assumed, r) <= WeightFor(assumed, s)
  {
    QuotientFalls(assumed * POWERUP_FRAC, s, r);
    QuotientFalls(assumed * POWERUP_FRAC, r, POWERUP_FRAC);
    assert assumed * POWERUP_FRAC / POWERUP_FRAC == assumed;
  }

  /** The one check at configuration keeps weight plus assumed stake within 64 bits for good. */
  lemma WeightFits(m: Market, s: int, t: int)
    requires Scheduled(m) && m.initialTimestamp <= s <= t
    ensures 0 < RatioAt(m, t) <= RatioAt(m, s)
    ensures 0 <= WeightFor(m.assumedStakeWeight, RatioAt(m, s)) <= WeightFor(m.assumedStakeWeight, RatioAt(m, t))
            <= 9_223_372_036_854_775_807 - m.assumedStakeWeight
  {
    RatioFalls(m, s, t);
    WeightRises(m.assumedStakeWeight, RatioAt(m, s), RatioAt(m, t));
    WeightRises(m.assumedStakeWeight, RatioAt(m, t), m.targetWeightRatio);
  }

  /**
   * assumed / (assumed + weight), in parts of 10^15, recovers the ratio from above, within ratio / (assumed + weight):
   * the weight is the largest for which it is no less than the ratio.
   */
  lemma RatioRecovered(assumed: int, ratio: int)
    requires assumed >= 1 && 0 < ratio <= POWERUP_FRAC
    ensures var all := WeightFor(assumed, ratio) + assumed;
            && all > 0
            && ratio as real <= (assumed * POWERUP_FRAC) as real / all as real < ratio as real + ratio as real / all as real
  {
    var n := assumed * POWERUP_FRAC;
    var all := n / ratio;
    WeightRises(assumed, ratio, ratio);
    QuotientBounds(n, ratio);
    RealQuotient(n, ratio, all);
  }

  lemma RealQuotient(n: int, d: int, q: int)
    requires q > 0 && d > 0 && q * d <= n < (q + 1) * d
    ensures d as real <= n as real / q as real < d as real + d as real / q as real
  {
    CastProduct(q, d);
    CastProduct(q + 1, d);
    NextMultiple(d as real, q as real);
    QuotientAtLeast(d as real, n as real, q as real);
    QuotientBelow(d as real + d as real / q as real, n as real, q as real);
  }

  lemma NextMultiple(d: real, q: real)
    requires q > 0.0
    ensures (d + d / q) * q == (q + 1.0) * d && d * q == q * d
  {
    QuotientTimes(d, q);
    assert (d + d / q) * q == d * q + (d / q) * q;
  }

  // Decay of the adjusted utilization

  function Clamp(x: int, lo: int, hi: int): int {
    if x < lo then lo else if hi < x then hi else x
  }

  /** update_utilization; decay is the exponential factor for the time that has passed. */
  function Decayed(m: Market, now: int, decay: real): Market {
    if now <= m.utilizationTimestamp then m
    else
      var diff := m.adjustedUtilization - m.utilization;
      m.(adjustedUtilization := if m.utilization >= m.adjustedUtilization then m.utilization
                                else m.utilization + Clamp(Trunc(diff as real * decay), 0, diff),
         utilizationTimestamp := now)
  }

  /**
   * The header promises that the adjusted utilization is then no less than the utilization.  It is so exactly
   * when time has passed since the last update, or it was so before; TwoInOneSecond shows where it is not.
   */
  lemma DecayedCovers(m: Market, now: int, decay: real)
    requires m.utilizationTimestamp <= now
    ensures Decayed(m, now, decay).adjustedUtilization >= m.utilization
            <==> m.utilizationTimestamp < now || m.adjustedUtilization >= m.utilization
  {
  }

  /** The rest of its contract: decay never raises a higher adjusted utilization, and catches up with a lower one. */
  lemma DecayedBetween(m: Market, now: int, decay: real)
    requires m.utilizationTimestamp < now && 0.0 <= decay <= 1.0
    ensures var d := Decayed(m, now, decay);
            && (m.utilization < m.adjustedUtilization ==> m.utilization <= d.adjustedUtilization <= m.adjustedUtilization)
            && (m.utilization >= m.adjustedUtilization ==> d.adjustedUtilization == m.utilization)
            && d == m.(adjustedUtilization := d.adjustedUtilization, utilizationTimestamp := now)
  {
  }

  /** The clamp is idle for any factor between zero and one: the gap shrinks by exactly the truncated factor. */
  lemma DecayedGap(m: Market, now: int, decay: real)
    requires m.utilizationTimestamp < now && 0.0 <= decay <= 1.0 && m.utilization < m.adjustedUtilization
    ensures Decayed(m, now, decay).adjustedUtilization
            == m.utilization + Trunc((m.adjustedUtilization - m.utilization) as real * decay)
  {
    PartOf(m.adjustedUtilization - m.utilization, decay);
  }

  /** A part of a whole number, rounded down, is within it. */
  lemma PartOf(whole: int, part: real)
    requires whole >= 0 && 0.0 <= part <= 1.0
    ensures 0 <= Trunc(whole as real * part) <= whole
  {
    ScaledWithin(whole as real, part);
    TruncWithin(whole as real * part, whole);
  }

  lemma TruncWithin(x: real, whole: int)
    requires 0.0 <= x <= whole as real
    ensures 0 <= Trunc(x) <= whole
  {
  }

  lemma ScaledWithin(x: real, part: real)
    requires x >= 0.0 && 0.0 <= part <= 1.0
    ensures 0.0 <= x * part <= x
  {
    assert x - x * part == x * (1.0 - part);
  }

  // What holds of a market between actions

  /** update_weight, on the market. */
  function Reweighed(m: Market, now: int): Market
    requires Scheduled(m) && m.initialTimestamp <= now
  {
    RatioFalls(m, now, now);
    m.(weightRatio := RatioAt(m, now), weight := WeightFor(m.assumedStakeWeight, RatioAt(m, now)))
  }

  /** The weight follows the schedule as of the last update, and is never exceeded. */
  predicate MarketOk(m: Market) {
    && Scheduled(m)
    && m.initialTimestamp <= m.utilizationTimestamp
    && m.weightRatio == RatioAt(m, m.utilizationTimestamp) > 0
    && m.weight == WeightFor(m.assumedStakeWeight, m.weightRatio)
    && 0 <= m.utilization <= m.weight
    && 0 <= m.adjustedUtilization <= m.weight
  }

  /** Time passes: utilization decays, orders worth freed expire, and the weight catches up with the schedule. */
  function Advanced(m: Market, now: int, decay: real, freed: int): Market
    requires Scheduled(m) && m.initialTimestamp <= now
  {
    var d := Decayed(m, now, decay);
    Reweighed(d.(utilization := d.utilization - freed), now)
  }

  /** That keeps the market in order, and neither the weight nor what is available ever shrinks. */
  lemma AdvancedOk(m: Market, now: int, decay: real, freed: int)
    requires MarketOk(m) && m.utilizationTimestamp <= now && 0 <= freed <= m.utilization
    ensures var a := Advanced(m, now, decay, freed);
            && MarketOk(a) && a.utilizationTimestamp == now
            && a.weight >= m.weight && a.weight - a.utilization >= m.weight - m.utilization + freed
            && a.minPrice == m.minPrice && a.maxPrice == m.maxPrice && a.exponent == m.exponent
  {
    WeightFits(m, m.utilizationTimestamp, now);
    RatioFalls(m, m.utilizationTimestamp, now);
  }

  /**
   * The adjusted utilization decays towards the utilization there was before expired orders are ended, and not within a
   * second of the last time.
   */
  lemma DecaysBeforeFreeing(m: Market, now: int, decay: real, freed: int)
    requires MarketOk(m) && m.utilizationTimestamp <= now && 0.0 <= decay <= 1.0
    ensures var a := Advanced(m, now, decay, freed);
            && a.utilization == m.utilization - freed && a.utilizationTimestamp == now
            && a.adjustedUtilization == (if now == m.utilizationTimestamp then m.adjustedUtilization
                                         else if m.adjustedUtilization <= m.utilization then m.utilization
                                         else m.utilization + Trunc((m.adjustedUtilization - m.utilization) as real * decay))
  {
    if m.utilizationTimestamp < now && m.utilization < m.adjustedUtilization {
      DecayedGap(m, now, decay);
    }
  }

  /** The curve the fee is computed on. */
  function CurveOf(m: Market): Curve {
    Curve(m.minPrice, m.maxPrice, m.exponent, m.weight)
  }

  // Buying

  function AmountFor(m: Market, frac: int): int {
    frac * m.weight / POWERUP_FRAC
  }

  /** The fee for part of a market; a market without weight has nothing to sell. */
  function FeeFor(m: Market, frac: int): int {
    if frac == 0 || m.weight <= 0 || m.exponent < 1 then 0
    else Fee(CurveOf(m), m.utilization, m.adjustedUtilization, AmountFor(m, frac))
  }

  /** The checks on the part of one market that is bought. */
  predicate Sellable(m: Market, frac: int) {
    frac != 0 ==> m.weight != 0 && m.utilization + AmountFor(m, frac) <= m.weight && FeeFor(m, frac) > 0
  }

  function Sold(m: Market, frac: int): Market {
    m.(utilization := m.utilization + AmountFor(m, frac))
  }

  lemma AmountNonneg(m: Market, frac: int)
    requires m.weight >= 0 && frac >= 0
    ensures AmountFor(m, frac) >= 0 && AmountFor(m, 0) == 0
  {
    assert frac * m.weight >= 0;
    QuotientFalls(frac * m.weight, POWERUP_FRAC, POWERUP_FRAC);
  }

  /** What is sold fits the market, and is never nothing if it was asked for. */
  lemma SoldOk(m: Market, frac: int)
    requires MarketOk(m) && frac >= 0 && Sellable(m, frac)
    ensures MarketOk(Sold(m, frac)) && AmountFor(m, frac) >= 0 && FeeFor(m, frac) >= 0
    ensures frac != 0 ==> AmountFor(m, frac) > 0
    ensures frac == 0 ==> Sold(m, frac) == m && FeeFor(m, frac) == 0
  {
    AmountNonneg(m, frac);
  }

  /** The market's price at a fraction of it. */
  function PriceAt(m: Market, u: real): real
    requires m.exponent >= 1
  {
    m.minPrice as real + (m.maxPrice - m.minPrice) as real * Pow(u, m.exponent - 1)
  }

  /** What an amount costs at a price per whole market. */
  function CostAt(m: Market, price: real, amount: int): real
    requires m.weight > 0
  {
    price * amount as real / m.weight as real
  }

  /** The integral of the price up to a fraction of the market. */
  function IntegralAt(m: Market, u: real): real
    requires m.exponent >= 1
  {
    m.minPrice as real * u + (m.maxPrice - m.minPrice) as real / m.exponent as real * Pow(u, m.exponent)
  }

  /**
   * The fee for an amount, in the market's own prices: before rounding up, at least the amount at the price where the
   * market stands, the higher of its two utilizations, and at most at the price as much further up; from an empty
   * market, exactly the integral of the price.
   */
  predicate AtMarketPrice(m: Market, amount: int, fee: int)
    requires m.weight > 0 && m.exponent >= 1
  {
    var at := if m.utilization < m.adjustedUtilization then m.adjustedUtilization else m.utilization;
    && CostAt(m, PriceAt(m, at as real / m.weight as real), amount) <= fee as real
    && fee as real < CostAt(m, PriceAt(m, (at + amount) as real / m.weight as real), amount) + 1.0
    && (m.utilization == 0 && m.adjustedUtilization == 0 ==>
          IntegralAt(m, amount as real / m.weight as real) <= fee as real
          < IntegralAt(m, amount as real / m.weight as real) + 1.0)
  }

  /** A part of a market, in units of 10^-15 and rounded down, and its fee; nothing is sold for nothing. */
  predicate IsSale(m: Market, frac: int, amount: int, fee: int)
    requires m.exponent >= 1
  {
    && amount * 1_000_000_000_000_000 <= frac * m.weight < (amount + 1) * 1_000_000_000_000_000
    && if frac == 0 then amount == 0 && fee == 0 else m.weight > 0 && fee > 0 && AtMarketPrice(m, amount, fee)
  }

  /** It is said of any market that is this one, so that a proof looks into the prices only where it speaks of them. */
  ghost predicate SoldFairly(m: Market, frac: int, amount: int, fee: int) {
    forall x: Market :: x == m ==> x.exponent >= 1 && IsSale(x, frac, amount, fee)
  }

  lemma CurveIsMarkets(m: Market, u: real)
    requires Scheduled(m) && m.weight > 0
    ensures CurveOk(CurveOf(m)) && Price(CurveOf(m), u) == PriceAt(m, u) && Integral(CurveOf(m), u) == IntegralAt(m, u)
  {
  }

  lemma CostIsFlat(m: Market, at: int, amount: int)
    requires Scheduled(m) && m.weight > 0
    ensures CurveOk(CurveOf(m))
    ensures Flat(CurveOf(m), Price(CurveOf(m), Fraction(CurveOf(m), at)), amount)
            == CostAt(m, PriceAt(m, at as real / m.weight as real), amount)
  {
    CurveIsMarkets(m, at as real / m.weight as real);
  }

  lemma EmptyMarketPrice(m: Market, amount: int)
    requires Scheduled(m) && m.weight > 0 && amount > 0
    ensures CurveOk(CurveOf(m)) && ExactFee(CurveOf(m), 0, 0, amount) == IntegralAt(m, amount as real / m.weight as real)
  {
    CurveIsMarkets(m, amount as real / m.weight as real);
    FeeFromEmpty(CurveOf(m), amount);
  }

  lemma FeeIsMarketPrice(m: Market, amount: int)
    requires Scheduled(m) && m.weight > 0 && 0 <= m.utilization && 0 <= m.adjustedUtilization && amount > 0
    ensures AtMarketPrice(m, amount, Fee(CurveOf(m), m.utilization, m.adjustedUtilization, amount))
  {
    var at := if m.utilization < m.adjustedUtilization then m.adjustedUtilization else m.utilization;
    CostIsFlat(m, at, amount);
    CostIsFlat(m, at + amount, amount);
    EmptyMarketPrice(m, amount);
    FeeBetween(CurveOf(m), m.utilization, m.adjustedUtilization, amount, at);
    CeilBounds(ExactFee(CurveOf(m), m.utilization, m.adjustedUtilization, amount));
  }

  lemma AmountIsPart(m: Market, frac: int)
    ensures var amount := AmountFor(m, frac);
            amount * 1_000_000_000_000_000 <= frac * m.weight < (amount + 1) * 1_000_000_000_000_000
  {
    QuotientBounds(frac * m.weight, POWERUP_FRAC);
  }

  lemma SaleIsFair(m: Market, frac: int)
    requires MarketOk(m) && frac >= 0 && Sellable(m, frac)
    ensures SoldFairly(m, frac, AmountFor(m, frac), FeeFor(m, frac))
  {
    SoldOk(m, frac);
    AmountIsPart(m, frac);
    if frac != 0 {
      FeeIsMarketPrice(m, AmountFor(m, frac));
    }
  }

  /** What calc_powerup_fee asks of its caller, the last part of which the code does not ensure. */
  predicate FeeAsked(m: Market, amount: int) {
    Buyable(CurveOf(m), m.utilization, m.adjustedUtilization, amount) && m.utilization <= m.adjustedUtilization
  }

  /**
   * A sale always meets what the fee's properties need, and meets all that calc_powerup_fee asks exactly if time
   * has passed since the market was last brought up to date, or its adjusted utilization covers what is not
   * freed now.  Where it does not, the fee is that of an adjusted utilization equal to the utilization.
   */
  lemma SaleIsBuyable(m: Market, now: int, decay: real, freed: int, frac: int)
    requires MarketOk(m) && m.utilizationTimestamp <= now && 0 <= freed <= m.utilization
    requires frac > 0 && Sellable(Advanced(m, now, decay, freed), frac)
    ensures var a := Advanced(m, now, decay, freed);
            && Buyable(CurveOf(a), a.utilization, a.adjustedUtilization, AmountFor(a, frac))
            && FeeFor(a, frac) == Fee(CurveOf(a), a.utilization, Max(a.utilization, a.adjustedUtilization), AmountFor(a, frac))
            && (FeeAsked(a, AmountFor(a, frac))
                <==> m.utilizationTimestamp < now || m.utilization - freed <= m.adjustedUtilization)
  {
    AdvancedOk(m, now, decay, freed);
    var a := Advanced(m, now, decay, freed);
    AmountNonneg(a, frac);
    if a.adjustedUtilization < a.utilization {
      LowerAdjustedIgnored(CurveOf(a), a.utilization, a.adjustedUtilization, AmountFor(a, frac));
    }
  }

  function Max(a: int, b: int): int {
    if a < b then b else a
  }

  /** A market of 99 units at a flat price, as a configuration leaves it. */
  const SMALL_MARKET: Market :=
    Market(99, POWERUP_FRAC / 100, 1, POWERUP_FRAC / 100, POWERUP_FRAC / 100, 0, 0, 1, 1, 100, 100, 0, 0, 0)

  /**
   * Half of it is sold, and within the same second a tenth: the second sale finds the adjusted utilization at
   * zero, below the utilization of 49.
   */
  lemma TwoInOneSecond(now: int, decay: real)
    requires now > 0 && 0.0 <= decay <= 1.0
    ensures MarketOk(SMALL_MARKET)
    ensures var first := Advanced(SMALL_MARKET, now, decay, 0);
            var second := Advanced(Sold(first, POWERUP_FRAC / 2), now, decay, 0);
            && Sellable(first, POWERUP_FRAC / 2) && Sellable(second, POWERUP_FRAC / 10)
            && second.adjustedUtilization == 0 && second.utilization == 49
            && Decayed(Sold(first, POWERUP_FRAC / 2), now, decay).adjustedUtilization < 49
            && !FeeAsked(second, AmountFor(second, POWERUP_FRAC / 10))
  {
    var first := Advanced(SMALL_MARKET, now, decay, 0);
    assert first == SMALL_MARKET.(utilizationTimestamp := now);
    FlatPrice(first, POWERUP_FRAC / 2, 49);
    FlatPrice(Sold(first, POWERUP_FRAC / 2), POWERUP_FRAC / 10, 9);
  }

  /** In the small market anything costs something. */
  lemma FlatPrice(m: Market, frac: int, amount: int)
    requires m == SMALL_MARKET.(utilization := m.utilization, utilizationTimestamp := m.utilizationTimestamp)
    requires 0 <= m.utilization && frac > 0 && amount == AmountFor(m, frac) > 0 && m.utilization + amount <= 99
    ensures FeeFor(m, frac) > 0
  {
    var c := CurveOf(m);
    FeeWithinPrices(c, m.utilization, 0, amount);
    CeilBounds(ExactFee(c, m.utilization, 0, amount));
  }

  // Configuration

  /** The arguments of a configuration; what is left out keeps its setting. */
  datatype MarketConfig = MarketConfig(
    currentWeightRatio: Option<int>,
    targetWeightRatio: Option<int>,
    assumedStakeWeight: Option<int>,
    targetTimestamp: Option<int>,
    exponent: Option<nat>,
    decaySecs: Option<int>,
    minPrice: Option<int>,
    maxPrice: Option<int>)

  const KEEP_ALL: MarketConfig := MarketConfig(None, None, None, None, None, None, None, None)

  function Default<T>(arg: Option<T>, setting: T): T {
    match arg
    case Some(value) => value
    case None => setting
  }

  /** The settings that result; prices have no default before the first configuration, the lower one is zero. */
  function Configured(m: Market, args: MarketConfig, known: bool, now: int): Market {
    var current := Default(args.currentWeightRatio, if m.weightRatio != 0 then m.weightRatio else m.initialWeightRatio);
    var target := Default(args.targetWeightRatio, m.targetWeightRatio);
    m.(assumedStakeWeight := Default(args.assumedStakeWeight, m.assumedStakeWeight),
       initialWeightRatio := current,
       targetWeightRatio := target,
       initialTimestamp := now,
       targetTimestamp := if current == target then now else Default(args.targetTimestamp, m.targetTimestamp),
       exponent := Default(args.exponent, m.exponent),
       decaySecs := Default(args.decaySecs, m.decaySecs),
       maxPrice := Default(args.maxPrice, m.maxPrice),
       minPrice := Default(args.minPrice, if known then m.minPrice else 0))
  }

  /** The checks of a configuration, in the order of the code; known says whether there was one before. */
  predicate Configurable(m: Market, args: MarketConfig, known: bool, now: int) {
    var c := Configured(m, args, known, now);
    && (args.assumedStakeWeight == None ==> m.assumedStakeWeight != 0)
    && (c.initialWeightRatio != c.targetWeightRatio ==>
          && (args.targetTimestamp == None ==> m.targetTimestamp != 0)
          && c.targetTimestamp > now)
    && (args.maxPrice == None ==> known)
    && c.initialWeightRatio > 0
    && c.initialWeightRatio <= POWERUP_FRAC
    && c.targetWeightRatio > 0
    && c.targetWeightRatio <= c.initialWeightRatio
    && c.assumedStakeWeight >= 1
    && c.assumedStakeWeight * POWERUP_FRAC / c.targetWeightRatio <= INT64_MAX
    && c.exponent >= 1
    && c.decaySecs >= 1
    && c.maxPrice > 0
    && c.minPrice >= 0
    && c.minPrice <= c.maxPrice
    && (c.exponent == 1 ==> c.minPrice == c.maxPrice)
  }

  lemma ConfiguredIsScheduled(m: Market, args: MarketConfig, known: bool, now: int)
    requires Configurable(m, args, known, now)
    ensures Scheduled(Configured(m, args, known, now))
  {
  }

  /** The market after its part of cfgpowerup: new settings, new weight, and no more adjusted utilization than that. */
  function Reconfigured(m: Market, args: MarketConfig, known: bool, now: int): Market
    requires Configurable(m, args, known, now)
  {
    var c := Reweighed(Configured(m, args, known, now), now);
    c.(adjustedUtilization := Min(c.adjustedUtilization, c.weight))
  }

  /** One market's part of cfgpowerup goes through, and takes the first state to the second. */
  predicate ConfiguredTo(m: Market, args: MarketConfig, known: bool, now: int, c: Market) {
    Configurable(m, args, known, now) && c == Reconfigured(m, args, known, now)
  }

  /** A setting is the argument given for it, or else what it falls back on. */
  predicate Taken<T(==)>(arg: Option<T>, fallback: T, setting: T) {
    match arg
    case Some(value) => setting == value
    case None => setting == fallback
  }

  /** The settings a configuration asks for; the schedule starts now, from the present ratio if there is one. */
  predicate SettingsTaken(m: Market, args: MarketConfig, known: bool, now: int, c: Market) {
    && Taken(args.currentWeightRatio, if m.weightRatio != 0 then m.weightRatio else m.initialWeightRatio, c.initialWeightRatio)
    && Taken(args.targetWeightRatio, m.targetWeightRatio, c.targetWeightRatio)
    && Taken(args.assumedStakeWeight, m.assumedStakeWeight, c.assumedStakeWeight)
    && Taken(args.exponent, m.exponent, c.exponent) && Taken(args.decaySecs, m.decaySecs, c.decaySecs)
    && Taken(args.maxPrice, m.maxPrice, c.maxPrice) && Taken(args.minPrice, if known then m.minPrice else 0, c.minPrice)
    && c.initialTimestamp == now
    && (if c.initialWeightRatio == c.targetWeightRatio then c.targetTimestamp == now
        else Taken(args.targetTimestamp, m.targetTimestamp, c.targetTimestamp))
  }

  /** They are acceptable exactly if those left out have a value to fall back on, and all are in range. */
  lemma ConfigurableExactly(m: Market, args: MarketConfig, known: bool, now: int, c: Market)
    requires SettingsTaken(m, args, known, now, c)
    ensures Configurable(m, args, known, now)
            <==> && (args.assumedStakeWeight == None ==> m.assumedStakeWeight != 0) && (args.maxPrice == None ==> known)
                 && (c.initialWeightRatio != c.targetWeightRatio ==>
                       c.targetTimestamp > now && (args.targetTimestamp == None ==> m.targetTimestamp != 0))
                 && 0 < c.targetWeightRatio <= c.initialWeightRatio <= 1_000_000_000_000_000
                 && c.assumedStakeWeight >= 1
                 && c.assumedStakeWeight * 1_000_000_000_000_000 / c.targetWeightRatio <= 9_223_372_036_854_775_807
                 && c.exponent >= 1 && c.decaySecs >= 1 && c.maxPrice > 0 && 0 <= c.minPrice <= c.maxPrice
                 && (c.exponent == 1 ==> c.minPrice == c.maxPrice)
  {
  }

  /** The settings it leaves, and what follows from them. */
  predicate ConfigTaken(m: Market, args: MarketConfig, known: bool, now: int, c: Market) {
    && SettingsTaken(m, args, known, now, c)
    && c.weightRatio == c.initialWeightRatio > 0 && c.weight == WeightFor(c.assumedStakeWeight, c.weightRatio)
    && c.utilization == m.utilization && c.utilizationTimestamp == m.utilizationTimestamp
    && c.adjustedUtilization == (if m.adjustedUtilization <= c.weight then m.adjustedUtilization else c.weight)
  }

  lemma ConfiguredTakes(m: Market, args: MarketConfig, known: bool, now: int, c: Market)
    requires ConfiguredTo(m, args, known, now, c)
    ensures ConfigTaken(m, args, known, now, c)
  {
    NothingDropped(Configured(m, args, known, now), now);
  }

  /** The configuration is accepted, and what has been sold still fits. */
  predicate Reconfigurable(m: Market, args: MarketConfig, known: bool, now: int) {
    Configurable(m, args, known, now) && Reconfigured(m, args, known, now).weight >= m.utilization
  }

  /** The check that what has been sold still fits is all that a new configuration needs to leave the market in order. */
  lemma ReconfiguredOk(m: Market, args: MarketConfig, known: bool, now: int)
    requires Configurable(m, args, known, now) && m.utilizationTimestamp == now
    requires 0 <= m.utilization && 0 <= m.adjustedUtilization
    ensures MarketOk(Reconfigured(m, args, known, now)) <==> Reconfigured(m, args, known, now).weight >= m.utilization
  {
    var c := Configured(m, args, known, now);
    RatioFalls(c, now, now);
    WeightFits(c, now, now);
  }

  /** A market brought to the present before it is configured. */
  function Current(m: Market, known: bool, now: int, decay: real): Market
    requires known ==> Scheduled(m) && m.initialTimestamp <= now
  {
    if known then Reweighed(Decayed(m, now, decay), now) else m.(utilizationTimestamp := now)
  }

  lemma CurrentOk(m: Market, known: bool, now: int, decay: real)
    requires if known then MarketOk(m) && m.utilizationTimestamp <= now else m == UNCONFIGURED
    ensures var c := Current(m, known, now, decay);
            && c.utilizationTimestamp == now && c.utilization == m.utilization >= 0 && c.adjustedUtilization >= 0
            && (known ==> MarketOk(c))
  {
    if known {
      AdvancedOk(m, now, decay, 0);
    }
  }

  // Re-running a configuration with nothing but defaults

  /** Restarting a rounded-down linear drop in the middle loses less than one unit, and never drops faster. */
  lemma DropRestarted(drop: int, a: int, x: int, span: int)
    requires drop >= 0 && 0 <= a && 0 <= x && a + x < span
    ensures var first := Dropped(drop, a, span);
            && first <= drop
            && first + Dropped(drop - first, x, span - a) <= Dropped(drop, a + x, span)
               <= first + Dropped(drop - first, x, span - a) + 1
  {
    DroppedBounds(drop, a, span, span);
    var q, n, rest := Dropped(drop, a, span), Dropped(drop, a + x, span), span - a;
    var p := Dropped(drop - q, x, rest);
    QuotientBounds(drop * a, span);
    QuotientBounds(drop * (a + x), span);
    QuotientBounds((drop - q) * x, rest);
    DropArithmetic(drop, a, x, span, q, n, p);
  }

  lemma DropArithmetic(drop: int, a: int, x: int, span: int, q: int, n: int, p: int)
    requires 0 <= a && 0 <= x && a + x < span
    requires q * span <= drop * a < (q + 1) * span
    requires n * span <= drop * (a + x) < (n + 1) * span
    requires p * (span - a) <= (drop - q) * x < (p + 1) * (span - a)
    ensures q + p <= n <= q + p + 1
  {
    var rest, rho, sigma := span - a, drop * a - q * span, drop * (a + x) - n * span;
    Remainder(drop, a, span, q);
    Remainder(drop, a + x, span, n);
    RestartedTimesSpan(drop, a, x, span, q, rho);
    StepTimesSpan(drop, a, x, span, q, n, rho, sigma);
    MulLe(0, rho, x);
    MulLe(x, rest, rho);
    NotTooFast(n - q, rest, span, drop * x, rho, sigma, (drop - q) * x, rho * x, p);
    NotTooSlow(n - q, rest, span, drop * x, rho, sigma, (drop - q) * x, rho * x, p);
  }

  lemma Remainder(drop: int, a: int, span: int, q: int)
    requires q * span <= drop * a < (q + 1) * span
    ensures 0 <= drop * a - q * span < span
  {
  }

  lemma RestartedTimesSpan(drop: int, a: int, x: int, span: int, q: int, rho: int)
    requires rho == drop * a - q * span
    ensures (drop - q) * x * span == drop * x * (span - a) + rho * x
  {
    assert q * span * x == (drop * a - rho) * x;
    assert (drop - q) * x * span == drop * x * span - q * span * x;
    assert drop * x * (span - a) == drop * x * span - drop * a * x;
  }

  lemma StepTimesSpan(drop: int, a: int, x: int, span: int, q: int, n: int, rho: int, sigma: int)
    requires rho == drop * a - q * span && sigma == drop * (a + x) - n * span
    ensures (n - q) * span == drop * x - sigma + rho
  {
  }

  lemma NotTooFast(y: int, rest: int, span: int, dx: int, rho: int, sigma: int, left: int, rx: int, p: int)
    requires rest > 0 && span > 0 && 0 <= rho < span && 0 <= sigma
    requires y * span == dx - sigma + rho && left * span == dx * rest + rx && rx >= 0
    requires left < (p + 1) * rest
    ensures y <= p + 1
  {
    assert (y - 1) * rest * span == (dx - sigma + rho - span) * rest;
    MulLe(dx - sigma + rho - span, dx, rest);
    CancelLe((y - 1) * rest, left, span);
    CancelLt(y - 1, p + 1, rest);
  }

  lemma NotTooSlow(y: int, rest: int, span: int, dx: int, rho: int, sigma: int, left: int, rx: int, p: int)
    requires rest > 0 && span > 0 && 0 <= rho && sigma < span
    requires y * span == dx - sigma + rho && left * span == dx * rest + rx && rx <= rest * rho
    requires p * rest <= left
    ensures p <= y
  {
    assert (y + 1) * rest * span == (dx - sigma + rho + span) * rest;
    MulLe(dx + rho + 1, dx - sigma + rho + span, rest);
    assert (dx + rho + 1) * rest == dx * rest + rest * rho + rest;
    CancelLt(left, (y + 1) * rest, span);
    CancelLt(p, y + 1, rest);
  }

  lemma NothingDropped(c: Market, s: int)
    requires Scheduled(c) && c.initialTimestamp == s
    ensures RatioAt(c, s) == c.initialWeightRatio
  {
    if s < c.targetTimestamp {
      RatioIsDropped(c, s);
      assert (c.initialWeightRatio - c.targetWeightRatio) * 0 == 0;
    }
  }

  /** A configuration of nothing but defaults passes every check, since the weight stays what it is. */
  lemma RebasedFits(m: Market, s: int)
    requires MarketOk(m) && m.utilizationTimestamp == s && s >= 0
    ensures Reconfigurable(m, KEEP_ALL, true, s) && Reconfigured(m, KEEP_ALL, true, s).weight == m.weight
  {
    RatioFalls(m, s, s);
    ConfiguredIsScheduled(m, KEEP_ALL, true, s);
    NothingDropped(Configured(m, KEEP_ALL, true, s), s);
  }

  /**
   * A configuration of nothing but defaults, in the middle of a transition, restarts the schedule from the
   * rounded ratio of the moment.  It passes every check, that of what has been sold included, and from then on
   * every ratio is what it would have been, or one more.
   */
  lemma RebasedSchedule(m: Market, s: int, t: int)
    requires MarketOk(m) && m.utilizationTimestamp == s <= t && s >= 0
    ensures Reconfigurable(m, KEEP_ALL, true, s)
    ensures var c := Configured(m, KEEP_ALL, true, s);
            Scheduled(c) && RatioAt(m, t) <= RatioAt(c, t) <= RatioAt(m, t) + 1
  {
    RatioFalls(m, s, t);
    RatioFalls(m, s, s);
    RebasedFits(m, s);
    var c := Configured(m, KEEP_ALL, true, s);
    if c.initialWeightRatio != c.targetWeightRatio && t < m.targetTimestamp {
      RatioIsDropped(m, s);
      RatioIsDropped(m, t);
      RatioIsDropped(c, t);
      DropRestarted(m.initialWeightRatio - m.targetWeightRatio, s - m.initialTimestamp, t - s,
                    m.targetTimestamp - m.initialTimestamp);
    }
  }
}
