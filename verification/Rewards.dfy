/** How fast fill_buckets can grow the supply (contracts/eosio.system/src/producer_pay.cpp). */
module Inflation {
  import opened Arith

  const USECONDS_PER_YEAR: int := 52 * 7 * 24 * 3600 * 1_000_000

  const CONTINUOUS_RATE: real := 0.04879

  /** The tokens to distribute for a supply and an elapsed time. */
  function Distribution(supply: int, useconds: int): int {
    Trunc(CONTINUOUS_RATE * supply as real * useconds as real / USECONDS_PER_YEAR as real)
  }

  /** The fraction of the supply that is, before truncation. */
  function Fraction(useconds: int): real {
    CONTINUOUS_RATE * useconds as real / USECONDS_PER_YEAR as real
  }

  lemma TruncBelow(x: real)
    requires x >= 0.0
    ensures 0 <= Trunc(x) && Trunc(x) as real <= x
  {
  }

  lemma ScaleQuotient(a: real, b: real, c: real, y: real)
    requires y > 0.0
    ensures a * b * c / y == (a * c / y) * b
  {
  }

  lemma FractionNonneg(useconds: int)
    requires useconds >= 0
    ensures Fraction(useconds) >= 0.0
  {
    assert CONTINUOUS_RATE * useconds as real >= 0.0;
  }

  /** An amount is the yearly rate on a supply for some microseconds, rounded down; a year has 52 weeks. */
  ghost predicate IsAccrued(amount: int, supply: int, useconds: int) {
    forall s :: s == supply ==> AccruedOn(amount, s, useconds)
  }

  predicate AccruedOn(amount: int, supply: int, useconds: int) {
    amount as real * 31_449_600_000_000.0 <= 0.04879 * supply as real * useconds as real
    < (amount + 1) as real * 31_449_600_000_000.0
  }

  lemma DistributionIsAccrued(supply: int, useconds: int)
    requires supply >= 0 && useconds >= 0
    ensures IsAccrued(Distribution(supply, useconds), supply, useconds)
  {
    AccruedBounds(CONTINUOUS_RATE * supply as real * useconds as real);
  }

  lemma AccruedBounds(x: real)
    requires x >= 0.0
    ensures var d := Trunc(x / USECONDS_PER_YEAR as real);
            d as real * 31_449_600_000_000.0 <= x < (d + 1) as real * 31_449_600_000_000.0
  {
    TruncBounds(x / USECONDS_PER_YEAR as real);
  }

  lemma DistributionBound(supply: int, useconds: int)
    requires supply >= 0 && useconds >= 0
    ensures 0 <= Distribution(supply, useconds)
    ensures Distribution(supply, useconds) as real <= Fraction(useconds) * supply as real
  {
    FractionNonneg(useconds);
    ScaleQuotient(CONTINUOUS_RATE, supply as real, useconds as real, USECONDS_PER_YEAR as real);
    assert Fraction(useconds) * supply as real >= 0.0;
    TruncBelow(Fraction(useconds) * supply as real);
  }

  /**
   * A polynomial that grows at least as fast as itself on a year's worth of the rate; it bounds every way
   * of compounding, and stays just below 1.05 there.
   */
  function Bound(x: real): real {
    1.0 + x + x * x / 2.0 + 0.16943 * (x * x * x)
  }

  lemma CubeExpansion(x: real, h: real)
    ensures (x + h) * (x + h) == x * x + 2.0 * (x * h) + h * h
    ensures (x + h) * (x + h) * (x + h) == x * x * x + 3.0 * (x * x * h) + 3.0 * (x * (h * h)) + h * h * h
  {
    var s := x + h;
    assert s * s == x * x + 2.0 * (x * h) + h * h;
    assert (s * s) * s == (s * s) * x + (s * s) * h;
  }

  lemma Products(x: real, h: real)
    requires 0.0 <= x && 0.0 <= h
    ensures x * h >= 0.0 && h * h >= 0.0 && x * x * h >= 0.0 && x * (h * h) >= 0.0 && h * h * h >= 0.0
  {
  }

  lemma CubicTerm(x: real, h: real)
    requires 0.0 <= x <= CONTINUOUS_RATE && 0.0 <= h
    ensures 3.0 * 0.16943 * (x * x * h) >= x * x * h / 2.0 + 0.16943 * (x * x * x * h)
  {
    Products(x, h);
    var q := x * x * h;
    assert x * x * x * h == x * q;
    assert x * q <= CONTINUOUS_RATE * q;
  }

  lemma BoundOfSum(x: real, h: real)
    ensures Bound(x + h) == 1.0 + (x + h) + (x * x + 2.0 * (x * h) + h * h) / 2.0
                            + 0.16943 * (x * x * x + 3.0 * (x * x * h) + 3.0 * (x * (h * h)) + h * h * h)
  {
    CubeExpansion(x, h);
  }

  lemma StepArithmetic(compounded: real, next: real, x: real, h: real, xx: real, xh: real, hh: real, xxx: real,
                       xxh: real, xhh: real, hhh: real, xxxh: real)
    requires compounded == (1.0 + x + xx / 2.0 + 0.16943 * xxx) + (h + xh + xxh / 2.0 + 0.16943 * xxxh)
    requires next == 1.0 + (x + h) + (xx + 2.0 * xh + hh) / 2.0 + 0.16943 * (xxx + 3.0 * xxh + 3.0 * xhh + hhh)
    requires hh >= 0.0 && xhh >= 0.0 && hhh >= 0.0
    requires 3.0 * 0.16943 * xxh >= xxh / 2.0 + 0.16943 * xxxh
    ensures compounded <= next
  {
  }

  lemma BoundTerms(x: real, h: real, compounded: real, next: real)
    requires compounded == Bound(x) * (1.0 + h) && next == Bound(x + h)
    ensures compounded == (1.0 + x + x * x / 2.0 + 0.16943 * (x * x * x))
                          + (h + x * h + x * x * h / 2.0 + 0.16943 * (x * x * x * h))
    ensures next == 1.0 + (x + h) + (x * x + 2.0 * (x * h) + h * h) / 2.0
                    + 0.16943 * (x * x * x + 3.0 * (x * x * h) + 3.0 * (x * (h * h)) + h * h * h)
  {
    BoundTimes(x, h);
    BoundOfSum(x, h);
  }

  lemma BoundStepFor(x: real, h: real, compounded: real, next: real)
    requires 0.0 <= x && 0.0 <= h && x + h <= CONTINUOUS_RATE
    requires compounded == (1.0 + x + x * x / 2.0 + 0.16943 * (x * x * x))
                           + (h + x * h + x * x * h / 2.0 + 0.16943 * (x * x * x * h))
    requires next == 1.0 + (x + h) + (x * x + 2.0 * (x * h) + h * h) / 2.0
                     + 0.16943 * (x * x * x + 3.0 * (x * x * h) + 3.0 * (x * (h * h)) + h * h * h)
    ensures compounded <= next
  {
    Products(x, h);
    CubicTerm(x, h);
    StepArithmetic(compounded, next, x, h, x * x, x * h, h * h, x * x * x, x * x * h, x * (h * h), h * h * h,
                   x * x * x * h);
  }

  /** One step of compounding stays under the bound. */
  lemma BoundStep(x: real, h: real)
    requires 0.0 <= x && 0.0 <= h && x + h <= CONTINUOUS_RATE
    ensures Bound(x) * (1.0 + h) <= Bound(x + h)
  {
    var compounded, next := Bound(x) * (1.0 + h), Bound(x + h);
    BoundTerms(x, h, compounded, next);
    BoundStepFor(x, h, compounded, next);
  }

  lemma BoundTimes(x: real, h: real)
    ensures Bound(x) * (1.0 + h) == Bound(x) + (h + x * h + x * x * h / 2.0 + 0.16943 * (x * x * x * h))
  {
    var a, b := x * x / 2.0, 0.16943 * (x * x * x);
    assert Bound(x) * h == h + x * h + a * h + b * h;
    assert a * h == x * x * h / 2.0;
    assert b * h == 0.16943 * (x * x * x * h);
    assert Bound(x) * (1.0 + h) == Bound(x) + Bound(x) * h;
  }

  lemma BoundMonotone(x: real, y: real)
    requires 0.0 <= x <= y
    ensures Bound(x) <= Bound(y)
  {
    assert x * x <= y * y;
    assert x * x * x <= y * y * y;
  }

  /** What happens to the supply: a fill, which burns the fees collected, or a retirement by someone else. */
  datatype SupplyStep = Fill(useconds: int, fees: int) | Retire(amount: int)

  predicate StepOk(s: SupplyStep) {
    match s
    case Fill(t, f) => t >= 0 && f >= 0
    case Retire(a) => a >= 0
  }

  function SupplyAfter(supply: int, s: SupplyStep): int {
    match s
    case Fill(t, f) => supply + Distribution(supply, t) - f
    case Retire(a) => supply - a
  }

  ghost predicate RunOk(supply: int, steps: seq<SupplyStep>)
    decreases |steps|
  {
    && supply >= 0
    && (steps == [] || (StepOk(steps[0]) && RunOk(SupplyAfter(supply, steps[0]), steps[1..])))
  }

  function RunSupply(supply: int, steps: seq<SupplyStep>): int
    decreases |steps|
  {
    if steps == [] then supply else RunSupply(SupplyAfter(supply, steps[0]), steps[1..])
  }

  /** The time the fills of a run cover. */
  function Covered(steps: seq<SupplyStep>): int {
    if steps == [] then 0 else (if steps[0].Fill? then steps[0].useconds else 0) + Covered(steps[1..])
  }

  lemma FractionAdds(a: int, b: int)
    ensures Fraction(a + b) == Fraction(a) + Fraction(b)
  {
  }

  lemma WholeYear(useconds: int)
    requires 0 <= useconds <= USECONDS_PER_YEAR
    ensures 0.0 <= Fraction(useconds) <= CONTINUOUS_RATE
  {
    FractionNonneg(useconds);
    assert CONTINUOUS_RATE * useconds as real <= CONTINUOUS_RATE * USECONDS_PER_YEAR as real;
  }

  lemma {:induction false} CoveredNonneg(supply: int, steps: seq<SupplyStep>)
    requires RunOk(supply, steps)
    ensures Covered(steps) >= 0
    decreases |steps|
  {
    if steps != [] {
      CoveredNonneg(SupplyAfter(supply, steps[0]), steps[1..]);
    }
  }

  lemma ScaledLe(s: real, a: real, b: real)
    requires s >= 0.0 && a <= b
    ensures s * a <= s * b
  {
  }

  /** A cap on the supply as a function of the fraction of the rate used up. */
  predicate CompoundsAt(cap: real -> real, x: real, h: real) {
    cap(x) * (1.0 + h) <= cap(x + h)
  }

  ghost predicate Compounds(cap: real -> real) {
    forall x, h {:trigger CompoundsAt(cap, x, h)} ::
      0.0 <= x && 0.0 <= h && x + h <= CONTINUOUS_RATE ==> CompoundsAt(cap, x, h)
  }

  lemma OneFill(supply: real, added: real, h: real, cap: real, next: real)
    requires h >= 0.0 && supply <= cap && added <= h * supply && cap * (1.0 + h) <= next
    ensures supply + added <= next
  {
    MulLeReal(supply, cap, 1.0 + h);
    assert supply * (1.0 + h) == supply + h * supply;
  }

  /** One step: if the supply is under the cap for the time covered so far, it is under the next one. */
  lemma StepUnderCap(cap: real -> real, supply: int, s: SupplyStep, before: int)
    requires Compounds(cap) && supply >= 0 && StepOk(s) && before >= 0
    requires supply as real <= cap(Fraction(before))
    requires before + (if s.Fill? then s.useconds else 0) <= USECONDS_PER_YEAR
    ensures SupplyAfter(supply, s) as real <= cap(Fraction(before + if s.Fill? then s.useconds else 0))
  {
    if s.Fill? {
      var x, h := Fraction(before), Fraction(s.useconds);
      FractionAdds(before, s.useconds);
      WholeYear(before + s.useconds);
      FractionNonneg(before);
      FractionNonneg(s.useconds);
      DistributionBound(supply, s.useconds);
      assert CompoundsAt(cap, x, h);
      OneFill(supply as real, Distribution(supply, s.useconds) as real, h, cap(x), cap(x + h));
    }
  }

  lemma {:induction false} RunUnderCap(cap: real -> real, supply: int, steps: seq<SupplyStep>, before: int)
    requires Compounds(cap) && before >= 0 && RunOk(supply, steps)
    requires supply as real <= cap(Fraction(before))
    requires before + Covered(steps) <= USECONDS_PER_YEAR
    ensures RunSupply(supply, steps) as real <= cap(Fraction(before + Covered(steps)))
    decreases |steps|
  {
    if steps != [] {
      CoveredNonneg(SupplyAfter(supply, steps[0]), steps[1..]);
      StepUnderCap(cap, supply, steps[0], before);
      RunUnderCap(cap, SupplyAfter(supply, steps[0]), steps[1..],
                  before + if steps[0].Fill? then steps[0].useconds else 0);
    }
  }

  lemma ScaleStep(start: real, c: real, h: real, next: real, scaled: real, scaledNext: real)
    requires start >= 0.0 && c * (1.0 + h) <= next && scaled == start * c && scaledNext == start * next
    ensures scaled * (1.0 + h) <= scaledNext
  {
    ScaledLe(start, c * (1.0 + h), next);
    assert (start * c) * (1.0 + h) == start * (c * (1.0 + h));
  }

  /** A cap may be scaled by the supply the year starts with. */
  lemma ScaleCompounds(start: real, f: real -> real, cap: real -> real)
    requires start >= 0.0 && Compounds(f) && forall y {:trigger cap(y)} :: cap(y) == start * f(y)
    ensures Compounds(cap)
  {
    forall x, h | 0.0 <= x && 0.0 <= h && x + h <= CONTINUOUS_RATE
      ensures CompoundsAt(cap, x, h)
    {
      assert CompoundsAt(f, x, h);
      ScaleStep(start, f(x), h, f(x + h), cap(x), cap(x + h));
    }
  }

  lemma BoundWithinYear(x: real)
    requires 0.0 <= x <= CONTINUOUS_RATE
    ensures Bound(x) <= 1.05
  {
    BoundMonotone(x, CONTINUOUS_RATE);
    assert Bound(CONTINUOUS_RATE) <= 1.05;
  }

  lemma BoundCompounds()
    ensures Compounds(Bound)
  {
    forall x, h | 0.0 <= x && 0.0 <= h && x + h <= CONTINUOUS_RATE
      ensures CompoundsAt(Bound, x, h)
    {
      BoundStep(x, h);
    }
  }

  /** A run starts under any cap that starts at one, and ends under it. */
  lemma RunFromStart(f: real -> real, supply: int, steps: seq<SupplyStep>)
    requires Compounds(f) && f(0.0) == 1.0
    requires RunOk(supply, steps) && Covered(steps) <= USECONDS_PER_YEAR
    ensures RunSupply(supply, steps) as real <= supply as real * f(Fraction(Covered(steps)))
  {
    var start := supply as real;
    var cap := (x: real) => start * f(x);
    ScaleCompounds(start, f, cap);
    CoveredNonneg(supply, steps);
    StartsAt(f, cap, start);
    RunUnderCap(cap, supply, steps, 0);
  }

  lemma StartsAt(f: real -> real, cap: real -> real, start: real)
    requires f(0.0) == 1.0 && cap(0.0) == start * f(0.0)
    ensures cap(Fraction(0)) == start
  {
    assert Fraction(0) == 0.0;
  }

  /** A cap that compounds from one to 1.05 over a year's worth of the rate caps every run. */
  ghost predicate YearCap(f: real -> real) {
    Compounds(f) && f(0.0) == 1.0 && forall x {:trigger f(x)} :: 0.0 <= x <= CONTINUOUS_RATE ==> f(x) <= 1.05
  }

  lemma CappedRun(f: real -> real, supply: int, steps: seq<SupplyStep>)
    requires YearCap(f) && RunOk(supply, steps) && Covered(steps) <= USECONDS_PER_YEAR
    ensures RunSupply(supply, steps) as real <= 1.05 * supply as real
  {
    RunFromStart(f, supply, steps);
    CoveredNonneg(supply, steps);
    WholeYear(Covered(steps));
    AtMostFivePercent(RunSupply(supply, steps) as real, supply as real, f(Fraction(Covered(steps))));
  }

  lemma AtMostFivePercent(after: real, before: real, factor: real)
    requires before >= 0.0 && factor <= 1.05 && after <= before * factor
    ensures after <= 1.05 * before
  {
    ScaledLe(before, factor, 1.05);
  }

  lemma BoundIsYearCap()
    ensures YearCap(Bound)
  {
    BoundCompounds();
    forall x | 0.0 <= x <= CONTINUOUS_RATE
      ensures Bound(x) <= 1.05
    {
      BoundWithinYear(x);
    }
  }

  /** However finely a year is split into fills, the supply grows by at most five percent. */
  lemma FivePercentCap(supply: int, steps: seq<SupplyStep>)
    requires RunOk(supply, steps) && Covered(steps) <= USECONDS_PER_YEAR
    ensures RunSupply(supply, steps) as real <= 1.05 * supply as real
  {
    BoundIsYearCap();
    CappedRun(Bound, supply, steps);
  }

  /** The supply is under a cap, as long as no more than a year is covered. */
  predicate UnderCap(cap: real -> real, supply: int, covered: int) {
    supply >= 0 && covered >= 0 && (covered <= USECONDS_PER_YEAR ==> supply as real <= cap(Fraction(covered)))
  }

  /** What an action may do to the supply and to the time of the last fill, zero before the first. */
  predicate GrowsByFills(supply: int, lastFill: int, supplyNow: int, lastFillNow: int) {
    || ((supplyNow == supply || 0 <= supplyNow <= supply) && (lastFillNow == lastFill || lastFill == 0))
    || (0 < lastFill < lastFillNow && 0 <= supplyNow <= supply + Distribution(supply, lastFillNow - lastFill))
  }

  lemma FillUnderCap(cap: real -> real, supply: int, covered: int, supplyNow: int, useconds: int)
    requires Compounds(cap) && UnderCap(cap, supply, covered) && useconds >= 0
    requires 0 <= supplyNow <= supply + Distribution(supply, useconds)
    ensures UnderCap(cap, supplyNow, covered + useconds)
  {
    if covered + useconds <= USECONDS_PER_YEAR {
      StepUnderCap(cap, supply, Fill(useconds, supply + Distribution(supply, useconds) - supplyNow), covered);
    }
  }

  lemma StaysUnderCap(cap: real -> real, supply: int, lastFill: int, supplyNow: int, lastFillNow: int, first: int)
    requires Compounds(cap) && lastFill > 0 && UnderCap(cap, supply, lastFill - first)
    requires GrowsByFills(supply, lastFill, supplyNow, lastFillNow)
    ensures UnderCap(cap, supplyNow, lastFillNow - first)
  {
    if lastFillNow != lastFill {
      FillUnderCap(cap, supply, lastFill - first, supplyNow, lastFillNow - lastFill);
    }
  }

  /** Every start of a year has a cap that compounds from it to five percent more. */
  lemma YearlyCap(start: int) returns (cap: real -> real)
    requires start >= 0
    ensures Compounds(cap) && UnderCap(cap, start, 0)
    ensures forall supply, covered :: UnderCap(cap, supply, covered) && covered <= USECONDS_PER_YEAR
              ==> supply as real <= 1.05 * start as real
  {
    BoundIsYearCap();
    cap := CapFrom(start, Bound);
  }

  lemma CapFrom(start: int, f: real -> real) returns (cap: real -> real)
    requires YearCap(f) && start >= 0
    ensures Compounds(cap) && UnderCap(cap, start, 0)
    ensures forall supply, covered :: UnderCap(cap, supply, covered) && covered <= USECONDS_PER_YEAR
              ==> supply as real <= 1.05 * start as real
  {
    var base := start as real;
    cap := (x: real) => base * f(x);
    ScaleCompounds(base, f, cap);
    assert Fraction(0) == 0.0;
    assert cap(0.0) == base;
    forall supply, covered | UnderCap(cap, supply, covered) && covered <= USECONDS_PER_YEAR
      ensures supply as real <= 1.05 * start as real
    {
      WholeYear(covered);
      AtMostFivePercent(supply as real, base, f(Fraction(covered)));
    }
  }
}

/** The reward buckets and the accounts that hold them (producer_pay.cpp:75-188, voting.cpp:368-405). */
module RewardPools {
  import opened Names
  import opened Arith
  import opened Inflation
  import opened TokenLedger

  /** One fifth to producers, two fifths to voters, and the rest to savings. */
  function ProducersPart(distributed: int): int {
    distributed / 5
  }

  function VotersPart(distributed: int): int {
    2 * (distributed / 5)
  }

  function SavingsPart(distributed: int): int {
    distributed - (VotersPart(distributed) + ProducersPart(distributed))
  }

  function Min(a: int, b: int): int {
    if a < b then a else b
  }

  /** What a fill does to each account: the fees are used up or burned, the three parts are paid out. */
  function FillChange(a: Name, distributed: int, fees: int): int {
    if a == SAVING_ACCOUNT then SavingsPart(distributed)
    else if a == VOTERS_ACCOUNT then VotersPart(distributed)
    else if a == BPAY_ACCOUNT then ProducersPart(distributed)
    else if a == FEES_ACCOUNT then -fees
    else 0
  }

  predicate IsFilled(a: Name) {
    a == SAVING_ACCOUNT || a == VOTERS_ACCOUNT || a == BPAY_ACCOUNT || a == FEES_ACCOUNT
  }

  /** A share of a bucket, rounded down. */
  function BlockPay(bucket: int, unpaid: nat, total: int): int {
    if total > 0 then Trunc((bucket * unpaid) as real / total as real) else 0
  }

  lemma BlockPayBound(bucket: int, unpaid: nat, total: int)
    requires bucket >= 0 && unpaid <= total
    ensures 0 <= BlockPay(bucket, unpaid, total) <= bucket
    ensures total > 0 ==> var pay := BlockPay(bucket, unpaid, total);
                          pay * total <= bucket * unpaid < (pay + 1) * total
  {
    if total > 0 {
      assert bucket * unpaid >= 0;
      TruncQuotient(bucket * unpaid, total);
      assert bucket * unpaid <= bucket * total;
      CancelLe(BlockPay(bucket, unpaid, total), bucket, total);
    }
  }

  /** A voter's reward: its share of the bucket, rounded down and capped. */
  function VoterReward(bucket: int, share: real, total: real): int
    requires total > 0.0
  {
    var reward := Trunc(bucket as real * (share / total));
    if reward > bucket then bucket else reward
  }

  /** A voter is owed nothing if its share of the bucket is no whole unit, all of it if its share is all, or else its part. */
  predicate IsShare(reward: int, bucket: int, share: real, total: real) {
    if bucket as real * share < total then reward <= 0
    else if share >= total then reward == bucket
    else reward as real * total <= bucket as real * share < (reward + 1) as real * total
  }

  /** It is said of any bucket that is this one, so that a proof looks into the products only where it speaks of them. */
  ghost predicate GetsShare(reward: int, bucket: int, share: real, total: real) {
    forall b :: b == bucket ==> IsShare(reward, b, share, total)
  }

  /** A voter's reward is that share, rounded down. */
  lemma RewardIsShare(bucket: int, share: real, total: real)
    requires total > 0.0 && bucket >= 0
    ensures GetsShare(VoterReward(bucket, share, total), bucket, share, total)
  {
    var exact := bucket as real * (share / total);
    ExactShare(bucket as real, share, total);
    TruncatesToShare(exact, bucket, share, total, bucket as real * share);
  }

  lemma TruncatesToShare(exact: real, bucket: int, share: real, total: real, scaled: real)
    requires total > 0.0 && bucket >= 0 && scaled == bucket as real * share && exact * total == scaled
    ensures var reward := if Trunc(exact) > bucket then bucket else Trunc(exact);
            if scaled < total then reward <= 0
            else if share >= total then reward == bucket
            else reward as real * total <= scaled < (reward + 1) as real * total
  {
    if exact < 1.0 {
      MulLtReal(exact, 1.0, total);
    } else {
      MulLeReal(1.0, exact, total);
      if share >= total {
        AllOfBucket(exact, bucket as real, share, total);
        TruncAgainst(exact, bucket);
      } else {
        PartOfBucket(exact, bucket as real, share, total);
        TruncAgainst(exact, bucket);
        ScaledBetween(Trunc(exact) as real, exact, (Trunc(exact) + 1) as real, scaled, total);
      }
    }
  }

  lemma AllOfBucket(exact: real, bucket: real, share: real, total: real)
    requires total > 0.0 && bucket >= 0.0 && exact * total == bucket * share && share >= total
    ensures exact >= bucket
  {
    MulLeReal(total, share, bucket);
    if exact < bucket {
      MulLtReal(exact, bucket, total);
    }
  }

  lemma PartOfBucket(exact: real, bucket: real, share: real, total: real)
    requires total > 0.0 && bucket >= 0.0 && exact * total == bucket * share && share < total
    ensures exact <= bucket
  {
    MulLeReal(share, total, bucket);
    if exact > bucket {
      MulLtReal(bucket, exact, total);
    }
  }

  lemma TruncAgainst(x: real, n: int)
    requires x >= 0.0 && n >= 0
    ensures x >= n as real ==> Trunc(x) >= n
    ensures x <= n as real ==> Trunc(x) <= n
    ensures Trunc(x) as real <= x < (Trunc(x) + 1) as real
  {
    TruncBounds(x);
  }

  lemma ScaledBetween(low: real, exact: real, high: real, scaled: real, total: real)
    requires total > 0.0 && exact * total == scaled && low <= exact < high
    ensures low * total <= scaled < high * total
  {
    MulLeReal(low, exact, total);
    MulLtReal(exact, high, total);
  }

  /** Paying one voter never lowers the bucket per unpaid share for the others: B' * T >= B * T'. */
  lemma ClaimIsFair(bucket: int, share: real, total: real)
    requires total > 0.0 && bucket >= 0 && VoterReward(bucket, share, total) > 0
    ensures var reward := VoterReward(bucket, share, total);
            && 0 <= bucket - reward
            && (bucket - reward) as real * total >= bucket as real * (total - share)
  {
    var exact := bucket as real * (share / total);
    var reward := VoterReward(bucket, share, total);
    assert exact >= 1.0;
    ExactShare(bucket as real, share, total);
    assert reward as real <= exact;
    FairStep(bucket as real, reward as real, exact, share, total);
  }

  lemma ExactShare(b: real, s: real, t: real)
    requires t > 0.0
    ensures (b * (s / t)) * t == b * s
  {
    assert (s / t) * t == s;
  }

  lemma FairStep(b: real, r: real, exact: real, s: real, t: real)
    requires t > 0.0 && r <= exact && exact * t == b * s
    ensures (b - r) * t >= b * (t - s)
  {
    MulLeReal(r, exact, t);
    assert (b - r) * t == b * t - r * t;
    assert b * (t - s) == b * t - b * s;
  }

  /** One account has paid another an amount. */
  ghost predicate Paid(b: Balances, c: Balances, src: Name, dst: Name, amount: int) {
    forall a: Name :: BalanceOf(c, a) == BalanceOf(b, a) + (if a == dst then amount else 0) - (if a == src then amount else 0)
  }

  class RewardPool {
    const token: Token
    var lastFill: int
    var perblockBucket: int
    var votersBucket: int

    /** The buckets are covered by the accounts that pay them out. */
    ghost predicate Valid()
      reads this, token
    {
      && token.Valid()
      && 0 <= perblockBucket <= BalanceOf(token.balances, BPAY_ACCOUNT)
      && 0 <= votersBucket <= BalanceOf(token.balances, VOTERS_ACCOUNT)
    }

    constructor (token: Token)
      requires token.Valid()
      ensures Valid() && this.token == token && lastFill == 0 && perblockBucket == 0 && votersBucket == 0
    {
      this.token := token;
      lastFill, perblockBucket, votersBucket := 0, 0, 0;
      BalanceAtMostSupply(token.balances, token.supply, BPAY_ACCOUNT);
      BalanceAtMostSupply(token.balances, token.supply, VOTERS_ACCOUNT);
    }

    function Due(now: int): (useconds: int)
      reads this
      ensures useconds >= 0
    {
      if now > lastFill && lastFill > 0 then now - lastFill else 0
    }

    /** What a fill would hand out now. */
    function Distributed(now: int): int
      reads this, token
    {
      Distribution(token.supply, Due(now))
    }

    /** A fill goes through: nothing is due, or every transfer and the issue are accepted. */
    predicate CanFill(now: int)
      reads this, token
    {
      Due(now) > 0 ==>
        && FEES_ACCOUNT in token.balances && Distributed(now) >= 5
        && Distributed(now) - Min(Distributed(now), BalanceOf(token.balances, FEES_ACCOUNT)) <= token.maxSupply - token.supply
    }

    /** The buckets after a fill. */
    function FilledPerblock(now: int): int
      reads this, token
    {
      perblockBucket + if Due(now) > 0 then ProducersPart(Distributed(now)) else 0
    }

    function FilledVoters(now: int): int
      reads this, token
    {
      votersBucket + if Due(now) > 0 then VotersPart(Distributed(now)) else 0
    }

    lemma FilledVotersNonneg(now: int)
      requires Valid()
      ensures FilledVoters(now) >= 0
    {
      BalanceAtMostSupply(token.balances, token.supply, VOTERS_ACCOUNT);
      DistributionBound(token.supply, Due(now));
    }

    /** And the clock, the supply and every account. */
    function FilledTime(now: int): int
      reads this
    {
      if Due(now) > 0 then now else lastFill
    }

    function FilledSupply(now: int): int
      reads this, token
    {
      token.supply + if Due(now) > 0 then Distributed(now) - BalanceOf(token.balances, FEES_ACCOUNT) else 0
    }

    function FilledBalance(now: int, a: Name): int
      reads this, token
    {
      BalanceOf(token.balances, a)
      + if Due(now) > 0 then FillChange(a, Distributed(now), BalanceOf(token.balances, FEES_ACCOUNT)) else 0
    }

    /** A fill, and then one payment out of an account that holds a bucket. */
    twostate predicate FilledAndPaid(now: int, bucketAccount: Name, owner: Name, amount: int)
      reads this, token
    {
      && lastFill == old(FilledTime(now)) && token.supply == old(FilledSupply(now))
      && forall a: Name :: BalanceOf(token.balances, a)
           == old(FilledBalance(now, a)) + (if a == owner then amount else 0) - (if a == bucketAccount then amount else 0)
    }

    /** The supply has grown by no more than a fill gives. */
    twostate predicate GrewByFill()
      reads this, token
    {
      GrowsByFills(old(token.supply), old(lastFill), token.supply, lastFill)
    }

    /** Besides the accounts of fills, only one has changed. */
    twostate predicate OnlyPaid(owner: Name)
      reads token
    {
      forall a: Name :: a != owner && !IsFilled(a) ==> BalanceOf(token.balances, a) == BalanceOf(old(token.balances), a)
    }

    /**
     * What a fill of the amount distributed does, in plain amounts: one fifth to producers, rounded down, twice that
     * to voters, the rest to savings, and the fees are used up or burned.
     */
    twostate predicate HandedOut(distributed: int, now: int)
      reads this, token
    {
      var part := perblockBucket - old(perblockBucket);
      var saved := distributed - 3 * part;
      && 5 * part <= distributed < 5 * part + 5
      && 2 * distributed <= 5 * saved < 2 * distributed + 15
      && votersBucket == old(votersBucket) + 2 * part && lastFill == now
      && BalanceOf(token.balances, BPAY_ACCOUNT) == BalanceOf(old(token.balances), BPAY_ACCOUNT) + part
      && BalanceOf(token.balances, VOTERS_ACCOUNT) == BalanceOf(old(token.balances), VOTERS_ACCOUNT) + 2 * part
      && BalanceOf(token.balances, SAVING_ACCOUNT) == BalanceOf(old(token.balances), SAVING_ACCOUNT) + saved
      && BalanceOf(token.balances, FEES_ACCOUNT) == 0
      && token.supply == old(token.supply) + distributed - BalanceOf(old(token.balances), FEES_ACCOUNT)
    }

    /** Nothing was due. */
    twostate predicate NothingHandedOut()
      reads this, token
    {
      && perblockBucket == old(perblockBucket) && votersBucket == old(votersBucket) && lastFill == old(lastFill)
      && token.supply == old(token.supply) && token.balances == old(token.balances)
    }

    /** Starting the presses, at the first block after activation. */
    method StartFilling(now: int)
      modifies `lastFill
      ensures lastFill == if old(lastFill) == 0 then now else old(lastFill)
    {
      if lastFill == 0 {
        lastFill := now;
      }
    }

    /**
     * fill_buckets.  It aborts when eosio.fees has no balance row, when a part to be transferred would be
     * zero, or when the new tokens exceed the maximum supply.  The supply moves by exactly what is
     * distributed less the fees held.
     */
    method FillBuckets(now: int) returns (ok: bool)
      requires Valid()
      modifies this, token
      ensures ok <==> old(CanFill(now))
      ensures ok ==> && perblockBucket == old(FilledPerblock(now)) && votersBucket == old(FilledVoters(now))
                     && lastFill == old(FilledTime(now)) && token.supply == old(FilledSupply(now))
      ensures ok ==> forall a: Name :: BalanceOf(token.balances, a) == old(FilledBalance(now, a))
      ensures if 0 < old(lastFill) < now
              then var due := old(Distributed(now));
                   && IsAccrued(due, old(token.supply), now - old(lastFill))
                   && (ok <==> && FEES_ACCOUNT in old(token.balances) && due >= 5
                               && due - old(token.balances)[FEES_ACCOUNT] <= token.maxSupply - old(token.supply))
                   && (ok ==> HandedOut(due, now))
              else ok && NothingHandedOut()
      ensures ok ==> OnlyPaid(FEES_ACCOUNT) && GrewByFill()
      ensures old(Due(now)) == 0 ==> unchanged(token)
      ensures ok ==> Valid()
      ensures token.Valid()
    {
      var supply := token.supply;
      if now - lastFill <= 0 || lastFill <= 0 {
        return true;
      }
      var distributed := Distribution(supply, now - lastFill);
      BalanceAtMostSupply(token.balances, supply, FEES_ACCOUNT);
      DistributionIsAccrued(supply, now - lastFill);
      DistributionBound(supply, now - lastFill);
      if FEES_ACCOUNT !in token.balances {
        return false;
      }
      ok := HandOut(distributed, token.balances[FEES_ACCOUNT], now);
    }

    /** The transfers of a fill, and the buckets. */
    method HandOut(distributed: int, fees: int, now: int) returns (ok: bool)
      requires Valid() && distributed >= 0 && fees == BalanceOf(token.balances, FEES_ACCOUNT)
      modifies this, token
      ensures ok <==> distributed >= 5 && distributed - fees <= token.maxSupply - old(token.supply)
      ensures ok ==> Valid()
      ensures ok ==> && perblockBucket == old(perblockBucket) + ProducersPart(distributed)
                     && votersBucket == old(votersBucket) + VotersPart(distributed)
                     && lastFill == now && token.supply == old(token.supply) + distributed - fees
      ensures ok ==> forall a: Name :: BalanceOf(token.balances, a)
                       == BalanceOf(old(token.balances), a) + FillChange(a, distributed, fees)
      ensures token.Valid()
    {
      BalanceAtMostSupply(token.balances, token.supply, FEES_ACCOUNT);
      var used := Min(distributed, fees);
      ok := Collect(distributed, used);
      if ok {
        ok := PayParts(distributed);
      }
      if ok {
        perblockBucket := perblockBucket + ProducersPart(distributed);
        votersBucket := votersBucket + VotersPart(distributed);
        lastFill := now;
        BurnFees(fees - used);
      }
    }

    /** New tokens, and the fees that save issuing them, arrive at the system account. */
    method Collect(distributed: int, used: int) returns (ok: bool)
      requires token.Valid() && 0 <= used <= distributed && used <= BalanceOf(token.balances, FEES_ACCOUNT)
      modifies token
      ensures token.Valid()
      ensures ok <==> distributed - used <= token.maxSupply - old(token.supply)
      ensures ok ==> && token.supply == old(token.supply) + distributed - used
                     && forall a: Name :: BalanceOf(token.balances, a) == BalanceOf(old(token.balances), a)
                          + (if a == SYSTEM_ACCOUNT then distributed else 0) - (if a == FEES_ACCOUNT then used else 0)
    {
      ok := true;
      if distributed - used > 0 {
        ok := token.Issue(distributed - used);
      }
      if ok && used > 0 {
        ok := token.Transfer(FEES_ACCOUNT, SYSTEM_ACCOUNT, used);
      }
    }

    method PayParts(distributed: int) returns (ok: bool)
      requires token.Valid() && 0 <= distributed <= BalanceOf(token.balances, SYSTEM_ACCOUNT)
      modifies token
      ensures token.Valid() && token.supply == old(token.supply)
      ensures ok <==> distributed >= 5
      ensures ok ==> forall a: Name :: BalanceOf(token.balances, a) == BalanceOf(old(token.balances), a)
                       + (if a == SYSTEM_ACCOUNT then -distributed else if a == FEES_ACCOUNT then 0
                          else FillChange(a, distributed, 0))
    {
      ok := token.Transfer(SYSTEM_ACCOUNT, SAVING_ACCOUNT, SavingsPart(distributed));
      if ok {
        ok := token.Transfer(SYSTEM_ACCOUNT, VOTERS_ACCOUNT, VotersPart(distributed));
      }
      if ok {
        ok := token.Transfer(SYSTEM_ACCOUNT, BPAY_ACCOUNT, ProducersPart(distributed));
      }
    }

    /** Fees that were not needed are burned. */
    method BurnFees(fees: int)
      requires token.Valid() && 0 <= fees <= BalanceOf(token.balances, FEES_ACCOUNT)
      modifies token
      ensures token.Valid() && token.supply == old(token.supply) - fees
      ensures forall a: Name :: BalanceOf(token.balances, a) == BalanceOf(old(token.balances), a)
                - if a == FEES_ACCOUNT then fees else 0
    {
      if fees > 0 {
        BalanceAtMostSupply(token.balances, token.supply, SYSTEM_ACCOUNT);
        var moved := token.Transfer(FEES_ACCOUNT, SYSTEM_ACCOUNT, fees);
        assert moved;
        var retired := token.Retire(fees);
        assert retired;
      }
    }

    /** The producer's share of the bucket, and its payment. */
    method PayProducer(owner: Name, unpaid: nat, total: int) returns (ok: bool, pay: int)
      requires Valid() && unpaid <= total
      modifies `perblockBucket, token
      ensures Valid() && token.supply == old(token.supply)
      ensures OnlyPaid(owner) && (ok ==> Paid(old(token.balances), token.balances, BPAY_ACCOUNT, owner, pay))
      ensures pay == BlockPay(old(perblockBucket), unpaid, total)
      ensures ok <==> pay == 0 || owner != BPAY_ACCOUNT
      ensures ok ==> && perblockBucket == old(perblockBucket) - pay
                     && token.balances == if pay == 0 then old(token.balances)
                                          else Moved(old(token.balances), BPAY_ACCOUNT, owner, pay)
      ensures !ok ==> unchanged(`perblockBucket) && token.balances == old(token.balances)
    {
      pay := BlockPay(perblockBucket, unpaid, total);
      BlockPayBound(perblockBucket, unpaid, total);
      ok := true;
      if pay > 0 {
        ok := token.Transfer(BPAY_ACCOUNT, owner, pay);
      }
      if ok {
        perblockBucket := perblockBucket - pay;
      }
    }

    /** The voter's share of the bucket, and its payment. */
    method PayVoter(owner: Name, share: real, total: real) returns (ok: bool, reward: int)
      requires Valid() && total > 0.0
      modifies `votersBucket, token
      ensures Valid() && token.supply == old(token.supply)
      ensures OnlyPaid(owner) && (ok ==> Paid(old(token.balances), token.balances, VOTERS_ACCOUNT, owner, reward))
      ensures reward == VoterReward(old(votersBucket), share, total)
      ensures ok <==> reward > 0 && owner != VOTERS_ACCOUNT
      ensures GetsShare(reward, old(votersBucket), share, total)
      ensures ok ==> && votersBucket == old(votersBucket) - reward
                     && token.balances == Moved(old(token.balances), VOTERS_ACCOUNT, owner, reward)
      ensures !ok ==> unchanged(`votersBucket) && token.balances == old(token.balances)
    {
      reward := VoterReward(votersBucket, share, total);
      RewardIsShare(votersBucket, share, total);
      ok := reward > 0;
      if ok {
        ok := token.Transfer(VOTERS_ACCOUNT, owner, reward);
        if ok {
          votersBucket := votersBucket - reward;
        }
      }
    }
  }
}
