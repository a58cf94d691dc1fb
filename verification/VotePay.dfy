/**
 * The vote-pay shares of producers, and the one accumulator that stands for all of them
 * (contracts/eosio.system/src/voting.cpp, update_total_votepay_share and its callers).
 */
module VotePay {
  import opened Names
  import opened VoteTables
  import RealSums

  const USECONDS_PER_DAY: int := 86_400_000_000

  const THREE_DAYS: int := 3 * USECONDS_PER_DAY

  function Seconds(useconds: int): real {
    useconds as real / 1000000.0
  }

  /** The producer has not been touched since its pay lapsed, three days after its last claim. */
  predicate Accruing(p: Producer, row: Producer2) {
    row.lastVotepayShareUpdate < p.lastClaimTime + THREE_DAYS
  }

  function Slope(p: Producer, row: Producer2): real {
    if Accruing(p, row) then p.totalVotes else 0.0
  }

  /** A producer's share extrapolated to a time. */
  function Share(p: Producer, row: Producer2, t: int): real {
    row.votepayShare + Slope(p, row) * Seconds(t - row.lastVotepayShareUpdate)
  }

  function SlopeOf(ps: Producers, rows: Producers2, q: Name): real {
    if q in ps && q in rows then Slope(ps[q], rows[q]) else 0.0
  }

  function ShareAt(ps: Producers, rows: Producers2, q: Name, t: int): real {
    if q in ps && q in rows then Share(ps[q], rows[q], t) else 0.0
  }

  ghost function SlopeSum(ps: Producers, rows: Producers2): real {
    RealSums.Total((q: Name) => SlopeOf(ps, rows, q))
  }

  ghost function ShareSum(ps: Producers, rows: Producers2, t: int): real {
    RealSums.Total((q: Name) => ShareAt(ps, rows, q, t))
  }

  /** Every row is from the past and owes nothing negative; a lapsed producer is owed nothing. */
  ghost predicate RowsSettled(ps: Producers, rows: Producers2, now: int) {
    && rows.Keys <= ps.Keys
    && (forall q :: q in ps ==> ps[q].totalVotes >= 0.0)
    && (forall q :: q in rows ==> RowSettled(ps[q], rows[q], now))
  }

  predicate RowSettled(p: Producer, row: Producer2, now: int) {
    && row.lastVotepayShareUpdate <= now
    && row.votepayShare >= 0.0
    && (!Accruing(p, row) ==> row.votepayShare == 0.0)
  }

  /** The accumulator: its rate is the votes of the accruing producers, its value their shares. */
  ghost predicate Accumulates(ps: Producers, rows: Producers2, rate: real, total: real, updated: int) {
    rate == SlopeSum(ps, rows) && total == ShareSum(ps, rows, updated)
  }

  lemma ShareIsLinear(p: Producer, row: Producer2, t0: int, t: int)
    ensures Share(p, row, t) == Share(p, row, t0) + Seconds(t - t0) * Slope(p, row)
  {
    var s, u := Slope(p, row), row.lastVotepayShareUpdate;
    assert Seconds(t - u) == Seconds(t0 - u) + Seconds(t - t0);
    assert s * Seconds(t - u) == s * Seconds(t0 - u) + Seconds(t - t0) * s;
  }

  /** Every second adds a producer's votes to its share, until three days after its last claim have brought it to a stop. */
  lemma ShareGrowsBySecond(p: Producer, row: Producer2, t: int)
    ensures Share(p, row, row.lastVotepayShareUpdate) == row.votepayShare
    ensures Share(p, row, t + 1_000_000)
            == Share(p, row, t) + if row.lastVotepayShareUpdate - p.lastClaimTime < 259_200_000_000 then p.totalVotes else 0.0
  {
    ShareIsLinear(p, row, t, t + 1_000_000);
    ShareIsLinear(p, row, row.lastVotepayShareUpdate, row.lastVotepayShareUpdate);
  }

  lemma ShareNonneg(p: Producer, row: Producer2, now: int)
    requires RowSettled(p, row, now) && p.totalVotes >= 0.0
    ensures Slope(p, row) >= 0.0 && Share(p, row, now) >= row.votepayShare
  {
    assert Seconds(now - row.lastVotepayShareUpdate) >= 0.0;
    assert Slope(p, row) * Seconds(now - row.lastVotepayShareUpdate) >= 0.0;
  }

  /** The lazy accumulator, extrapolated to any time, is the sum of all extrapolated shares. */
  lemma ExtrapolatedTotal(ps: Producers, rows: Producers2, rate: real, total: real, updated: int, t: int)
    requires Accumulates(ps, rows, rate, total, updated)
    ensures total + rate * Seconds(t - updated) == ShareSum(ps, rows, t)
  {
    var dt := Seconds(t - updated);
    forall q: Name
      ensures ShareAt(ps, rows, q, t) == ShareAt(ps, rows, q, updated) + dt * SlopeOf(ps, rows, q)
    {
      if q in ps && q in rows {
        ShareIsLinear(ps[q], rows[q], updated, t);
      }
    }
    RealSums.TotalCombine((q: Name) => ShareAt(ps, rows, q, updated), (q: Name) => SlopeOf(ps, rows, q), dt,
                          (q: Name) => ShareAt(ps, rows, q, t));
  }

  /** So the accumulator and its rate are never negative, and the clamps that guard them are idle. */
  lemma SumsNonneg(ps: Producers, rows: Producers2, now: int)
    requires RowsSettled(ps, rows, now)
    ensures SlopeSum(ps, rows) >= 0.0 && ShareSum(ps, rows, now) >= 0.0
  {
    forall q: Name
      ensures SlopeOf(ps, rows, q) >= 0.0 && ShareAt(ps, rows, q, now) >= 0.0
    {
      if q in ps && q in rows {
        ShareNonneg(ps[q], rows[q], now);
      }
    }
    RealSums.TotalNonneg((q: Name) => SlopeOf(ps, rows, q));
    RealSums.TotalNonneg((q: Name) => ShareAt(ps, rows, q, now));
  }

  /** The share update_producer_votepay_share arrives at. */
  function GrownShare(row: Producer2, rate: real, now: int): real {
    row.votepayShare +
    if rate > 0.0 && now > row.lastVotepayShareUpdate
    then rate * Seconds(now - row.lastVotepayShareUpdate) else 0.0
  }

  predicate Lapsed(p: Producer, now: int) {
    p.lastClaimTime + THREE_DAYS <= now
  }

  /** What touching a producer's votes does to its vote-pay row. */
  function SettledShare(p: Producer, row: Producer2, now: int): real {
    GrownShare(row, if Accruing(p, row) then p.totalVotes else 0.0, now)
  }

  function TouchedRow(p: Producer, row: Producer2, now: int): Producer2 {
    Producer2(if Lapsed(p, now) && Accruing(p, row) then 0.0 else SettledShare(p, row, now), now)
  }

  /** What the touch changes in the accumulated rate, when the votes change by delta. */
  function RateDelta(p: Producer, row: Producer2, delta: real, now: int): real {
    if !Lapsed(p, now) then delta else if Accruing(p, row) then -p.totalVotes else 0.0
  }

  /** The share forfeited by a producer whose pay has lapsed. */
  function Forfeit(p: Producer, row: Producer2, now: int): real {
    if Lapsed(p, now) && Accruing(p, row) then SettledShare(p, row, now) else 0.0
  }

  /** Changing one producer's rows moves each sum by what that producer contributes. */
  lemma ReplaceProducer(ps: Producers, rows: Producers2, q: Name, p: Producer, row: Producer2, t: int)
    ensures var ps', rows' := ps[q := p], rows[q := row];
            && SlopeSum(ps', rows') == SlopeSum(ps, rows) + SlopeOf(ps', rows', q) - SlopeOf(ps, rows, q)
            && ShareSum(ps', rows', t) == ShareSum(ps, rows, t)
                                          + ShareAt(ps', rows', q, t) - ShareAt(ps, rows, q, t)
  {
    var ps', rows' := ps[q := p], rows[q := row];
    RealSums.TotalPoint((x: Name) => SlopeOf(ps, rows, x), (x: Name) => SlopeOf(ps', rows', x), q);
    RealSums.TotalPoint((x: Name) => ShareAt(ps, rows, x, t), (x: Name) => ShareAt(ps', rows', x, t), q);
  }

  /** A producer without a vote-pay row contributes nothing, whatever its votes. */
  lemma ReplaceUnpaid(ps: Producers, rows: Producers2, q: Name, p: Producer, t: int)
    requires q !in rows
    ensures SlopeSum(ps[q := p], rows) == SlopeSum(ps, rows)
    ensures ShareSum(ps[q := p], rows, t) == ShareSum(ps, rows, t)
  {
    var ps' := ps[q := p];
    RealSums.TotalEq((x: Name) => SlopeOf(ps, rows, x), (x: Name) => SlopeOf(ps', rows, x));
    RealSums.TotalEq((x: Name) => ShareAt(ps, rows, x, t), (x: Name) => ShareAt(ps', rows, x, t));
  }

  /** A share grown to the present is the extrapolated share. */
  lemma GrownIsExtrapolated(p: Producer, row: Producer2, now: int)
    requires RowSettled(p, row, now) && p.totalVotes >= 0.0
    ensures SettledShare(p, row, now) == Share(p, row, now)
  {
    if now == row.lastVotepayShareUpdate {
      assert Slope(p, row) * Seconds(0) == 0.0;
    }
  }

  /** A row brought up to date extrapolates to its own share. */
  lemma FreshShare(p: Producer, share: real, now: int)
    ensures Share(p, Producer2(share, now), now) == share
  {
    assert Slope(p, Producer2(share, now)) * Seconds(0) == 0.0;
  }

  lemma TouchOne(p: Producer, row: Producer2, delta: real, now: int)
    requires RowSettled(p, row, now) && p.totalVotes >= 0.0 && p.totalVotes + delta >= 0.0
    ensures var p', row' := p.(totalVotes := p.totalVotes + delta), TouchedRow(p, row, now);
            && RowSettled(p', row', now)
            && Slope(p', row') == Slope(p, row) + RateDelta(p, row, delta, now)
            && Share(p', row', now) == Share(p, row, now) - Forfeit(p, row, now)
  {
    var p', row' := p.(totalVotes := p.totalVotes + delta), TouchedRow(p, row, now);
    GrownIsExtrapolated(p, row, now);
    ShareNonneg(p, row, now);
    FreshShare(p', row'.votepayShare, now);
  }

  /** One touch, from the point of view of the two sums at the current time. */
  lemma TouchSums(ps: Producers, rows: Producers2, q: Name, delta: real, now: int)
    requires RowsSettled(ps, rows, now) && q in rows && ps[q].totalVotes + delta >= 0.0
    ensures var ps', rows' := ps[q := ps[q].(totalVotes := ps[q].totalVotes + delta)],
                              rows[q := TouchedRow(ps[q], rows[q], now)];
            && RowsSettled(ps', rows', now)
            && SlopeSum(ps', rows') == SlopeSum(ps, rows) + RateDelta(ps[q], rows[q], delta, now)
            && ShareSum(ps', rows', now) == ShareSum(ps, rows, now) - Forfeit(ps[q], rows[q], now)
  {
    var p, row := ps[q], rows[q];
    TouchOne(p, row, delta, now);
    ReplaceProducer(ps, rows, q, p.(totalVotes := p.totalVotes + delta), TouchedRow(p, row, now), now);
  }

  /** The same for a producer without a vote-pay row. */
  lemma TouchUnpaid(ps: Producers, rows: Producers2, q: Name, delta: real, now: int)
    requires RowsSettled(ps, rows, now) && q in ps && q !in rows && ps[q].totalVotes + delta >= 0.0
    ensures var ps' := ps[q := ps[q].(totalVotes := ps[q].totalVotes + delta)];
            && RowsSettled(ps', rows, now)
            && SlopeSum(ps', rows) == SlopeSum(ps, rows)
            && ShareSum(ps', rows, now) == ShareSum(ps, rows, now)
  {
    ReplaceUnpaid(ps, rows, q, ps[q].(totalVotes := ps[q].totalVotes + delta), now);
  }

  /** The two accumulators after update_total_votepay_share. */
  function NewTotal(rate: real, total: real, updated: int, now: int, extra: real): real {
    var delta := (if now > updated then rate * Seconds(now - updated) else 0.0) + extra;
    if delta < 0.0 && total < -delta then 0.0 else total + delta
  }

  function NewRate(rate: real, delta: real): real {
    if delta < 0.0 && rate < -delta then 0.0 else rate + delta
  }

  /**
   * Applying what the touches collected restores the accumulator; neither clamp acts, because what
   * they would cut off is a sum of nonnegative shares or votes.
   */
  lemma SettleTotal(ps: Producers, rows: Producers2, rate: real, total: real, updated: int,
                    ps': Producers, rows': Producers2, now: int, forfeited: real, rateDelta: real)
    requires Accumulates(ps, rows, rate, total, updated) && updated <= now
    requires RowsSettled(ps', rows', now)
    requires SlopeSum(ps', rows') == SlopeSum(ps, rows) + rateDelta
    requires ShareSum(ps', rows', now) == ShareSum(ps, rows, now) - forfeited
    ensures Accumulates(ps', rows', NewRate(rate, rateDelta), NewTotal(rate, total, updated, now, -forfeited), now)
    ensures NewRate(rate, rateDelta) == rate + rateDelta
    ensures NewTotal(rate, total, updated, now, -forfeited)
            == total + rate * Seconds(now - updated) - forfeited
  {
    ExtrapolatedTotal(ps, rows, rate, total, updated, now);
    SumsNonneg(ps', rows', now);
    IdleClamps(rate, total, updated, now, forfeited, rateDelta);
  }

  /** In any run, idle or not, the clamps cut off at zero. */
  lemma ClampsAtZero(rate: real, total: real, updated: int, now: int, extra: real, delta: real)
    requires rate >= 0.0 && total >= 0.0
    ensures var grown := total + extra + if now > updated then rate * Seconds(now - updated) else 0.0;
            NewTotal(rate, total, updated, now, extra) == if grown < 0.0 then 0.0 else grown
    ensures NewRate(rate, delta) == if rate + delta < 0.0 then 0.0 else rate + delta
  {
  }

  lemma IdleClamps(rate: real, total: real, updated: int, now: int, forfeited: real, rateDelta: real)
    requires updated <= now && rate + rateDelta >= 0.0
    requires total + rate * Seconds(now - updated) - forfeited >= 0.0
    ensures NewRate(rate, rateDelta) == rate + rateDelta
    ensures NewTotal(rate, total, updated, now, -forfeited) == total + rate * Seconds(now - updated) - forfeited
  {
    if now == updated {
      assert rate * Seconds(0) == 0.0;
    }
  }
}
