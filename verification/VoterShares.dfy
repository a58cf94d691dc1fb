/** The unpaid shares of voters, and the accumulator that stands for all of them (voting.cpp:383-432). */
module VoterShares {
  import opened Names
  import opened VoteTables
  import opened VotePay
  import RealSums

  /** A voter's unpaid share extrapolated to a time. */
  function UnpaidAt(v: Voter, t: int): real {
    Extrapolated(v.shares, t)
  }

  function Extrapolated(s: Shares, t: int): real {
    s.unpaid + s.rate * Seconds(t - s.updated)
  }

  ghost function RateSum(vs: Voters): real {
    RealSums.Total((v: Name) => if v in vs then vs[v].shares.rate else 0.0)
  }

  ghost function UnpaidSum(vs: Voters, t: int): real {
    RealSums.Total((v: Name) => if v in vs then UnpaidAt(vs[v], t) else 0.0)
  }

  /** A voter who has never been credited has nothing and earns nothing. */
  predicate Credited(v: Voter, now: int) {
    && 0 <= v.shares.updated <= now
    && (v.shares.updated == 0 ==> v.shares.unpaid == 0.0 && v.shares.rate == 0.0)
  }

  ghost predicate AllCredited(vs: Voters, now: int) {
    forall v :: v in vs ==> Credited(vs[v], now)
  }

  ghost predicate VoterAccumulates(vs: Voters, rate: real, total: real, updated: int) {
    && rate == RateSum(vs)
    && total == UnpaidSum(vs, updated)
    && (updated == 0 ==> rate == 0.0)
  }

  lemma UnpaidIsLinear(v: Voter, t0: int, t: int)
    ensures UnpaidAt(v, t) == UnpaidAt(v, t0) + Seconds(t - t0) * v.shares.rate
  {
    var r, u := v.shares.rate, v.shares.updated;
    assert Seconds(t - u) == Seconds(t0 - u) + Seconds(t - t0);
    assert r * Seconds(t - u) == r * Seconds(t0 - u) + Seconds(t - t0) * r;
  }

  /** Every second adds a voter's rate to what it is owed. */
  lemma UnpaidGrowsBySecond(v: Voter, t: int)
    ensures UnpaidAt(v, v.shares.updated) == v.shares.unpaid
    ensures UnpaidAt(v, t + 1_000_000) == UnpaidAt(v, t) + v.shares.rate
  {
    UnpaidIsLinear(v, t, t + 1_000_000);
    UnpaidIsLinear(v, v.shares.updated, v.shares.updated);
  }

  /** The lazy accumulator refines the fold over all voters, at every time. */
  lemma ExtrapolatedUnpaid(vs: Voters, rate: real, total: real, updated: int, t: int)
    requires VoterAccumulates(vs, rate, total, updated)
    ensures total + rate * Seconds(t - updated) == UnpaidSum(vs, t)
  {
    var dt := Seconds(t - updated);
    forall v: Name | v in vs
      ensures UnpaidAt(vs[v], t) == UnpaidAt(vs[v], updated) + dt * vs[v].shares.rate
    {
      UnpaidIsLinear(vs[v], updated, t);
    }
    RealSums.TotalCombine((v: Name) => if v in vs then UnpaidAt(vs[v], updated) else 0.0,
                          (v: Name) => if v in vs then vs[v].shares.rate else 0.0, dt,
                          (v: Name) => if v in vs then UnpaidAt(vs[v], t) else 0.0);
  }

  lemma ReplaceShares(vs: Voters, v: Name, row: Voter, t: int)
    ensures var ws := vs[v := row];
            && RateSum(ws) == RateSum(vs) + row.shares.rate
                              - (if v in vs then vs[v].shares.rate else 0.0)
            && UnpaidSum(ws, t) == UnpaidSum(vs, t) + UnpaidAt(row, t)
                                   - (if v in vs then UnpaidAt(vs[v], t) else 0.0)
  {
    var ws := vs[v := row];
    RealSums.TotalPoint((u: Name) => if u in vs then vs[u].shares.rate else 0.0,
                        (u: Name) => if u in ws then ws[u].shares.rate else 0.0, v);
    RealSums.TotalPoint((u: Name) => if u in vs then UnpaidAt(vs[u], t) else 0.0,
                        (u: Name) => if u in ws then UnpaidAt(ws[u], t) else 0.0, v);
  }

  ghost predicate SameShares(vs: Voters, ws: Voters) {
    vs.Keys == ws.Keys && forall v :: v in vs ==> ws[v].shares == vs[v].shares
  }

  /** Votes and weights do not enter the accumulator. */
  lemma SharesIgnoreVotes(vs: Voters, ws: Voters, t: int)
    requires SameShares(vs, ws)
    ensures RateSum(ws) == RateSum(vs) && UnpaidSum(ws, t) == UnpaidSum(vs, t)
  {
    RealSums.TotalEq((u: Name) => if u in vs then vs[u].shares.rate else 0.0,
                     (u: Name) => if u in ws then ws[u].shares.rate else 0.0);
    RealSums.TotalEq((u: Name) => if u in vs then UnpaidAt(vs[u], t) else 0.0,
                     (u: Name) => if u in ws then UnpaidAt(ws[u], t) else 0.0);
  }

  /** The rate a voter earns at: the weight it votes with, beyond what others lent it. */
  function EarningRate(v: Voter): real {
    if |v.producers| >= 16 || v.proxy != NO_NAME then v.lastVoteWeight - v.proxiedVoteWeight else 0.0
  }

  /**
   * For a voter that earns, that is the weight of its own stake, except for one that is no longer a proxy but is
   * still used as one: its rate is lower by what it is lent, and may be negative.
   */
  lemma EarnsOnOwnStake(v: Voter, factor: real)
    requires v.lastVoteWeight == CurrentWeight(v, factor)
    requires |v.producers| >= 16 || v.proxy != NO_NAME
    ensures EarningRate(v) == Stake2Vote(v.staked, factor) <==> v.isProxy || v.proxiedVoteWeight == 0.0
  {
  }

  /** What a voter's rate was set from: the weight it voted with when it was last credited, and what it was lent then. */
  datatype Credit = Credit(weight: real, lent: real)

  type Credits = map<Name, Credit>

  /** A credited voter with at least sixteen producers or a proxy earns on the difference; everyone else earns nothing. */
  function CreditedRate(vs: Voters, credits: Credits, v: Name): real {
    if v in vs && v in credits && (|vs[v].producers| >= 16 || vs[v].proxy != NO_NAME)
    then credits[v].weight - credits[v].lent else 0.0
  }

  predicate RateCredited(vs: Voters, credits: Credits, v: Name) {
    v in vs ==> vs[v].shares.rate == CreditedRate(vs, credits, v)
  }

  ghost predicate RatesCredited(vs: Voters, credits: Credits) {
    forall v: Name {:trigger RateCredited(vs, credits, v)} :: RateCredited(vs, credits, v)
  }

  ghost function CreditSum(vs: Voters, credits: Credits): real {
    RealSums.Total((v: Name) => CreditedRate(vs, credits, v))
  }

  /** So the overall rate is the sum of these differences. */
  lemma RateIsCreditSum(vs: Voters, credits: Credits)
    requires RatesCredited(vs, credits)
    ensures RateSum(vs) == CreditSum(vs, credits)
  {
    forall v: Name
      ensures (if v in vs then vs[v].shares.rate else 0.0) == CreditedRate(vs, credits, v)
    {
      assert RateCredited(vs, credits, v);
    }
    RealSums.TotalEq((v: Name) => if v in vs then vs[v].shares.rate else 0.0, (v: Name) => CreditedRate(vs, credits, v));
  }

  /** Two tables in which every account has the same ballot and the same rate. */
  ghost predicate SameRates(vs: Voters, ws: Voters) {
    && vs.Keys <= ws.Keys
    && (forall v {:trigger ws[v]} :: v in vs ==> ws[v].producers == vs[v].producers && ws[v].proxy == vs[v].proxy
                                                  && ws[v].shares.rate == vs[v].shares.rate)
    && forall v {:trigger ws[v]} :: v in ws && v !in vs ==> ws[v].producers == [] && ws[v].proxy == NO_NAME && ws[v].shares.rate == 0.0
  }

  lemma SameRatesCredited(vs: Voters, ws: Voters, credits: Credits)
    requires RatesCredited(vs, credits) && SameRates(vs, ws)
    ensures RatesCredited(ws, credits)
  {
    forall v: Name
      ensures RateCredited(ws, credits, v)
    {
      assert RateCredited(vs, credits, v);
    }
  }

  /** A vote credits the voter anew, and nobody else. */
  lemma VoteRatesCredited(vs: Voters, ws: Voters, credits: Credits, voter: Name)
    requires RatesCredited(vs, credits) && vs.Keys == ws.Keys && voter in ws
    requires forall v {:trigger ws[v]} :: v in vs && v != voter ==>
               ws[v].producers == vs[v].producers && ws[v].proxy == vs[v].proxy && ws[v].shares.rate == vs[v].shares.rate
    requires ws[voter].shares.rate == if |ws[voter].producers| < 16 && ws[voter].proxy == NO_NAME then 0.0
                                      else ws[voter].lastVoteWeight - ws[voter].proxiedVoteWeight
    ensures RatesCredited(ws, credits[voter := Credit(ws[voter].lastVoteWeight, ws[voter].proxiedVoteWeight)])
  {
    var after := credits[voter := Credit(ws[voter].lastVoteWeight, ws[voter].proxiedVoteWeight)];
    forall v: Name
      ensures RateCredited(ws, after, v)
    {
      assert RateCredited(vs, credits, v);
    }
  }

  function GrownUnpaid(v: Voter, now: int): real {
    v.shares.unpaid +
    if v.shares.updated != 0 && v.shares.updated < now
    then v.shares.rate * Seconds(now - v.shares.updated) else 0.0
  }

  /** The row update_voter_votepay_share leaves. */
  function CreditedRow(v: Voter, now: int): Voter {
    v.(shares := Shares(GrownUnpaid(v, now), now, EarningRate(v), v.shares.lastClaimTime))
  }

  /** The total it leaves. */
  function GrownTotal(rate: real, total: real, updated: int, now: int): real {
    total + if updated != 0 && updated < now then rate * Seconds(now - updated) else 0.0
  }

  lemma GrownUnpaidIsExtrapolated(v: Voter, now: int)
    requires Credited(v, now)
    ensures GrownUnpaid(v, now) == UnpaidAt(v, now)
  {
    if v.shares.updated == 0 {
      assert 0.0 * Seconds(now) == 0.0;
    } else if v.shares.updated == now {
      assert v.shares.rate * Seconds(0) == 0.0;
    }
  }

  lemma IdleUnpaid(v: Voter, t: int)
    requires v.shares.rate == 0.0
    ensures UnpaidAt(v, t) == v.shares.unpaid
  {
    assert 0.0 * Seconds(t - v.shares.updated) == 0.0;
  }

  lemma JustUpdated(v: Voter, now: int)
    requires v.shares.updated == now
    ensures UnpaidAt(v, now) == v.shares.unpaid
  {
    assert v.shares.rate * Seconds(0) == 0.0;
  }

  lemma GrownTotalIsExtrapolated(rate: real, total: real, updated: int, now: int)
    requires 0 <= updated <= now && (updated == 0 ==> rate == 0.0)
    ensures GrownTotal(rate, total, updated, now) == total + rate * Seconds(now - updated)
  {
    if updated == 0 {
      assert 0.0 * Seconds(now) == 0.0;
    } else if updated == now {
      assert rate * Seconds(0) == 0.0;
    }
  }

  /** Crediting one voter keeps the accumulator equal to the fold. */
  lemma CreditKeepsAccumulator(vs: Voters, v: Name, rate: real, total: real, updated: int, now: int)
    requires v in vs && AllCredited(vs, now) && VoterAccumulates(vs, rate, total, updated)
    requires 0 <= updated <= now && now > 0
    ensures var row := CreditedRow(vs[v], now);
            && AllCredited(vs[v := row], now)
            && VoterAccumulates(vs[v := row], rate + (EarningRate(vs[v]) - vs[v].shares.rate),
                                GrownTotal(rate, total, updated, now), now)
  {
    var row := CreditedRow(vs[v], now);
    GrownUnpaidIsExtrapolated(vs[v], now);
    JustUpdated(row, now);
    GrownTotalIsExtrapolated(rate, total, updated, now);
    ExtrapolatedUnpaid(vs, rate, total, updated, now);
    ReplaceShares(vs, v, row, now);
  }

  /** Paying one voter out takes exactly its share off the accumulator. */
  lemma PayoutKeepsAccumulator(vs: Voters, v: Name, rate: real, total: real, updated: int, now: int, row: Voter)
    requires v in vs && AllCredited(vs, now) && VoterAccumulates(vs, rate, total, updated)
    requires 0 <= updated <= now && now > 0
    requires row.shares.unpaid == 0.0 && row.shares.updated == now
    requires row.shares.rate == vs[v].shares.rate
    ensures AllCredited(vs[v := row], now)
    ensures VoterAccumulates(vs[v := row], rate,
                             total + rate * Seconds(now - updated) - UnpaidAt(vs[v], now), now)
  {
    JustUpdated(row, now);
    ExtrapolatedUnpaid(vs, rate, total, updated, now);
    ReplaceShares(vs, v, row, now);
  }

  /** A new voter starts outside the accumulator. */
  lemma NewcomerKeepsAccumulator(vs: Voters, v: Name, row: Voter, rate: real, total: real, updated: int)
    requires v !in vs && row.shares.unpaid == 0.0 && row.shares.rate == 0.0
    requires VoterAccumulates(vs, rate, total, updated)
    ensures VoterAccumulates(vs[v := row], rate, total, updated)
  {
    ReplaceShares(vs, v, row, updated);
    IdleUnpaid(row, updated);
  }

  /** Rewriting a row's vote fields keeps it too. */
  lemma VoteFieldsKeepAccumulator(vs: Voters, v: Name, row: Voter, rate: real, total: real, updated: int)
    requires v in vs
    requires row.shares == vs[v].shares
    requires VoterAccumulates(vs, rate, total, updated)
    ensures VoterAccumulates(vs[v := row], rate, total, updated)
  {
    ReplaceShares(vs, v, row, updated);
  }
}
