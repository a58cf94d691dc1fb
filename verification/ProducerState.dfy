/** Registering, claiming and producing blocks: what these actions do to the tables, and what that keeps. */
module ProducerState {
  import opened Names
  import opened VoteTables
  import opened ProxyForest
  import opened VotePay
  import opened VoterShares
  import opened VoteSpec
  import opened Revoting
  import opened VotingState
  import opened RewardPools
  import opened Arith
  import Election
  import RealSums
  import IntSums

  function UnpaidBlocksOf(ps: Producers, q: Name): nat {
    if q in ps then ps[q].unpaidBlocks else 0
  }

  ghost function AllUnpaidBlocks(ps: Producers): int {
    IntSums.Total((q: Name) => UnpaidBlocksOf(ps, q))
  }

  lemma SetUnpaidBlocks(ps: Producers, q: Name, p: Producer)
    ensures AllUnpaidBlocks(ps[q := p]) == AllUnpaidBlocks(ps) + p.unpaidBlocks - UnpaidBlocksOf(ps, q)
  {
    var after := ps[q := p];
    IntSums.TotalPoint((x: Name) => UnpaidBlocksOf(ps, x), (x: Name) => UnpaidBlocksOf(after, x), q);
  }

  lemma UnpaidBlocksAtMostAll(ps: Producers, q: Name)
    ensures UnpaidBlocksOf(ps, q) <= AllUnpaidBlocks(ps)
  {
    IntSums.TotalAtLeast((x: Name) => UnpaidBlocksOf(ps, x), q);
  }

  /** Voting changes votes only, so it leaves the blocks alone. */
  lemma SameBlocks(ps: Producers, qs: Producers)
    requires SameButVotes(ps, qs)
    ensures AllUnpaidBlocks(qs) == AllUnpaidBlocks(ps)
  {
    IntSums.TotalEq((x: Name) => UnpaidBlocksOf(ps, x), (x: Name) => UnpaidBlocksOf(qs, x));
  }

  function SetVoter(b: Books, v: Name, row: Voter): Books {
    b.(voters := b.voters[v := row])
  }

  function SetProducer(b: Books, q: Name, p: Producer): Books {
    b.(producers := b.producers[q := p])
  }

  /** A row that keeps its votes, or enters with none, keeps every tally. */
  lemma SameTallyKeepsWeights(b: Books, q: Name, p: Producer)
    requires WeightsMatch(b) && p.totalVotes == VotesOf(b.producers, q)
    ensures WeightsMatch(SetProducer(b, q, p))
  {
    var c := SetProducer(b, q, p);
    SetVotes(b.producers, q, p);
    forall x: Name
      ensures VoteGap(c.voters, c.producers, x) == 0.0
    {
      assert VoteGap(b.voters, b.producers, x) == 0.0;
    }
  }

  lemma SameEarnings(ps: Producers, rows: Producers2, q: Name, p: Producer, t: int)
    requires q in ps && p.totalVotes == ps[q].totalVotes && p.lastClaimTime == ps[q].lastClaimTime
    ensures SlopeSum(ps[q := p], rows) == SlopeSum(ps, rows)
    ensures ShareSum(ps[q := p], rows, t) == ShareSum(ps, rows, t)
  {
    if q in rows {
      assert rows == rows[q := rows[q]];
      assert Share(p, rows[q], t) == Share(ps[q], rows[q], t) && Slope(p, rows[q]) == Slope(ps[q], rows[q]);
      ReplaceProducer(ps, rows, q, p, rows[q], t);
    } else {
      ReplaceUnpaid(ps, rows, q, p, t);
    }
  }

  /** A producer whose votes and claim time stay earns what it earned. */
  lemma SameTallyKeepsPay(b: Books, q: Name, p: Producer, now: int)
    requires PayMatches(b, now) && q in b.producers && p.totalVotes == b.producers[q].totalVotes
    requires p.lastClaimTime == b.producers[q].lastClaimTime
    ensures PayMatches(SetProducer(b, q, p), now)
  {
    SameEarnings(b.producers, b.rows, q, p, b.pay.updated);
  }

  lemma SameTallySound(b: Books, g: GlobalState, h: History, q: Name, p: Producer)
    requires Sound(b, g, h) && q in b.producers && p.totalVotes == b.producers[q].totalVotes
    requires p.lastClaimTime == b.producers[q].lastClaimTime
    ensures Sound(SetProducer(b, q, p), g, h)
  {
    if h.exact {
      SameTallyKeepsWeights(b, q, p);
    }
    if h.nonneg && h.onTime {
      SameTallyKeepsPay(b, q, p, h.latest);
    }
  }

  /** A producer's vote-pay row and the accumulator replaced together. */
  function SetPay(b: Books, q: Name, p: Producer, row: Producer2, pay: PayState): Books {
    b.(producers := b.producers[q := p], rows := b.rows[q := row], pay := pay)
  }

  /** The two sums after one producer's rows were replaced by rows that are owed nothing. */
  lemma ReplacedSums(ps: Producers, rows: Producers2, q: Name, p: Producer, row: Producer2, now: int)
    requires RowsSettled(ps, rows, now) && p.totalVotes >= 0.0 && row == Producer2(0.0, now)
    ensures RowsSettled(ps[q := p], rows[q := row], now)
    ensures SlopeSum(ps[q := p], rows[q := row]) == SlopeSum(ps, rows) + Slope(p, row) - SlopeOf(ps, rows, q)
    ensures ShareSum(ps[q := p], rows[q := row], now) == ShareSum(ps, rows, now) - ShareAt(ps, rows, q, now) >= 0.0
  {
    ReplaceProducer(ps, rows, q, p, row, now);
    FreshShare(p, 0.0, now);
    SumsNonneg(ps[q := p], rows[q := row], now);
  }

  /** What update_total_votepay_share makes of an accumulator that matches. */
  lemma PaidUpValue(b: Books, now: int, share: real, rateDelta: real)
    requires PayMatches(b, now) && rateDelta >= 0.0 && ShareSum(b.producers, b.rows, now) - share >= 0.0
    ensures PaidUp(b.pay, now, -share, rateDelta)
            == PayState(ShareSum(b.producers, b.rows, now) - share, SlopeSum(b.producers, b.rows) + rateDelta, now)
  {
    ExtrapolatedTotal(b.producers, b.rows, b.pay.rate, b.pay.total, b.pay.updated, now);
    SumsNonneg(b.producers, b.rows, now);
    PaidUpParts(b.pay, now, share, rateDelta, ShareSum(b.producers, b.rows, now));
  }

  lemma PaidUpParts(pay: PayState, now: int, share: real, rateDelta: real, total: real)
    requires pay.updated <= now && pay.rate >= 0.0 && rateDelta >= 0.0
    requires total == pay.total + pay.rate * Seconds(now - pay.updated) && total - share >= 0.0
    ensures PaidUp(pay, now, -share, rateDelta) == PayState(total - share, pay.rate + rateDelta, now)
  {
    IdleClamps(pay.rate, pay.total, pay.updated, now, share, rateDelta);
  }

  /**
   * The accumulator after one producer's rows were replaced at the present time: brought up to date, with
   * the change of rate and of share that update_total_votepay_share was told.
   */
  lemma SetPayMatches(b: Books, q: Name, p: Producer, row: Producer2, now: int, share: real, rateDelta: real)
    requires PayMatches(b, now) && p.totalVotes >= 0.0 && row == Producer2(0.0, now)
    requires share == ShareAt(b.producers, b.rows, q, now)
    requires rateDelta >= 0.0
    ensures PayMatches(SetPay(b, q, p, row, PaidUp(b.pay, now, -share, rateDelta)), now)
            <==> Slope(p, row) - SlopeOf(b.producers, b.rows, q) == rateDelta
  {
    ReplacedSums(b.producers, b.rows, q, p, row, now);
    PaidUpValue(b, now, share, rateDelta);
  }

  // register_producer

  function NewProducer(location: nat, now: int): Producer {
    Producer(0.0, true, 0, now, location)
  }

  function Reregistered(p: Producer, location: nat, now: int): Producer {
    p.(isActive := true, location := location,
       lastClaimTime := if p.lastClaimTime == 0 then now else p.lastClaimTime)
  }

  /** The tables after register_producer. */
  function Registered(b: Books, q: Name, location: nat, now: int): Books {
    if q !in b.producers then SetPay(b, q, NewProducer(location, now), Producer2(0.0, now), b.pay)
    else
      var p := Reregistered(b.producers[q], location, now);
      if q in b.rows then SetProducer(b, q, p)
      else SetPay(b, q, p, Producer2(0.0, now), PaidUp(b.pay, now, 0.0, p.totalVotes))
  }

  /** What registering leaves in the producer's rows: it is active, and keeps its votes, its blocks and its last claim. */
  predicate RegistrationRecorded(b: Books, q: Name, location: nat, now: int, c: Books) {
    && q in c.producers && c.producers == b.producers[q := c.producers[q]]
    && c.producers[q].isActive && c.producers[q].location == location
    && (if q in b.producers then
          && c.producers[q].totalVotes == b.producers[q].totalVotes && c.producers[q].unpaidBlocks == b.producers[q].unpaidBlocks
          && c.producers[q].lastClaimTime == (if b.producers[q].lastClaimTime == 0 then now else b.producers[q].lastClaimTime)
        else
          && c.producers[q].totalVotes == 0.0 && c.producers[q].unpaidBlocks == 0 && c.producers[q].lastClaimTime == now)
    && c.rows == (if q in b.producers && q in b.rows then b.rows else b.rows[q := Producer2(0.0, now)])
    && c.voters == b.voters && c.weight == b.weight
  }

  lemma RegisteredRecorded(b: Books, q: Name, location: nat, now: int)
    ensures RegistrationRecorded(b, q, location, now, Registered(b, q, location, now))
  {
  }

  /** A producer older than the vote-pay table gets its row before its pay has lapsed, or while it has no votes. */
  predicate InTime(b: Books, q: Name, now: int) {
    q !in b.producers || q in b.rows || b.producers[q].totalVotes == 0.0
    || b.producers[q].lastClaimTime == 0 || now < b.producers[q].lastClaimTime + THREE_DAYS
  }

  lemma NewProducerPay(b: Books, q: Name, location: nat, now: int)
    requires PayMatches(b, now) && q !in b.producers
    ensures PayMatches(SetPay(b, q, NewProducer(location, now), Producer2(0.0, now), b.pay), now)
  {
    var p, row := NewProducer(location, now), Producer2(0.0, now);
    ReplaceProducer(b.producers, b.rows, q, p, row, b.pay.updated);
    assert 0.0 * Seconds(b.pay.updated - now) == 0.0;
  }

  /**
   * Registration keeps the vote-pay accumulator equal to the sum of shares if and only if it is in time.
   * A late one adds the producer's votes to the rate, although the producer's own share does not grow.
   */
  lemma RegisteredPay(b: Books, q: Name, location: nat, now: int)
    requires PayMatches(b, now) && Dated(b, now)
    ensures PayMatches(Registered(b, q, location, now), now) <==> InTime(b, q, now)
  {
    if q !in b.producers {
      NewProducerPay(b, q, location, now);
    } else if q in b.rows {
      SameTallyKeepsPay(b, q, Reregistered(b.producers[q], location, now), now);
    } else {
      var p := Reregistered(b.producers[q], location, now);
      SetPayMatches(b, q, p, Producer2(0.0, now), now, 0.0, p.totalVotes);
    }
  }

  lemma RegisteredDated(b: Books, q: Name, location: nat, now: int)
    requires Dated(b, now) && now > 0
    ensures Dated(Registered(b, q, location, now), now)
  {
  }

  lemma RegisteredSound(b: Books, g: GlobalState, h: History, q: Name, location: nat)
    requires Sound(b, g, h)
    ensures Sound(Registered(b, q, location, h.latest), g, h.(onTime := h.onTime && InTime(b, q, h.latest)))
  {
    var c := Registered(b, q, location, h.latest);
    RegisteredDated(b, q, location, h.latest);
    if h.exact {
      SameTallyKeepsWeights(b, q, c.producers[q]);
    }
    if h.nonneg && h.onTime {
      RegisteredPay(b, q, location, h.latest);
    }
    SoundAgain(c, g, h.(onTime := h.onTime && InTime(b, q, h.latest)));
  }

  lemma RegisteredBlocks(b: Books, q: Name, location: nat, now: int)
    ensures AllUnpaidBlocks(Registered(b, q, location, now).producers) == AllUnpaidBlocks(b.producers)
  {
    SetUnpaidBlocks(b.producers, q, Registered(b, q, location, now).producers[q]);
  }

  // claim_producer_rewards

  predicate Earning(b: Books, q: Name)
    requires q in b.producers
  {
    q in b.rows && Accruing(b.producers[q], b.rows[q])
  }

  /** The share taken out by a claim. */
  function ClaimedShare(b: Books, q: Name, now: int): real
    requires q in b.producers
  {
    var row := if q in b.rows then b.rows[q] else Producer2(0.0, now);
    GrownShare(row, if Earning(b, q) then b.producers[q].totalVotes else 0.0, now)
  }

  /** The tables after a claim. */
  function Claimed(b: Books, q: Name, now: int): Books
    requires q in b.producers
  {
    var p := b.producers[q];
    SetPay(b, q, p.(lastClaimTime := now, unpaidBlocks := 0), Producer2(0.0, now),
           PaidUp(b.pay, now, -ClaimedShare(b, q, now), if Earning(b, q) then 0.0 else p.totalVotes))
  }

  /** A claim takes out exactly the producer's share, and the producer accrues again from now on. */
  lemma ClaimedPay(b: Books, q: Name, now: int)
    requires PayMatches(b, now) && q in b.producers
    ensures PayMatches(Claimed(b, q, now), now)
    ensures ClaimedShare(b, q, now) == ShareAt(b.producers, b.rows, q, now)
  {
    var p := b.producers[q].(lastClaimTime := now, unpaidBlocks := 0);
    var row := Producer2(0.0, now);
    if q in b.rows {
      GrownIsExtrapolated(b.producers[q], b.rows[q], now);
    }
    assert Accruing(p, row);
    SetPayMatches(b, q, p, row, now, ClaimedShare(b, q, now), if Earning(b, q) then 0.0 else p.totalVotes);
  }

  lemma ClaimedSound(b: Books, g: GlobalState, h: History, q: Name)
    requires Sound(b, g, h) && q in b.producers
    ensures Sound(Claimed(b, q, h.latest), g, h)
  {
    var c := Claimed(b, q, h.latest);
    if h.exact {
      SameTallyKeepsWeights(b, q, c.producers[q]);
    }
    if h.nonneg && h.onTime {
      ClaimedPay(b, q, h.latest);
    }
  }

  lemma ClaimedBlocks(b: Books, q: Name, now: int)
    requires q in b.producers
    ensures AllUnpaidBlocks(Claimed(b, q, now).producers) == AllUnpaidBlocks(b.producers) - b.producers[q].unpaidBlocks
  {
    SetUnpaidBlocks(b.producers, q, Claimed(b, q, now).producers[q]);
  }

  /** A producer may claim: it is active, the chain is activated, and a day has passed since its last claim. */
  predicate ClaimDue(b: Books, g: GlobalState, q: Name, now: int) {
    && q in b.producers && b.producers[q].isActive && g.threshActivatedStakeTime != 0
    && now - b.producers[q].lastClaimTime > 86_400_000_000
  }

  /** What a claim leaves in the producer's rows: no blocks and no share, and a claim from which the pay accrues again. */
  predicate ClaimRecorded(b: Books, q: Name, now: int, c: Books) {
    && q in b.producers && q in c.producers && c.producers == b.producers[q := c.producers[q]]
    && c.producers[q] == Producer(b.producers[q].totalVotes, b.producers[q].isActive, 0, now, b.producers[q].location)
    && c.rows == b.rows[q := Producer2(0.0, now)]
    && c.voters == b.voters && c.weight == b.weight
  }

  lemma ClaimedRecorded(b: Books, q: Name, now: int)
    requires q in b.producers
    ensures ClaimRecorded(b, q, now, Claimed(b, q, now))
  {
  }

  /** A producer's claim, as a whole. */
  lemma ProducerClaimed(b: Books, g: GlobalState, h: History, q: Name, now: int)
    requires Sound(b, g, h) && now >= h.latest && q in b.producers
    ensures Sound(Claimed(b, q, now), g, h.(latest := now))
    ensures AllUnpaidBlocks(Claimed(b, q, now).producers) == AllUnpaidBlocks(b.producers) - b.producers[q].unpaidBlocks
  {
    Later(b, g, h, now);
    ClaimedSound(b, g, h.(latest := now), q);
    ClaimedBlocks(b, q, now);
  }

  // collect_voter_reward

  /** The voter-share total a claim is measured against. */
  function TotalShareAt(g: GlobalState, now: int): real {
    g.totalUnpaidVoteshare + g.totalVoteshareChangeRate * Seconds(now - g.totalUnpaidVoteshareLastUpdated)
  }

  function PaidOut(v: Voter, now: int): Voter {
    v.(shares := Shares(0.0, now, v.shares.rate, now))
  }

  function PaidOutTotals(g: GlobalState, v: Voter, now: int): GlobalState {
    g.(totalUnpaidVoteshare := TotalShareAt(g, now) - Extrapolated(v.shares, now),
       totalUnpaidVoteshareLastUpdated := now)
  }

  lemma PaidOutShares(vs: Voters, g: GlobalState, v: Name, now: int)
    requires v in vs && SharesMatch(vs, g, now) && now > 0
    ensures SharesMatch(vs[v := PaidOut(vs[v], now)], PaidOutTotals(g, vs[v], now), now)
  {
    PayoutKeepsAccumulator(vs, v, g.totalVoteshareChangeRate, g.totalUnpaidVoteshare,
                           g.totalUnpaidVoteshareLastUpdated, now, PaidOut(vs[v], now));
  }

  /** A payout takes exactly the voter's extrapolated share off the total. */
  lemma PaidOutSound(b: Books, g: GlobalState, h: History, v: Name, now: int)
    requires Sound(b, g, h) && now >= h.latest && v in b.voters
    ensures Sound(SetVoter(b, v, PaidOut(b.voters[v], now)), PaidOutTotals(g, b.voters[v], now), h.(latest := now))
  {
    var row := PaidOut(b.voters[v], now);
    assert RowOk(b.voters, v);
    Later(b, g, h, now);
    SameVoteKeepsStructure(b.voters, h.ages, h.clock, v, row);
    SameVoteKeepsWeights(b, v, row);
    PaidOutShares(b.voters, g, v, now);
    SoundAgain(SetVoter(b, v, row), PaidOutTotals(g, b.voters[v], now), h.(latest := now));
  }

  /** The total a claim is measured against is the sum of what all voters are owed at that moment. */
  lemma TotalShareIsSum(vs: Voters, g: GlobalState, now: int)
    requires SharesMatch(vs, g, now)
    ensures TotalShareAt(g, now) == UnpaidSum(vs, now)
  {
    ExtrapolatedUnpaid(vs, g.totalVoteshareChangeRate, g.totalUnpaidVoteshare, g.totalUnpaidVoteshareLastUpdated, now);
  }

  /** The bucket suffices to pay every share owed at a price. */
  predicate Covers(bucket: int, owed: real, price: real) {
    price * owed <= bucket as real
  }

  /** Whatever price per share the bucket sufficed for before a claim, it suffices for after it. */
  ghost predicate FairlyPaid(bucket: int, owed: real, left: int, stillOwed: real) {
    forall price :: price >= 0.0 && Covers(bucket, owed, price) ==> Covers(left, stillOwed, price)
  }

  lemma ClaimIsFairlyPaid(bucket: int, share: real, total: real)
    requires total > 0.0 && bucket >= 0 && VoterReward(bucket, share, total) > 0
    ensures FairlyPaid(bucket, total, bucket - VoterReward(bucket, share, total), total - share)
  {
    ClaimIsFair(bucket, share, total);
    var left := bucket - VoterReward(bucket, share, total);
    forall price | price >= 0.0 && Covers(bucket, total, price)
      ensures Covers(left, total - share, price)
    {
      StillCovers(bucket as real, total, left as real, total - share, price);
    }
  }

  lemma StillCovers(bucket: real, owed: real, left: real, stillOwed: real, price: real)
    requires owed > 0.0 && left >= 0.0 && price >= 0.0
    requires price * owed <= bucket && left * owed >= bucket * stillOwed
    ensures price * stillOwed <= left
  {
    if stillOwed > 0.0 {
      MulLeReal(price * owed, bucket, stillOwed);
      assert price * owed * stillOwed == (price * stillOwed) * owed;
      if price * stillOwed > left {
        MulLtReal(left, price * stillOwed, owed);
      }
    } else {
      MulLeReal(stillOwed, 0.0, price);
    }
  }

  lemma PaidOutFairly(vs: Voters, g: GlobalState, v: Name, now: int, bucket: int, reward: int)
    requires SharesMatch(vs, g, now) && now > 0 && v in vs && bucket >= 0 && TotalShareAt(g, now) > 0.0
    requires reward == VoterReward(bucket, Extrapolated(vs[v].shares, now), TotalShareAt(g, now)) > 0
    ensures FairlyPaid(bucket, UnpaidSum(vs, now), bucket - reward, UnpaidSum(vs[v := PaidOut(vs[v], now)], now))
  {
    var d := PaidOutTotals(g, vs[v], now);
    PaidOutShares(vs, g, v, now);
    ClaimIsFairlyPaid(bucket, Extrapolated(vs[v].shares, now), TotalShareAt(g, now));
    TotalShareIsSum(vs, g, now);
    TotalShareIsSum(vs[v := PaidOut(vs[v], now)], d, now);
    NothingAccrued(d, now);
  }

  /** A voter may claim: the chain is activated, a day has passed since its last claim, and something is owed. */
  ghost predicate VoteClaimDue(vs: Voters, g: GlobalState, v: Name, now: int) {
    && g.totalActivatedStake >= 150_000_000_0000
    && v in vs && vs[v].shares.updated != 0 && now - vs[v].shares.lastClaimTime > 86_400_000_000
    && UnpaidSum(vs, now) > 0.0
  }

  /** The reward is the voter's share of the bucket, as its part of what all voters are owed. */
  lemma RewardMeasured(vs: Voters, g: GlobalState, v: Name, now: int, bucket: int)
    requires SharesMatch(vs, g, now) && bucket >= 0 && v in vs && TotalShareAt(g, now) > 0.0
    ensures GetsShare(VoterReward(bucket, Extrapolated(vs[v].shares, now), TotalShareAt(g, now)), bucket,
                      UnpaidAt(vs[v], now), UnpaidSum(vs, now))
  {
    TotalShareIsSum(vs, g, now);
    RewardIsShare(bucket, Extrapolated(vs[v].shares, now), TotalShareAt(g, now));
  }

  /** What a claim leaves in the voter's row: nothing owed, and the rate as it was. */
  predicate PayoutRecorded(vs: Voters, v: Name, now: int, ws: Voters) {
    && v in vs && v in ws && ws == vs[v := ws[v]]
    && ws[v].shares == Shares(0.0, now, vs[v].shares.rate, now)
    && ws[v].proxy == vs[v].proxy && ws[v].producers == vs[v].producers && ws[v].staked == vs[v].staked
    && ws[v].lastVoteWeight == vs[v].lastVoteWeight && ws[v].proxiedVoteWeight == vs[v].proxiedVoteWeight
    && ws[v].isProxy == vs[v].isProxy
  }

  /** A voter's claim, as a whole. */
  lemma VoteClaimed(b: Books, g: GlobalState, h: History, v: Name, now: int, c: Books, d: GlobalState, credits: Credits)
    requires Sound(b, g, h) && RatesCredited(b.voters, credits) && now >= h.latest && v in b.voters
    requires c == SetVoter(b, v, PaidOut(b.voters[v], now)) && d == PaidOutTotals(g, b.voters[v], now)
    ensures Sound(c, d, h.(latest := now)) && RatesCredited(c.voters, credits)
  {
    SameRatesCredited(b.voters, c.voters, credits);
    Later(b, g, h, now);
    PaidOutSound(b, g, h, v, now);
  }

  lemma NothingAccrued(g: GlobalState, now: int)
    requires g.totalUnpaidVoteshareLastUpdated == now
    ensures TotalShareAt(g, now) == g.totalUnpaidVoteshare
  {
    assert g.totalVoteshareChangeRate * Seconds(0) == 0.0;
  }

  // Whole actions

  /** Every check of update_votes passes. */
  ghost predicate CanVote(b: Books, h: History, voter: Name, ballot: Ballot, voting: bool, factor: real, now: int) {
    && RowsOk(b.voters) && Forest(b.voters, h.ages, h.clock)
    && MayVote(b.voters, voter, ballot) && Revote(b, h.ages, h.clock, voter, ballot, voting, factor, now).ok
  }

  /** update_votes takes the first state to the second. */
  ghost predicate VoteStep(b: Books, g: GlobalState, h: History, voter: Name, ballot: Ballot, voting: bool,
                           factor: real, now: int, c: Books, d: GlobalState, k: History)
    requires CanVote(b, h, voter, ballot, voting, factor, now)
  {
    var out := Revote(b, h.ages, h.clock, voter, ballot, voting, factor, now);
    && c == CreditVoter(out.books, voter, now)
    && d == CreditedTotals(Activated(g, b.voters[voter], now), out.books.voters[voter], now)
    && k == Chosen(h.(latest := now), voter, voting, out)
  }

  /** voteproducer takes the first state to the second. */
  ghost predicate BallotStep(b: Books, g: GlobalState, h: History, voter: Name, ballot: Ballot, factor: real, now: int,
                             c: Books, d: GlobalState, k: History)
  {
    && RowsOk(b.voters) && Forest(b.voters, h.ages, h.clock)
    && CanVote(b, h, voter, ballot, true, factor, now)
    && VoteStep(b, g, h, voter, ballot, true, factor, now, c, d, k)
  }

  /** The state voteproducer steps to, and no other. */
  ghost predicate BallotStepsTo(b: Books, g: GlobalState, h: History, voter: Name, ballot: Ballot, factor: real, now: int,
                                c: Books, d: GlobalState, k: History)
  {
    forall x, y, z :: BallotStep(b, g, h, voter, ballot, factor, now, x, y, z) <==> x == c && y == d && z == k
  }

  /** voteproducer steps nowhere: it is refused. */
  ghost predicate BallotRefused(b: Books, g: GlobalState, h: History, voter: Name, ballot: Ballot, factor: real, now: int) {
    forall x, y, z :: !BallotStep(b, g, h, voter, ballot, factor, now, x, y, z)
  }

  /** The state a ballot leads to, and no other: the one it steps to, or the present one if it is refused. */
  ghost predicate BallotTo(b: Books, g: GlobalState, h: History, voter: Name, ballot: Ballot, factor: real, now: int,
                           c: Books, d: GlobalState, k: History)
  {
    || BallotStepsTo(b, g, h, voter, ballot, factor, now, c, d, k)
    || (BallotRefused(b, g, h, voter, ballot, factor, now) && c == b && d == g && k == h)
  }

  lemma OnlyBallot(b: Books, g: GlobalState, h: History, voter: Name, ballot: Ballot, factor: real, now: int,
                   c: Books, d: GlobalState, k: History)
    requires CanVote(b, h, voter, ballot, true, factor, now)
    requires VoteStep(b, g, h, voter, ballot, true, factor, now, c, d, k)
    ensures BallotStepsTo(b, g, h, voter, ballot, factor, now, c, d, k)
  {
  }

  /** voteproducer is refused exactly when a check of update_votes fails. */
  lemma BallotRefusedExactly(b: Books, g: GlobalState, h: History, voter: Name, ballot: Ballot, factor: real, now: int)
    ensures BallotRefused(b, g, h, voter, ballot, factor, now) <==> !CanVote(b, h, voter, ballot, true, factor, now)
  {
    if CanVote(b, h, voter, ballot, true, factor, now) {
      var out := Revote(b, h.ages, h.clock, voter, ballot, true, factor, now);
      assert BallotStep(b, g, h, voter, ballot, factor, now, CreditVoter(out.books, voter, now),
                        CreditedTotals(Activated(g, b.voters[voter], now), out.books.voters[voter], now),
                        Chosen(h.(latest := now), voter, true, out));
    }
  }

  lemma VoteStepSound(b: Books, g: GlobalState, h: History, voter: Name, ballot: Ballot, voting: bool,
                      factor: real, now: int, c: Books, d: GlobalState, k: History)
    requires Sound(b, g, h) && now >= h.latest && factor > 0.0
    requires CanVote(b, h, voter, ballot, voting, factor, now)
    requires !voting ==> ballot.proxy == b.voters[voter].proxy
    requires VoteStep(b, g, h, voter, ballot, voting, factor, now, c, d, k)
    ensures Sound(c, d, k)
    ensures AllUnpaidBlocks(c.producers) == AllUnpaidBlocks(b.producers)
  {
    var out := Revote(b, h.ages, h.clock, voter, ballot, voting, factor, now);
    var g1, h1 := Activated(g, b.voters[voter], now), h.(latest := now);
    Later(b, g, h, now);
    RevoteSound(b, g, h1, voter, ballot, voting, factor, out);
    RevoteRows(b, h.ages, h.clock, voter, ballot, voting, factor, now, out);
    SameBlocks(b.producers, out.books.producers);
    SoundAgain(out.books, g1, k);
    CreditSound(out.books, g1, k, voter);
  }

  /** A ballot passes the checks of update_votes. */
  ghost predicate BallotAccepted(b: Books, voter: Name, ballot: Ballot, voting: bool, weight: real) {
    && voter in b.voters
    && (if ballot.proxy != NO_NAME
        then && ballot.producers == [] && ballot.proxy != voter && !b.voters[voter].isProxy
             && ballot.proxy in b.voters && (voting ==> b.voters[ballot.proxy].isProxy)
        else && |ballot.producers| <= 30
             && forall i, j :: 0 <= i < j < |ballot.producers| ==> ballot.producers[i] < ballot.producers[j])
    && (weight >= 0.0 ==> forall q :: q in ballot.producers ==> q in b.producers && (voting ==> b.producers[q].isActive))
  }

  /** What a vote leaves in the voter's row: the weight of the stake and of what was lent, and a rate on it for some. */
  predicate RowRecorded(was: Voter, row: Voter, ballot: Ballot, factor: real, now: int) {
    && row.proxy == ballot.proxy && row.producers == ballot.producers
    && row.staked == was.staked && row.isProxy == was.isProxy
    && row.lastVoteWeight == was.staked as real * factor + (if was.isProxy then was.proxiedVoteWeight else 0.0)
    && row.shares.rate == (if |row.producers| < 16 && row.proxy == NO_NAME then 0.0
                           else row.lastVoteWeight - row.proxiedVoteWeight)
    && row.shares.updated == now && row.shares.lastClaimTime == was.shares.lastClaimTime
  }

  /** And in the activation of the chain, which a first vote counts towards. */
  predicate ActivationRecorded(g: GlobalState, was: Voter, now: int, d: GlobalState) {
    && d.totalActivatedStake
       == g.totalActivatedStake + (if g.threshActivatedStakeTime == 0 && was.lastVoteWeight <= 0.0 then was.staked else 0)
    && d.threshActivatedStakeTime
       == (if g.threshActivatedStakeTime == 0 && was.lastVoteWeight <= 0.0 && d.totalActivatedStake >= 150_000_000_0000
           then now else g.threshActivatedStakeTime)
  }

  ghost predicate BallotRecorded(b: Books, g: GlobalState, voter: Name, ballot: Ballot, voting: bool, factor: real, now: int,
                                 c: Books, d: GlobalState)
  {
    && voter in b.voters && voter in c.voters
    && BallotAccepted(b, voter, ballot, voting, c.voters[voter].lastVoteWeight)
    && RowRecorded(b.voters[voter], c.voters[voter], ballot, factor, now)
    && ActivationRecorded(g, b.voters[voter], now, d)
  }

  lemma AcceptedBallot(b: Books, voter: Name, ballot: Ballot, voting: bool, weight: real)
    requires MayVote(b.voters, voter, ballot) && ProxyChosen(b.voters, ballot.proxy, voting)
    requires AllVotable(b.producers, Joined(ballot, weight), voting)
    ensures BallotAccepted(b, voter, ballot, voting, weight)
  {
    if weight >= 0.0 {
      forall q | q in ballot.producers
        ensures q in b.producers && (voting ==> b.producers[q].isActive)
      {
        InSetOf(ballot.producers);
        assert Votable(b.producers, q, voting);
      }
    }
  }

  lemma RecordedRow(was: Voter, mid: Voter, ballot: Ballot, factor: real, now: int)
    requires mid.staked == was.staked && mid.isProxy == was.isProxy && mid.shares == was.shares
    requires mid == CastRow(mid, ballot, CurrentWeight(was, factor))
    ensures RowRecorded(was, CreditedRow(mid, now), ballot, factor, now)
  {
  }

  lemma RecordedActivation(g: GlobalState, was: Voter, mid: Voter, now: int)
    ensures ActivationRecorded(g, was, now, CreditedTotals(Activated(g, was, now), mid, now))
  {
  }

  lemma VoteStepRecorded(b: Books, g: GlobalState, h: History, voter: Name, ballot: Ballot, voting: bool,
                         factor: real, now: int, c: Books, d: GlobalState, k: History)
    requires CanVote(b, h, voter, ballot, voting, factor, now)
    requires !voting ==> ballot.proxy == b.voters[voter].proxy
    requires VoteStep(b, g, h, voter, ballot, voting, factor, now, c, d, k)
    ensures BallotRecorded(b, g, voter, ballot, voting, factor, now, c, d)
  {
    var out := Revote(b, h.ages, h.clock, voter, ballot, voting, factor, now);
    RevoteRows(b, h.ages, h.clock, voter, ballot, voting, factor, now, out);
    AcceptedBallot(b, voter, ballot, voting, CurrentWeight(b.voters[voter], factor));
    RecordedRow(b.voters[voter], out.books.voters[voter], ballot, factor, now);
    RecordedActivation(g, b.voters[voter], out.books.voters[voter], now);
  }

  /** And the credits that follow from it. */
  lemma VoteStepRates(b: Books, g: GlobalState, h: History, voter: Name, ballot: Ballot, voting: bool,
                      factor: real, now: int, c: Books, d: GlobalState, k: History, credits: Credits)
    requires CanVote(b, h, voter, ballot, voting, factor, now) && RatesCredited(b.voters, credits)
    requires !voting ==> ballot.proxy == b.voters[voter].proxy
    requires VoteStep(b, g, h, voter, ballot, voting, factor, now, c, d, k)
    ensures voter in c.voters
    ensures RatesCredited(c.voters, credits[voter := Credit(c.voters[voter].lastVoteWeight, c.voters[voter].proxiedVoteWeight)])
  {
    var out := Revote(b, h.ages, h.clock, voter, ballot, voting, factor, now);
    VoteStepRecorded(b, g, h, voter, ballot, voting, factor, now, c, d, k);
    RevoteRows(b, h.ages, h.clock, voter, ballot, voting, factor, now, out);
    forall v | v in b.voters && v != voter
      ensures && c.voters[v].producers == b.voters[v].producers && c.voters[v].proxy == b.voters[v].proxy
              && c.voters[v].shares.rate == b.voters[v].shares.rate
    {
      assert Reweighed(b.voters[v], out.books.voters[v]);
    }
    VoteRatesCredited(b.voters, c.voters, credits, voter);
  }

  lemma VoteStepStakes(b: Books, g: GlobalState, h: History, voter: Name, ballot: Ballot, voting: bool,
                       factor: real, now: int, c: Books, d: GlobalState, k: History)
    requires CanVote(b, h, voter, ballot, voting, factor, now)
    requires !voting ==> ballot.proxy == b.voters[voter].proxy
    requires VoteStep(b, g, h, voter, ballot, voting, factor, now, c, d, k)
    ensures SameStakes(b.voters, c.voters)
  {
    var out := Revote(b, h.ages, h.clock, voter, ballot, voting, factor, now);
    RevoteRows(b, h.ages, h.clock, voter, ballot, voting, factor, now, out);
    forall v: Name
      ensures StakeOf(c.voters, v) == StakeOf(b.voters, v)
    {
      assert v in b.voters && v != voter ==> Reweighed(b.voters[v], out.books.voters[v]);
    }
  }

  /** What was set from a row when it was credited. */
  function CreditIn(vs: Voters, voter: Name): Credit {
    if voter in vs then Credit(vs[voter].lastVoteWeight, vs[voter].proxiedVoteWeight) else Credit(0.0, 0.0)
  }

  /** A vote as a whole. */
  lemma VoteStepKeeps(b: Books, g: GlobalState, h: History, voter: Name, ballot: Ballot, voting: bool,
                      factor: real, now: int, c: Books, d: GlobalState, k: History, credits: Credits)
    requires Sound(b, g, h) && RatesCredited(b.voters, credits) && now >= h.latest && factor > 0.0
    requires CanVote(b, h, voter, ballot, voting, factor, now)
    requires !voting ==> ballot.proxy == b.voters[voter].proxy
    requires VoteStep(b, g, h, voter, ballot, voting, factor, now, c, d, k)
    ensures Sound(c, d, k) && RatesCredited(c.voters, credits[voter := CreditIn(c.voters, voter)])
    ensures AllUnpaidBlocks(c.producers) == AllUnpaidBlocks(b.producers) && SameStakes(b.voters, c.voters)
    ensures BallotRecorded(b, g, voter, ballot, voting, factor, now, c, d)
  {
    VoteStepSound(b, g, h, voter, ballot, voting, factor, now, c, d, k);
    VoteStepStakes(b, g, h, voter, ballot, voting, factor, now, c, d, k);
    VoteStepRecorded(b, g, h, voter, ballot, voting, factor, now, c, d, k);
    VoteStepRates(b, g, h, voter, ballot, voting, factor, now, c, d, k, credits);
  }

  lemma BallotKeeps(b: Books, g: GlobalState, h: History, voter: Name, ballot: Ballot, factor: real, now: int,
                    c: Books, d: GlobalState, k: History, credits: Credits)
    requires Sound(b, g, h) && RatesCredited(b.voters, credits) && now >= h.latest && factor > 0.0
    requires BallotStepsTo(b, g, h, voter, ballot, factor, now, c, d, k)
    ensures Sound(c, d, k) && RatesCredited(c.voters, credits[voter := CreditIn(c.voters, voter)])
    ensures AllUnpaidBlocks(c.producers) == AllUnpaidBlocks(b.producers) && SameStakes(b.voters, c.voters) && k.latest == now
    ensures BallotRecorded(b, g, voter, ballot, true, factor, now, c, d)
  {
    assert BallotStep(b, g, h, voter, ballot, factor, now, c, d, k);
    VoteStepKeeps(b, g, h, voter, ballot, true, factor, now, c, d, k, credits);
  }

  /** The voter has a row, and the ballot has no fault, given the weight the voter now votes with. */
  ghost predicate VoteDue(b: Books, voter: Name, ballot: Ballot, voting: bool, factor: real) {
    && voter in b.voters
    && BallotAccepted(b, voter, ballot, voting,
                      b.voters[voter].staked as real * factor
                      + if b.voters[voter].isProxy then b.voters[voter].proxiedVoteWeight else 0.0)
  }

  lemma DueBallot(b: Books, voter: Name, ballot: Ballot, voting: bool, factor: real)
    requires VoteDue(b, voter, ballot, voting, factor)
    ensures MayVote(b.voters, voter, ballot) && ProxyChosen(b.voters, ballot.proxy, voting)
    ensures AllVotable(b.producers, Joined(ballot, CurrentWeight(b.voters[voter], factor)), voting)
  {
    InSetOf(ballot.producers);
  }

  lemma FaultlessBallot(b: Books, voter: Name, ballot: Ballot, voting: bool, factor: real)
    requires voter in b.voters
    ensures VoteDue(b, voter, ballot, voting, factor)
            <==> && MayVote(b.voters, voter, ballot)
                 && ProxyChosen(b.voters, ballot.proxy, voting)
                 && AllVotable(b.producers, Joined(ballot, CurrentWeight(b.voters[voter], factor)), voting)
  {
    var weight := CurrentWeight(b.voters[voter], factor);
    if VoteDue(b, voter, ballot, voting, factor) {
      DueBallot(b, voter, ballot, voting, factor);
    } else if MayVote(b.voters, voter, ballot) && ProxyChosen(b.voters, ballot.proxy, voting)
              && AllVotable(b.producers, Joined(ballot, weight), voting) {
      AcceptedBallot(b, voter, ballot, voting, weight);
    }
  }

  lemma CanVoteWhenChosen(b: Books, g: GlobalState, h: History, voter: Name, ballot: Ballot, voting: bool,
                          factor: real, now: int)
    requires Sound(b, g, h) && h.exact
    ensures CanVote(b, h, voter, ballot, voting, factor, now)
            <==> && MayVote(b.voters, voter, ballot)
                 && ProxyChosen(b.voters, ballot.proxy, voting)
                 && AllVotable(b.producers, Joined(ballot, CurrentWeight(b.voters[voter], factor)), voting)
  {
    if MayVote(b.voters, voter, ballot) {
      RevoteSucceeds(b, h.ages, h.clock, voter, ballot, voting, factor, now,
                     Revote(b, h.ages, h.clock, voter, ballot, voting, factor, now));
    }
  }

  /** With nothing suppressed, a vote is refused for the ballot's own faults only. */
  lemma CanVoteExactly(b: Books, g: GlobalState, h: History, voter: Name, ballot: Ballot, voting: bool,
                       factor: real, now: int)
    requires Sound(b, g, h) && h.exact
    ensures CanVote(b, h, voter, ballot, voting, factor, now) <==> VoteDue(b, voter, ballot, voting, factor)
  {
    CanVoteWhenChosen(b, g, h, voter, ballot, voting, factor, now);
    if voter in b.voters {
      FaultlessBallot(b, voter, ballot, voting, factor);
    }
  }

  lemma RefusedForFaults(b: Books, g: GlobalState, h: History, voter: Name, ballot: Ballot, factor: real, now: int)
    requires Sound(b, g, h) && h.exact
    ensures BallotRefused(b, g, h, voter, ballot, factor, now) <==> !VoteDue(b, voter, ballot, true, factor)
  {
    BallotRefusedExactly(b, g, h, voter, ballot, factor, now);
    CanVoteExactly(b, g, h, voter, ballot, true, factor, now);
  }

  lemma RecordedWasDue(b: Books, g: GlobalState, voter: Name, ballot: Ballot, voting: bool, factor: real, now: int,
                       c: Books, d: GlobalState)
    requires BallotRecorded(b, g, voter, ballot, voting, factor, now, c, d)
    ensures VoteDue(b, voter, ballot, voting, factor)
  {
  }

  /** And a change of stake, which repeats the ballot on record, is never refused. */
  lemma CanAlwaysRepeat(b: Books, g: GlobalState, h: History, voter: Name, factor: real, now: int)
    requires Sound(b, g, h) && h.exact && voter in b.voters
    ensures CanVote(b, h, voter, Ballot(b.voters[voter].proxy, b.voters[voter].producers), false, factor, now)
  {
    var row := b.voters[voter];
    var ballot := Ballot(row.proxy, row.producers);
    assert RowOk(b.voters, voter);
    assert EdgeOk(b.voters, h.ages, h.clock, voter);
    RepeatSucceeds(b, h.ages, h.clock, voter, factor, now,
                   Revote(b, h.ages, h.clock, voter, ballot, false, factor, now));
  }

  /** The same for a propagation from one account. */
  lemma PropagationSound(b: Books, g: GlobalState, h: History, v: Name, factor: real, now: int, out: Outcome)
    requires Sound(b, g, h) && now >= h.latest && v in b.voters && factor > 0.0
    requires out == Propagate(b, h.ages, h.clock, v, factor, now)
    ensures h.exact ==> out.ok
    ensures Sound(out.books, g, Noted(h.(latest := now), out))
    ensures AllUnpaidBlocks(out.books.producers) == AllUnpaidBlocks(b.producers)
  {
    Later(b, g, h, now);
    PropagateSound(b, g, h.(latest := now), v, factor, out);
    PropagateProducers(b, h.ages, h.clock, v, factor, now, out);
    SameBlocks(b.producers, out.books.producers);
  }

  predicate MayRegister(row: Voter, isProxy: bool) {
    isProxy != row.isProxy && (isProxy ==> row.proxy == NO_NAME)
  }

  lemma FlippedStructure(b: Books, h: History, v: Name, isProxy: bool)
    requires RowsOk(b.voters) && Forest(b.voters, h.ages, h.clock) && v in b.voters && MayRegister(b.voters[v], isProxy)
    ensures var vs := SetVoter(b, v, b.voters[v].(isProxy := isProxy)).voters; RowsOk(vs) && Forest(vs, h.ages, h.clock)
  {
    assert RowOk(b.voters, v);
    SameVoteKeepsStructure(b.voters, h.ages, h.clock, v, b.voters[v].(isProxy := isProxy));
  }

  /** regproxy on an account with a row: its status changes, and its weight with it. */
  ghost function Flipped(b: Books, h: History, v: Name, isProxy: bool, factor: real, now: int): (out: Outcome)
    requires RowsOk(b.voters) && Forest(b.voters, h.ages, h.clock) && v in b.voters && MayRegister(b.voters[v], isProxy)
    ensures out.books.voters.Keys == b.voters.Keys
  {
    FlippedStructure(b, h, v, isProxy);
    Propagate(SetVoter(b, v, b.voters[v].(isProxy := isProxy)), h.ages, h.clock, v, factor, now)
  }

  lemma FlippedSound(b: Books, g: GlobalState, h: History, v: Name, isProxy: bool, factor: real, now: int, out: Outcome)
    requires Sound(b, g, h) && now >= h.latest && factor > 0.0 && v in b.voters && MayRegister(b.voters[v], isProxy)
    requires out == Flipped(b, h, v, isProxy, factor, now)
    ensures h.exact ==> out.ok
    ensures Sound(out.books, g, Noted(h.(latest := now), out))
    ensures AllUnpaidBlocks(out.books.producers) == AllUnpaidBlocks(b.producers)
    ensures SameStakes(b.voters, out.books.voters)
  {
    assert RowOk(b.voters, v);
    var c := SetVoter(b, v, b.voters[v].(isProxy := isProxy));
    RowChangeSound(b, g, h, v, c.voters[v]);
    PropagationSound(c, g, h, v, factor, now, out);
    forall u | u in c.voters
      ensures out.books.voters[u].staked == c.voters[u].staked
    {
      assert Reweighed(c.voters[u], out.books.voters[u]);
    }
  }

  /** The voter's row with a change of stake, created if need be. */
  function Staked(vs: Voters, v: Name, delta: int): Voter {
    if v in vs then vs[v].(staked := vs[v].staked + delta) else FreshVoter(delta, false)
  }

  lemma StakedStructure(vs: Voters, h: History, v: Name, delta: int)
    requires RowsOk(vs) && Forest(vs, h.ages, h.clock) && v != NO_NAME && Staked(vs, v, delta).staked >= 0
    ensures var ws := vs[v := Staked(vs, v, delta)]; RowsOk(ws) && Forest(ws, h.ages, h.clock)
  {
    var row := Staked(vs, v, delta);
    if v in vs {
      assert RowOk(vs, v);
      SameVoteKeepsStructure(vs, h.ages, h.clock, v, row);
    } else {
      NewcomerKeepsStructure(vs, h.ages, h.clock, v, row);
    }
  }

  lemma StakedSound(b: Books, g: GlobalState, h: History, v: Name, delta: int)
    requires Sound(b, g, h) && v != NO_NAME && Staked(b.voters, v, delta).staked >= 0
    ensures Sound(SetVoter(b, v, Staked(b.voters, v, delta)), g, h)
  {
    var row := Staked(b.voters, v, delta);
    if v in b.voters {
      assert RowOk(b.voters, v);
      RowChangeSound(b, g, h, v, row);
    } else {
      NewcomerSound(b, g, h, v, row);
    }
  }

  function BallotOf(row: Voter): Ballot {
    Ballot(row.proxy, row.producers)
  }

  predicate HasVoted(row: Voter) {
    row.producers != [] || row.proxy != NO_NAME
  }

  /** Every check of regproxy passes. */
  ghost predicate CanRegProxy(b: Books, h: History, v: Name, isProxy: bool, factor: real, now: int) {
    && RowsOk(b.voters) && Forest(b.voters, h.ages, h.clock)
    && (v in b.voters ==> MayRegister(b.voters[v], isProxy) && Flipped(b, h, v, isProxy, factor, now).ok)
  }

  /** regproxy takes the first state to the second. */
  ghost predicate ProxyStep(b: Books, g: GlobalState, h: History, v: Name, isProxy: bool, factor: real, now: int,
                            c: Books, d: GlobalState, k: History)
    requires CanRegProxy(b, h, v, isProxy, factor, now)
  {
    && d == g
    && if v !in b.voters then c == SetVoter(b, v, FreshVoter(0, isProxy)) && k == h.(latest := now)
       else
         var out := Flipped(b, h, v, isProxy, factor, now);
         c == out.books && k == Noted(h.(latest := now), out)
  }

  /** With nothing suppressed, regproxy is refused only when it would change nothing, or for a proxy's user. */
  lemma CanRegProxyExactly(b: Books, g: GlobalState, h: History, v: Name, isProxy: bool, factor: real, now: int)
    requires Sound(b, g, h) && h.exact && now >= h.latest && factor > 0.0
    ensures CanRegProxy(b, h, v, isProxy, factor, now)
            <==> (v in b.voters ==> isProxy != b.voters[v].isProxy && (isProxy ==> b.voters[v].proxy == NO_NAME))
  {
    if v in b.voters && MayRegister(b.voters[v], isProxy) {
      FlippedSound(b, g, h, v, isProxy, factor, now, Flipped(b, h, v, isProxy, factor, now));
    }
  }

  ghost predicate StatusStep(b: Books, g: GlobalState, h: History, v: Name, isProxy: bool, factor: real, now: int,
                             c: Books, d: GlobalState, k: History)
  {
    && RowsOk(b.voters) && Forest(b.voters, h.ages, h.clock)
    && CanRegProxy(b, h, v, isProxy, factor, now)
    && ProxyStep(b, g, h, v, isProxy, factor, now, c, d, k)
  }

  /** The state regproxy steps to, and no other. */
  ghost predicate StatusStepsTo(b: Books, g: GlobalState, h: History, v: Name, isProxy: bool, factor: real, now: int,
                                c: Books, d: GlobalState, k: History)
  {
    forall x, y, z :: StatusStep(b, g, h, v, isProxy, factor, now, x, y, z) <==> x == c && y == d && z == k
  }

  /** regproxy steps nowhere: it is refused. */
  ghost predicate StatusRefused(b: Books, g: GlobalState, h: History, v: Name, isProxy: bool, factor: real, now: int) {
    forall x, y, z :: !StatusStep(b, g, h, v, isProxy, factor, now, x, y, z)
  }

  /** The state regproxy leads to, and no other. */
  ghost predicate StatusTo(b: Books, g: GlobalState, h: History, v: Name, isProxy: bool, factor: real, now: int,
                           c: Books, d: GlobalState, k: History)
  {
    || StatusStepsTo(b, g, h, v, isProxy, factor, now, c, d, k)
    || (StatusRefused(b, g, h, v, isProxy, factor, now) && c == b && d == g && k == h)
  }

  lemma OnlyStatus(b: Books, g: GlobalState, h: History, v: Name, isProxy: bool, factor: real, now: int,
                   c: Books, d: GlobalState, k: History)
    requires CanRegProxy(b, h, v, isProxy, factor, now) && ProxyStep(b, g, h, v, isProxy, factor, now, c, d, k)
    ensures StatusStepsTo(b, g, h, v, isProxy, factor, now, c, d, k)
  {
  }

  /** regproxy is refused exactly when one of its checks fails. */
  lemma StatusRefusedExactly(b: Books, g: GlobalState, h: History, v: Name, isProxy: bool, factor: real, now: int)
    ensures StatusRefused(b, g, h, v, isProxy, factor, now) <==> !CanRegProxy(b, h, v, isProxy, factor, now)
  {
    if CanRegProxy(b, h, v, isProxy, factor, now) {
      if v !in b.voters {
        assert StatusStep(b, g, h, v, isProxy, factor, now, SetVoter(b, v, FreshVoter(0, isProxy)), g, h.(latest := now));
      } else {
        var out := Flipped(b, h, v, isProxy, factor, now);
        assert StatusStep(b, g, h, v, isProxy, factor, now, out.books, g, Noted(h.(latest := now), out));
      }
    }
  }

  /** With nothing suppressed, it is refused only to an account with a row, when nothing would change or to a proxy's user. */
  lemma StatusRefusedForFaults(b: Books, g: GlobalState, h: History, v: Name, isProxy: bool, factor: real, now: int)
    requires Sound(b, g, h) && h.exact && now >= h.latest && factor > 0.0
    ensures StatusRefused(b, g, h, v, isProxy, factor, now)
            <==> v in b.voters && (isProxy == b.voters[v].isProxy || (isProxy && b.voters[v].proxy != NO_NAME))
  {
    StatusRefusedExactly(b, g, h, v, isProxy, factor, now);
    CanRegProxyExactly(b, g, h, v, isProxy, factor, now);
  }

  lemma StatusKeeps(b: Books, g: GlobalState, h: History, v: Name, isProxy: bool, factor: real, now: int,
                    c: Books, d: GlobalState, k: History, credits: Credits)
    requires Sound(b, g, h) && RatesCredited(b.voters, credits) && now >= h.latest && factor > 0.0 && v != NO_NAME
    requires StatusStepsTo(b, g, h, v, isProxy, factor, now, c, d, k)
    ensures Sound(c, d, k) && RatesCredited(c.voters, credits)
    ensures AllUnpaidBlocks(c.producers) == AllUnpaidBlocks(b.producers) && SameStakes(b.voters, c.voters)
    ensures d == g && k.latest == now && StatusRecorded(b, v, isProxy, factor, c)
  {
    assert StatusStep(b, g, h, v, isProxy, factor, now, c, d, k);
    ProxyStepSound(b, g, h, v, isProxy, factor, now, c, d, k);
    ProxyStepRecorded(b, g, h, v, isProxy, factor, now, c, d, k, credits);
  }

  lemma ProxyStepSound(b: Books, g: GlobalState, h: History, v: Name, isProxy: bool, factor: real, now: int,
                       c: Books, d: GlobalState, k: History)
    requires Sound(b, g, h) && now >= h.latest && factor > 0.0 && v != NO_NAME
    requires CanRegProxy(b, h, v, isProxy, factor, now)
    requires ProxyStep(b, g, h, v, isProxy, factor, now, c, d, k)
    ensures Sound(c, d, k) && AllUnpaidBlocks(c.producers) == AllUnpaidBlocks(b.producers)
    ensures SameStakes(b.voters, c.voters)
  {
    if v !in b.voters {
      NewcomerSound(b, g, h, v, FreshVoter(0, isProxy));
    } else {
      FlippedSound(b, g, h, v, isProxy, factor, now, Flipped(b, h, v, isProxy, factor, now));
    }
  }

  /** What regproxy leaves: the new status, and the weight of the stake and, for a proxy only, of what it was lent. */
  predicate StatusRecorded(b: Books, v: Name, isProxy: bool, factor: real, c: Books) {
    && v in c.voters && c.voters[v].isProxy == isProxy
    && if v in b.voters then
         var was, row := b.voters[v], c.voters[v];
         && isProxy != was.isProxy && (isProxy ==> was.proxy == NO_NAME)
         && row.proxy == was.proxy && row.producers == was.producers && row.staked == was.staked && row.shares == was.shares
         && row.proxiedVoteWeight == was.proxiedVoteWeight
         && row.lastVoteWeight == was.staked as real * factor + (if isProxy then was.proxiedVoteWeight else 0.0)
       else
         var row := c.voters[v];
         && row.proxy == NO_NAME && row.producers == [] && row.staked == 0 && row.shares == Shares(0.0, 0, 0.0, 0)
         && row.lastVoteWeight == 0.0 && row.proxiedVoteWeight == 0.0
  }

  lemma ProxyStepRecorded(b: Books, g: GlobalState, h: History, v: Name, isProxy: bool, factor: real, now: int,
                          c: Books, d: GlobalState, k: History, credits: Credits)
    requires CanRegProxy(b, h, v, isProxy, factor, now) && RatesCredited(b.voters, credits)
    requires ProxyStep(b, g, h, v, isProxy, factor, now, c, d, k)
    ensures StatusRecorded(b, v, isProxy, factor, c) && RatesCredited(c.voters, credits)
  {
    if v in b.voters {
      FlippedStructure(b, h, v, isProxy);
      PropagateFrame(SetVoter(b, v, b.voters[v].(isProxy := isProxy)), h.ages, h.clock, v, factor, now,
                     Flipped(b, h, v, isProxy, factor, now));
      forall u | u in b.voters
        ensures && c.voters[u].producers == b.voters[u].producers && c.voters[u].proxy == b.voters[u].proxy
                && c.voters[u].shares.rate == b.voters[u].shares.rate
      {
        assert Reweighed(SetVoter(b, v, b.voters[v].(isProxy := isProxy)).voters[u], c.voters[u]);
      }
    }
    SameRatesCredited(b.voters, c.voters, credits);
  }

  /** Every check of update_voting_power passes: the stake, and the ballot on record again. */
  ghost predicate CanRestake(b: Books, h: History, v: Name, delta: int, factor: real, now: int) {
    var row := Staked(b.voters, v, delta);
    var staked := SetVoter(b, v, row);
    && row.staked >= 0
    && (HasVoted(row) ==>
          && RowsOk(staked.voters) && Forest(staked.voters, h.ages, h.clock)
          && CanVote(staked, h, v, BallotOf(row), false, factor, now))
  }

  /** update_voting_power takes the first state to the second. */
  ghost predicate StakeStep(b: Books, g: GlobalState, h: History, v: Name, delta: int, factor: real, now: int,
                            c: Books, d: GlobalState, k: History)
  {
    var row := Staked(b.voters, v, delta);
    var staked := SetVoter(b, v, row);
    CanRestake(b, h, v, delta, factor, now) &&
    if HasVoted(row) then VoteStep(staked, g, h, v, BallotOf(row), false, factor, now, c, d, k)
    else c == staked && d == g && k == h.(latest := now)
  }

  /** The state update_voting_power steps to, and no other. */
  ghost predicate StepsTo(b: Books, g: GlobalState, h: History, v: Name, delta: int, factor: real, now: int,
                          c: Books, d: GlobalState, k: History)
  {
    forall x, y, z :: StakeStep(b, g, h, v, delta, factor, now, x, y, z) <==> x == c && y == d && z == k
  }

  lemma OnlyStep(b: Books, g: GlobalState, h: History, v: Name, delta: int, factor: real, now: int,
                 c: Books, d: GlobalState, k: History)
    requires StakeStep(b, g, h, v, delta, factor, now, c, d, k)
    ensures StepsTo(b, g, h, v, delta, factor, now, c, d, k)
  {
  }

  /** update_voting_power steps nowhere: it is refused. */
  ghost predicate NoStep(b: Books, g: GlobalState, h: History, v: Name, delta: int, factor: real, now: int) {
    forall x, y, z :: !StakeStep(b, g, h, v, delta, factor, now, x, y, z)
  }

  /** The state update_voting_power leads to, and no other. */
  ghost predicate StakeTo(b: Books, g: GlobalState, h: History, v: Name, delta: int, factor: real, now: int,
                          c: Books, d: GlobalState, k: History)
  {
    || StepsTo(b, g, h, v, delta, factor, now, c, d, k)
    || (NoStep(b, g, h, v, delta, factor, now) && c == b && d == g && k == h)
  }

  lemma NoStepExactly(b: Books, g: GlobalState, h: History, v: Name, delta: int, factor: real, now: int)
    ensures NoStep(b, g, h, v, delta, factor, now) <==> !CanRestake(b, h, v, delta, factor, now)
  {
    if CanRestake(b, h, v, delta, factor, now) {
      var row := Staked(b.voters, v, delta);
      var staked := SetVoter(b, v, row);
      if HasVoted(row) {
        var out := Revote(staked, h.ages, h.clock, v, BallotOf(row), false, factor, now);
        assert StakeStep(b, g, h, v, delta, factor, now, CreditVoter(out.books, v, now),
                         CreditedTotals(Activated(g, row, now), out.books.voters[v], now),
                         Chosen(h.(latest := now), v, false, out));
      } else {
        assert StakeStep(b, g, h, v, delta, factor, now, staked, g, h.(latest := now));
      }
    }
  }

  /** With nothing suppressed, the votes follow every change of stake that leaves the stake nonnegative. */
  lemma CanRestakeExactly(b: Books, g: GlobalState, h: History, v: Name, delta: int, factor: real, now: int)
    requires Sound(b, g, h) && h.exact && v != NO_NAME
    ensures CanRestake(b, h, v, delta, factor, now) <==> (if v in b.voters then b.voters[v].staked else 0) + delta >= 0
  {
    var row := Staked(b.voters, v, delta);
    if row.staked >= 0 && HasVoted(row) {
      StakedSound(b, g, h, v, delta);
      CanAlwaysRepeat(SetVoter(b, v, row), g, h, v, factor, now);
    }
  }

  lemma NoStepForStake(b: Books, g: GlobalState, h: History, v: Name, delta: int, factor: real, now: int)
    requires Sound(b, g, h) && h.exact && v != NO_NAME
    ensures NoStep(b, g, h, v, delta, factor, now) <==> (if v in b.voters then b.voters[v].staked else 0) + delta < 0
  {
    NoStepExactly(b, g, h, v, delta, factor, now);
    CanRestakeExactly(b, g, h, v, delta, factor, now);
  }

  /** The vote that is cast again. */
  ghost function RestakeOutcome(b: Books, h: History, v: Name, delta: int, factor: real, now: int): Outcome
    requires CanRestake(b, h, v, delta, factor, now)
  {
    var row := Staked(b.voters, v, delta);
    var staked := SetVoter(b, v, row);
    if HasVoted(row) then Revote(staked, h.ages, h.clock, v, BallotOf(row), false, factor, now)
    else Outcome(staked, true, true, true)
  }

  lemma RestakeNoted(b: Books, g: GlobalState, h: History, v: Name, delta: int, factor: real, now: int,
                     c: Books, d: GlobalState, k: History)
    requires StepsTo(b, g, h, v, delta, factor, now, c, d, k)
    ensures CanRestake(b, h, v, delta, factor, now)
    ensures k == Noted(h.(latest := now), RestakeOutcome(b, h, v, delta, factor, now))
  {
    assert StakeStep(b, g, h, v, delta, factor, now, c, d, k);
  }

  ghost function Recast(b: Books, h: History, v: Name, delta: int, factor: real, now: int): Outcome {
    if CanRestake(b, h, v, delta, factor, now) then RestakeOutcome(b, h, v, delta, factor, now)
    else Outcome(b, true, true, true)
  }

  ghost predicate ComesTo(b: Books, h: History, v: Name, delta: int, factor: real, now: int, out: Outcome) {
    out == Recast(b, h, v, delta, factor, now)
  }

  /** What the vote that is cast again comes to. */
  ghost predicate IsRecast(b: Books, h: History, v: Name, delta: int, factor: real, now: int, out: Outcome) {
    forall x :: ComesTo(b, h, v, delta, factor, now, x) ==> x == out
  }

  /** An outcome's part in the flags of a history. */
  predicate Noticed(h: History, out: Outcome, k: History) {
    k.exact == (h.exact && out.exact) && k.nonneg == (h.nonneg && out.nonneg) && k.onTime == h.onTime
  }

  lemma SomeRecast(b: Books, h: History, v: Name, delta: int, factor: real, now: int) returns (out: Outcome)
    ensures IsRecast(b, h, v, delta, factor, now, out)
  {
    out := Recast(b, h, v, delta, factor, now);
  }

  lemma RecastNoticed(b: Books, g: GlobalState, h: History, v: Name, delta: int, factor: real, now: int,
                      c: Books, d: GlobalState, k: History, out: Outcome)
    requires StakeTo(b, g, h, v, delta, factor, now, c, d, k) && IsRecast(b, h, v, delta, factor, now, out)
    ensures Noticed(h, out, k)
  {
    assert ComesTo(b, h, v, delta, factor, now, Recast(b, h, v, delta, factor, now));
    if StepsTo(b, g, h, v, delta, factor, now, c, d, k) {
      RestakeNoted(b, g, h, v, delta, factor, now, c, d, k);
    } else {
      NoStepExactly(b, g, h, v, delta, factor, now);
    }
  }

  lemma StakeStepSound(b: Books, g: GlobalState, h: History, v: Name, delta: int, factor: real, now: int,
                       c: Books, d: GlobalState, k: History)
    requires Sound(b, g, h) && now >= h.latest && factor > 0.0 && v != NO_NAME
    requires StakeStep(b, g, h, v, delta, factor, now, c, d, k)
    ensures Sound(c, d, k) && AllUnpaidBlocks(c.producers) == AllUnpaidBlocks(b.producers)
  {
    var row := Staked(b.voters, v, delta);
    var staked := SetVoter(b, v, row);
    StakedSound(b, g, h, v, delta);
    if HasVoted(row) {
      VoteStepSound(staked, g, h, v, BallotOf(row), false, factor, now, c, d, k);
    } else {
      Later(staked, g, h, now);
    }
  }

  /** One account's stake moves by the change, and nobody else's moves. */
  lemma StakeStepStakes(b: Books, g: GlobalState, h: History, v: Name, delta: int, factor: real, now: int,
                        c: Books, d: GlobalState, k: History)
    requires StakeStep(b, g, h, v, delta, factor, now, c, d, k)
    ensures forall u: Name :: StakeOf(c.voters, u) == StakeOf(b.voters, u) + if u == v then delta else 0
  {
    var row := Staked(b.voters, v, delta);
    var staked := SetVoter(b, v, row);
    assert forall u: Name :: StakeOf(staked.voters, u) == StakeOf(b.voters, u) + if u == v then delta else 0;
    if HasVoted(row) {
      VoteStepStakes(staked, g, h, v, BallotOf(row), false, factor, now, c, d, k);
    }
  }

  /** The row a change of stake starts from: the one on record with the stake moved, or a new one. */
  predicate RowStaked(b: Books, v: Name, delta: int, row: Voter) {
    if v in b.voters then
      && row.staked == b.voters[v].staked + delta
      && row.proxy == b.voters[v].proxy && row.producers == b.voters[v].producers
      && row.lastVoteWeight == b.voters[v].lastVoteWeight && row.proxiedVoteWeight == b.voters[v].proxiedVoteWeight
      && row.isProxy == b.voters[v].isProxy && row.shares == b.voters[v].shares
    else
      && row.staked == delta
      && row.proxy == NO_NAME && row.producers == [] && row.lastVoteWeight == 0.0 && row.proxiedVoteWeight == 0.0
      && !row.isProxy && row.shares == Shares(0.0, 0, 0.0, 0)
  }

  /** What a change of stake leaves: a ballot on record is cast again with the new stake, and credited again. */
  ghost predicate RestakeRecorded(b: Books, g: GlobalState, v: Name, delta: int, factor: real, now: int,
                                  row: Voter, c: Books, d: GlobalState)
  {
    && RowStaked(b, v, delta, row) && row.staked >= 0 && v in c.voters
    && if row.producers != [] || row.proxy != NO_NAME
       then BallotRecorded(SetVoter(b, v, row), g, v, Ballot(row.proxy, row.producers), false, factor, now, c, d)
       else c.voters[v] == row && d == g
  }

  lemma StakeStepRecorded(b: Books, g: GlobalState, h: History, v: Name, delta: int, factor: real, now: int,
                          c: Books, d: GlobalState, k: History)
    requires StakeStep(b, g, h, v, delta, factor, now, c, d, k)
    ensures RestakeRecorded(b, g, v, delta, factor, now, Staked(b.voters, v, delta), c, d)
  {
    var row := Staked(b.voters, v, delta);
    if HasVoted(row) {
      VoteStepRecorded(SetVoter(b, v, row), g, h, v, BallotOf(row), false, factor, now, c, d, k);
    }
  }

  lemma StakedRates(b: Books, v: Name, delta: int, credits: Credits)
    requires RatesCredited(b.voters, credits)
    ensures RatesCredited(b.voters[v := Staked(b.voters, v, delta)], credits)
  {
    SameRatesCredited(b.voters, b.voters[v := Staked(b.voters, v, delta)], credits);
  }

  /** Only a change of stake that casts a ballot again credits the voter anew. */
  lemma StakeStepRates(b: Books, g: GlobalState, h: History, v: Name, delta: int, factor: real, now: int,
                       c: Books, d: GlobalState, k: History, credits: Credits)
    requires StakeStep(b, g, h, v, delta, factor, now, c, d, k) && RatesCredited(b.voters, credits)
    ensures RatesCredited(c.voters, Recredited(b, v, credits, c))
  {
    var row := Staked(b.voters, v, delta);
    StakedRates(b, v, delta, credits);
    if HasVoted(row) {
      VoteStepRates(SetVoter(b, v, row), g, h, v, BallotOf(row), false, factor, now, c, d, k, credits);
    }
  }

  /** A change of stake as a whole. */
  lemma StakeStepKeeps(b: Books, g: GlobalState, h: History, v: Name, delta: int, factor: real, now: int,
                       c: Books, d: GlobalState, k: History, credits: Credits)
    requires Sound(b, g, h) && RatesCredited(b.voters, credits) && now >= h.latest && factor > 0.0 && v != NO_NAME
    requires StepsTo(b, g, h, v, delta, factor, now, c, d, k)
    ensures Sound(c, d, k) && RatesCredited(c.voters, Recredited(b, v, credits, c))
    ensures AllUnpaidBlocks(c.producers) == AllUnpaidBlocks(b.producers) && k.latest == now
    ensures forall u: Name :: StakeOf(c.voters, u) == StakeOf(b.voters, u) + if u == v then delta else 0
    ensures RestakeRecorded(b, g, v, delta, factor, now, Staked(b.voters, v, delta), c, d)
  {
    assert StakeStep(b, g, h, v, delta, factor, now, c, d, k);
    StakeStepStakes(b, g, h, v, delta, factor, now, c, d, k);
    StakeStepSound(b, g, h, v, delta, factor, now, c, d, k);
    StakeStepRecorded(b, g, h, v, delta, factor, now, c, d, k);
    StakeStepRates(b, g, h, v, delta, factor, now, c, d, k, credits);
  }

  function Recredited(b: Books, v: Name, credits: Credits, c: Books): Credits {
    if v in b.voters && HasVoted(b.voters[v]) then credits[v := CreditIn(c.voters, v)] else credits
  }

  /** In every run in which no tally was to go below zero, the scan of the index elects the right producers. */
  lemma SoundElects(b: Books, g: GlobalState, h: History, idx: seq<Name>)
    requires Sound(b, g, h) && h.nonneg && Election.IsIndex(b.producers, idx)
    ensures Election.IsTop(b.producers, Election.Scanned(b.producers, idx))
  {
    Election.NonnegTalliesElect(b.producers, idx);
  }

  // The start

  const AT_START: GlobalState := GlobalState(0.0, 0.0, 0, 0, 0)

  /** Producers that registered before there were votes and vote-pay rows. */
  ghost predicate Unvoted(older: Producers) {
    forall q :: q in older ==> older[q].totalVotes == 0.0
  }

  /** The tables at the start: such producers, and nothing else. */
  function StartBooks(older: Producers): Books {
    Books(map[], older, map[], 0.0, PayState(0.0, 0.0, 0))
  }

  function StartHistory(now: int): History {
    History(map[], 0, now, true, true, true)
  }

  /** They are in order. */
  lemma StartSound(older: Producers, now: int)
    requires now > 0 && Unvoted(older)
    ensures Sound(StartBooks(older), AT_START, StartHistory(now))
  {
    var rows: Producers2, vs: Voters := map[], map[];
    RealSums.TotalZero((q: Name) => VotesOf(older, q));
    RealSums.TotalZero((q: Name) => SlopeOf(older, rows, q));
    RealSums.TotalZero((q: Name) => ShareAt(older, rows, q, 0));
    RealSums.TotalZero((v: Name) => if v in vs then vs[v].shares.rate else 0.0);
    RealSums.TotalZero((v: Name) => if v in vs then UnpaidAt(vs[v], 0) else 0.0);
    forall q: Name
      ensures VoteGap(vs, older, q) == 0.0
    {
      RealSums.TotalZero((v: Name) => if v in vs then WeightToProducer(vs[v], q) else 0.0);
    }
  }
}
