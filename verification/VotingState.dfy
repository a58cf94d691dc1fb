/** The state the voting actions share, what holds of it between actions, and why each action keeps that. */
module VotingState {
  import opened Names
  import opened VoteTables
  import opened ProxyForest
  import opened VotePay
  import opened VoterShares
  import opened VoteSpec
  import opened Revoting
  import RealSums
  import IntSums

  const MIN_ACTIVATED_STAKE: int := 150_000_000_0000

  /** The accumulator of voter shares, and the activation of the chain. */
  datatype GlobalState = GlobalState(
    totalUnpaidVoteshare: real,
    totalVoteshareChangeRate: real,
    totalUnpaidVoteshareLastUpdated: int,
    totalActivatedStake: int,
    threshActivatedStakeTime: int)

  /** The voter-share accumulator stands for the fold over all voters. */
  ghost predicate SharesMatch(vs: Voters, g: GlobalState, now: int) {
    && 0 <= g.totalUnpaidVoteshareLastUpdated <= now
    && AllCredited(vs, now)
    && VoterAccumulates(vs, g.totalVoteshareChangeRate, g.totalUnpaidVoteshare, g.totalUnpaidVoteshareLastUpdated)
  }

  /** What proves things about the history of the tables, without being part of them. */
  datatype History = History(
    /** When each account last chose its proxy. */
    ages: Ages,
    clock: nat,
    /** The time of the latest action. */
    latest: int,
    /** No change of vote weight other than zero has been small enough to be suppressed. */
    exact: bool,
    /** No change was to take a tally below zero, whether or not it was then cut off. */
    nonneg: bool,
    /** No producer older than the vote-pay table was given its row after its pay had lapsed. */
    onTime: bool)

  /** What every action keeps. */
  ghost predicate Sound(b: Books, g: GlobalState, h: History) {
    && h.latest > 0
    && RowsOk(b.voters)
    && Forest(b.voters, h.ages, h.clock)
    && Dated(b, h.latest)
    && (h.exact ==> WeightsMatch(b) && h.nonneg)
    && (h.nonneg ==> TalliesNonneg(b.producers))
    && (h.nonneg && h.onTime ==> PayMatches(b, h.latest))
    && SharesMatch(b.voters, g, h.latest)
  }

  /** The history after an action's outcome. */
  function Noted(h: History, out: Outcome): History {
    h.(exact := h.exact && out.exact, nonneg := h.nonneg && out.nonneg)
  }

  /** In every sound state the proxies form no cycle, and no proxy uses a proxy. */
  lemma SoundIsAcyclic(b: Books, g: GlobalState, h: History)
    requires Sound(b, g, h)
    ensures Acyclic(b.voters)
    ensures forall v :: v in b.voters && b.voters[v].isProxy ==> b.voters[v].proxy == NO_NAME
  {
    ForestIsAcyclic(b.voters, h.ages, h.clock);
    forall v | v in b.voters && b.voters[v].isProxy
      ensures b.voters[v].proxy == NO_NAME
    {
      assert RowOk(b.voters, v);
    }
  }

  /**
   * What the running totals mean, in every run in which no change but zero was suppressed: each equals the
   * fold over all rows that it stands for.
   */
  lemma TotalsAreFolds(b: Books, g: GlobalState, h: History)
    requires Sound(b, g, h) && h.exact
    ensures forall q: Name :: VotesOf(b.producers, q) == Tally(b.voters, q) >= 0.0
    ensures forall p {:trigger b.voters[p]} :: p in b.voters ==> b.voters[p].proxiedVoteWeight == ProxiedSum(b.voters, p) >= 0.0
    ensures b.weight == AllVotes(b.producers)
  {
    forall q: Name
      ensures VotesOf(b.producers, q) == Tally(b.voters, q) >= 0.0
    {
      assert VoteGap(b.voters, b.producers, q) == 0.0;
      TallyAtLeast(b.voters, q, q);
    }
    forall p | p in b.voters
      ensures b.voters[p].proxiedVoteWeight == ProxiedSum(b.voters, p) >= 0.0
    {
      assert ProxyGap(b.voters, p) == 0.0;
      ProxiedAtLeast(b.voters, p, p);
    }
  }

  /**
   * Both accumulators, extrapolated to any time, equal the sums of the extrapolated shares: that of the voters in
   * every run, that of the producers while no tally was to go below zero and every registration was in time.
   */
  lemma AccumulatorsAreFolds(b: Books, g: GlobalState, h: History, t: int)
    requires Sound(b, g, h)
    ensures g.totalUnpaidVoteshare + g.totalVoteshareChangeRate * Seconds(t - g.totalUnpaidVoteshareLastUpdated)
            == UnpaidSum(b.voters, t)
    ensures h.nonneg && h.onTime ==> b.pay.total + b.pay.rate * Seconds(t - b.pay.updated) == ShareSum(b.producers, b.rows, t)
  {
    ExtrapolatedUnpaid(b.voters, g.totalVoteshareChangeRate, g.totalUnpaidVoteshare, g.totalUnpaidVoteshareLastUpdated, t);
    if h.nonneg && h.onTime {
      ExtrapolatedTotal(b.producers, b.rows, b.pay.rate, b.pay.total, b.pay.updated, t);
    }
  }

  lemma Later(b: Books, g: GlobalState, h: History, now: int)
    requires Sound(b, g, h) && now >= h.latest
    ensures Sound(b, g, h.(latest := now))
  {
  }

  // Rewriting a row without touching votes

  predicate SameVote(v: Voter, w: Voter) {
    && w.proxy == v.proxy && w.producers == v.producers && w.lastVoteWeight == v.lastVoteWeight
    && w.proxiedVoteWeight == v.proxiedVoteWeight
  }

  /** Stake, proxy status and unpaid shares enter no sum of vote weights. */
  lemma SameVoteKeepsWeights(b: Books, v: Name, row: Voter)
    requires v in b.voters && SameVote(b.voters[v], row)
    ensures WeightsMatch(b) ==> WeightsMatch(b.(voters := b.voters[v := row]))
  {
    var c := b.(voters := b.voters[v := row]);
    ReplaceRow(b.voters, v, row);
    if WeightsMatch(b) {
      forall p | p in c.voters
        ensures ProxyGap(c.voters, p) == 0.0
      {
        assert ProxyGap(b.voters, p) == 0.0;
      }
      forall q: Name
        ensures VoteGap(c.voters, c.producers, q) == 0.0
      {
        assert VoteGap(b.voters, b.producers, q) == 0.0;
      }
    }
  }

  lemma SameVoteKeepsStructure(vs: Voters, ages: Ages, clock: nat, v: Name, row: Voter)
    requires RowsOk(vs) && Forest(vs, ages, clock) && v in vs && SameVote(vs[v], row)
    requires row.staked >= 0 && (row.isProxy ==> row.proxy == NO_NAME)
    ensures RowsOk(vs[v := row]) && Forest(vs[v := row], ages, clock)
  {
    SameEdge(vs, ages, clock, v, row);
    var ws := vs[v := row];
    forall u | u in ws
      ensures RowOk(ws, u)
    {
      assert RowOk(vs, u);
    }
  }

  /** A change of stake or proxy status, before it is propagated. */
  lemma RowChangeSound(b: Books, g: GlobalState, h: History, v: Name, row: Voter)
    requires Sound(b, g, h) && v in b.voters && SameVote(b.voters[v], row) && row.shares == b.voters[v].shares
    requires row.staked >= 0 && (row.isProxy ==> row.proxy == NO_NAME)
    ensures Sound(b.(voters := b.voters[v := row]), g, h)
  {
    SameVoteKeepsStructure(b.voters, h.ages, h.clock, v, row);
    SameVoteKeepsWeights(b, v, row);
    VoteFieldsKeepAccumulator(b.voters, v, row, g.totalVoteshareChangeRate, g.totalUnpaidVoteshare,
                              g.totalUnpaidVoteshareLastUpdated);
  }

  /** Nobody lends weight to an account without a row. */
  lemma NoBackers(vs: Voters, p: Name)
    requires RowsOk(vs) && p !in vs
    ensures p != NO_NAME ==> ProxiedSum(vs, p) == 0.0
  {
    if p != NO_NAME {
      forall v: Name
        ensures (if v in vs then WeightToProxy(vs[v], p) else 0.0) == 0.0
      {
        if v in vs {
          assert RowOk(vs, v);
        }
      }
      RealSums.TotalZero((v: Name) => if v in vs then WeightToProxy(vs[v], p) else 0.0);
    }
  }

  lemma NewcomerKeepsWeights(b: Books, v: Name, row: Voter)
    requires RowsOk(b.voters) && v !in b.voters && v != NO_NAME && row == FreshVoter(row.staked, row.isProxy)
    ensures WeightsMatch(b) ==> WeightsMatch(b.(voters := b.voters[v := row]))
  {
    var c := b.(voters := b.voters[v := row]);
    ReplaceRow(b.voters, v, row);
    NoBackers(b.voters, v);
    if WeightsMatch(b) {
      forall p | p in c.voters
        ensures ProxyGap(c.voters, p) == 0.0
      {
        if p != v {
          assert ProxyGap(b.voters, p) == 0.0;
        }
      }
      forall q: Name
        ensures VoteGap(c.voters, c.producers, q) == 0.0
      {
        assert VoteGap(b.voters, b.producers, q) == 0.0;
      }
    }
  }

  lemma NewcomerKeepsStructure(vs: Voters, ages: Ages, clock: nat, v: Name, row: Voter)
    requires RowsOk(vs) && Forest(vs, ages, clock) && v !in vs && v != NO_NAME
    requires row == FreshVoter(row.staked, row.isProxy) && row.staked >= 0
    ensures RowsOk(vs[v := row]) && Forest(vs[v := row], ages, clock)
  {
    forall u | u in vs
      ensures vs[u].proxy != v
    {
      assert RowOk(vs, u);
    }
    SameEdge(vs, ages, clock, v, row);
    var ws := vs[v := row];
    forall u | u in ws
      ensures RowOk(ws, u)
    {
      if u != v {
        assert RowOk(vs, u);
      }
    }
  }

  /** A new voter has no vote, no weight and no share. */
  lemma NewcomerSound(b: Books, g: GlobalState, h: History, v: Name, row: Voter)
    requires Sound(b, g, h) && v !in b.voters && v != NO_NAME
    requires row == FreshVoter(row.staked, row.isProxy) && row.staked >= 0
    ensures Sound(b.(voters := b.voters[v := row]), g, h)
  {
    NewcomerKeepsStructure(b.voters, h.ages, h.clock, v, row);
    NewcomerKeepsWeights(b, v, row);
    NewcomerKeepsAccumulator(b.voters, v, row, g.totalVoteshareChangeRate, g.totalUnpaidVoteshare,
                             g.totalUnpaidVoteshareLastUpdated);
  }

  function StakeOf(vs: Voters, v: Name): int {
    if v in vs then vs[v].staked else 0
  }

  /** Nobody's stake for voting has changed. */
  ghost predicate SameStakes(vs: Voters, ws: Voters) {
    forall v: Name :: StakeOf(ws, v) == StakeOf(vs, v)
  }

  // Propagation from a state in order

  lemma GapsClosed(b: Books, c: Books)
    requires WeightsMatch(b) && KeepsGaps(b.voters, c.voters, c.producers)
    requires ListedRegistered(c.voters, c.producers)
    requires c.weight - AllVotes(c.producers) == b.weight - AllVotes(b.producers)
    ensures WeightsMatch(c)
  {
    forall p | p in c.voters
      ensures ProxyGap(c.voters, p) == 0.0
    {
      assert ProxyGap(c.voters, p) == ProxyGap(b.voters, p);
      assert ProxyGap(b.voters, p) == 0.0;
    }
  }

  lemma PropagateKeepsShares(vs: Voters, ws: Voters, g: GlobalState, now: int)
    requires SameShares(vs, ws) && SharesMatch(vs, g, now)
    ensures SharesMatch(ws, g, now)
  {
    SharesIgnoreVotes(vs, ws, g.totalUnpaidVoteshareLastUpdated);
  }

  /** Propagating from any one account keeps a sound state sound. */
  lemma PropagateSound(b: Books, g: GlobalState, h: History, v: Name, factor: real, out: Outcome)
    requires Sound(b, g, h) && v in b.voters && factor > 0.0
    requires out == Propagate(b, h.ages, h.clock, v, factor, h.latest)
    ensures h.exact ==> out.ok
    ensures Sound(out.books, g, Noted(h, out))
  {
    var c := out.books;
    SameStructure(b.voters, c.voters, h.ages, h.clock);
    PropagateProducers(b, h.ages, h.clock, v, factor, h.latest, out);
    PropagateKeepsShares(b.voters, c.voters, g, h.latest);
    if h.exact {
      MatchingIsPropagatable(b, h.ages, h.clock, v);
      PropagateSucceeds(b, h.ages, h.clock, v, factor, h.latest, out);
      PropagateNonneg(b, h.ages, h.clock, v, factor, h.latest, out);
      if out.exact {
        PropagateWeights(b, h.ages, h.clock, v, factor, h.latest, out);
        ListedAfter(b.voters, b.producers, c.voters, c.producers);
        GapsClosed(b, c);
      }
    }
    if h.nonneg && out.nonneg {
      PropagatePay(b, h.ages, h.clock, v, factor, h.latest, out);
    }
  }

  /**
   * Where a change is small enough to be suppressed, every total stays as far from its fold as it was exactly if
   * there was no change, or nobody to pass it on to.
   */
  lemma SuppressionDrifts(b: Books, ages: Ages, clock: nat, v: Name, factor: real, now: int, out: Outcome)
    requires RowsOk(b.voters) && Forest(b.voters, ages, clock) && v in b.voters
    requires VotesMatch(b.voters, b.producers) && WeightsNonneg(b.voters) && CurrentWeight(b.voters[v], factor) >= 0.0
    requires Quiet(ChangeAt(b.voters, v, factor)) && out == Propagate(b, ages, clock, v, factor, now)
    ensures KeepsGaps(b.voters, out.books.voters, out.books.producers)
            <==> || ChangeAt(b.voters, v, factor) == 0.0
                 || (b.voters[v].proxy == NO_NAME && b.voters[v].producers == [])
  {
    var vs, row, delta := b.voters, b.voters[v], ChangeAt(b.voters, v, factor);
    var ws := SetWeight(vs, v, CurrentWeight(row, factor));
    assert RowOk(vs, v);
    ReplaceRow(vs, v, ws[v]);
    if row.proxy != NO_NAME {
      assert ProxyGap(ws, row.proxy) == ProxyGap(vs, row.proxy) - delta;
    } else if row.producers != [] {
      var q := row.producers[0];
      assert q in row.producers;
      assert VoteGap(vs, b.producers, q) == 0.0;
      assert VoteGap(ws, b.producers, q) == -delta;
    }
    if delta == 0.0 || (row.proxy == NO_NAME && row.producers == []) {
      SameGaps(vs, b.producers, v, CurrentWeight(row, factor));
    }
  }

  lemma SameGaps(vs: Voters, ps: Producers, v: Name, weight: real)
    requires v in vs && RowsOk(vs) && WeightsNonneg(vs) && VotesMatch(vs, ps) && weight >= 0.0
    requires weight == vs[v].lastVoteWeight || (vs[v].proxy == NO_NAME && vs[v].producers == [])
    ensures KeepsGaps(vs, SetWeight(vs, v, weight), ps)
  {
    var ws := SetWeight(vs, v, weight);
    ReplaceRow(vs, v, ws[v]);
    NoProxyRows(vs);
    forall q: Name
      ensures VoteGap(ws, ps, q) == 0.0
    {
      assert VoteGap(vs, ps, q) == 0.0;
    }
    forall p | p in ws
      ensures ProxyGap(ws, p) == ProxyGap(vs, p)
    {
      assert p != NO_NAME;
    }
  }

  // Votes

  /** The global state after update_voter_votepay_share. */
  function CreditedTotals(g: GlobalState, v: Voter, now: int): GlobalState {
    g.(totalUnpaidVoteshare := GrownTotal(g.totalVoteshareChangeRate, g.totalUnpaidVoteshare,
                                          g.totalUnpaidVoteshareLastUpdated, now),
       totalVoteshareChangeRate := g.totalVoteshareChangeRate + (EarningRate(v) - v.shares.rate),
       totalUnpaidVoteshareLastUpdated := now)
  }

  /** The first vote of an account counts its stake towards the activation of the chain. */
  function Activated(g: GlobalState, v: Voter, now: int): GlobalState {
    if g.threshActivatedStakeTime == 0 && v.lastVoteWeight <= 0.0 then
      var stake := g.totalActivatedStake + v.staked;
      g.(totalActivatedStake := stake, threshActivatedStakeTime := if stake >= MIN_ACTIVATED_STAKE then now else 0)
    else g
  }

  function CreditVoter(b: Books, v: Name, now: int): Books
    requires v in b.voters
  {
    b.(voters := b.voters[v := CreditedRow(b.voters[v], now)])
  }

  lemma CreditSound(b: Books, g: GlobalState, h: History, v: Name)
    requires Sound(b, g, h) && v in b.voters
    ensures Sound(CreditVoter(b, v, h.latest), CreditedTotals(g, b.voters[v], h.latest), h)
  {
    var row := CreditedRow(b.voters[v], h.latest);
    assert RowOk(b.voters, v);
    SameVoteKeepsStructure(b.voters, h.ages, h.clock, v, row);
    SameVoteKeepsWeights(b, v, row);
    CreditKeepsAccumulator(b.voters, v, g.totalVoteshareChangeRate, g.totalUnpaidVoteshare,
                           g.totalUnpaidVoteshareLastUpdated, h.latest);
  }

  /** Casting a ballot is the newest choice of a proxy; a change of stake repeats an old one. */
  function Chosen(h: History, voter: Name, voting: bool, out: Outcome): History {
    var cast := Noted(h, out);
    if voting then cast.(ages := h.ages[voter := h.clock + 1], clock := h.clock + 1) else cast
  }

  lemma RevoteDated(b: Books, h: History, voter: Name, ballot: Ballot, voting: bool, factor: real, out: Outcome)
    requires RowsOk(b.voters) && Forest(b.voters, h.ages, h.clock) && MayVote(b.voters, voter, ballot)
    requires out == Revote(b, h.ages, h.clock, voter, ballot, voting, factor, h.latest) && out.ok
    requires Dated(b, h.latest)
    ensures Dated(out.books, h.latest)
  {
    var weight := CurrentWeight(b.voters[voter], factor);
    var first := Withdraw(b, h.ages, h.clock, voter, factor, h.latest);
    var second := Lend(first.books, h.ages, h.clock, ballot.proxy, weight, factor, h.latest);
    WithdrawSucceeds(b, h.ages, h.clock, voter, factor, h.latest, first);
    LendSucceeds(first.books, h.ages, h.clock, ballot.proxy, weight, factor, h.latest, second);
    var deltas := Deltas(b.voters[voter], ballot, weight);
    SweptDated(second.books, InOrder(deltas.Keys), deltas, true, h.latest);
  }

  lemma ChosenForest(ws: Voters, h: History, voter: Name, voting: bool, out: Outcome)
    requires if voting then Forest(ws, h.ages[voter := h.clock + 1], h.clock + 1) else Forest(ws, h.ages, h.clock)
    ensures var after := Chosen(h, voter, voting, out); Forest(ws, after.ages, after.clock)
  {
    var after := Chosen(h, voter, voting, out);
    if voting {
      assert after.ages == h.ages[voter := h.clock + 1] && after.clock == h.clock + 1;
    } else {
      assert after.ages == h.ages && after.clock == h.clock;
    }
  }

  lemma RevoteShares(b: Books, h: History, voter: Name, ballot: Ballot, voting: bool, factor: real, out: Outcome)
    requires RowsOk(b.voters) && Forest(b.voters, h.ages, h.clock) && MayVote(b.voters, voter, ballot)
    requires !voting ==> ballot.proxy == b.voters[voter].proxy
    requires out == Revote(b, h.ages, h.clock, voter, ballot, voting, factor, h.latest) && out.ok
    ensures SameShares(b.voters, out.books.voters) && RowsOk(out.books.voters)
    ensures var after := Chosen(h, voter, voting, out); Forest(out.books.voters, after.ages, after.clock)
  {
    var ws := out.books.voters;
    RevoteRows(b, h.ages, h.clock, voter, ballot, voting, factor, h.latest, out);
    ChosenForest(ws, h, voter, voting, out);
    forall v | v in b.voters
      ensures ws[v].shares == b.voters[v].shares
    {
      assert v != voter ==> Reweighed(b.voters[v], ws[v]);
    }
  }

  lemma RevoteMatches(b: Books, h: History, voter: Name, ballot: Ballot, voting: bool, factor: real, out: Outcome)
    requires RowsOk(b.voters) && Forest(b.voters, h.ages, h.clock) && MayVote(b.voters, voter, ballot) && factor > 0.0
    requires !voting ==> ballot.proxy == b.voters[voter].proxy
    requires out == Revote(b, h.ages, h.clock, voter, ballot, voting, factor, h.latest) && out.ok
    requires h.exact ==> WeightsMatch(b) && h.nonneg
    requires h.nonneg ==> TalliesNonneg(b.producers)
    requires h.nonneg && h.onTime ==> PayMatches(b, h.latest)
    ensures var k := Noted(h, out);
            && (k.exact ==> WeightsMatch(out.books) && k.nonneg)
            && (k.nonneg ==> TalliesNonneg(out.books.producers))
            && (k.nonneg && k.onTime ==> PayMatches(out.books, k.latest))
  {
    if h.exact && out.exact {
      RevoteKeeps(b, h.ages, h.clock, voter, ballot, voting, factor, h.latest, out);
    }
    if h.nonneg && out.nonneg {
      RevotePay(b, h.ages, h.clock, voter, ballot, voting, factor, h.latest, out);
    }
  }

  lemma SoundAgain(b: Books, g: GlobalState, h: History)
    requires h.latest > 0 && RowsOk(b.voters) && Forest(b.voters, h.ages, h.clock) && Dated(b, h.latest)
    requires h.exact ==> WeightsMatch(b) && h.nonneg
    requires h.nonneg ==> TalliesNonneg(b.producers)
    requires h.nonneg && h.onTime ==> PayMatches(b, h.latest)
    requires SharesMatch(b.voters, g, h.latest)
    ensures Sound(b, g, h)
  {
  }

  /** A ballot that goes through keeps a sound state sound. */
  lemma RevoteSound(b: Books, g: GlobalState, h: History, voter: Name, ballot: Ballot, voting: bool,
                    factor: real, out: Outcome)
    requires Sound(b, g, h) && factor > 0.0 && MayVote(b.voters, voter, ballot)
    requires !voting ==> ballot.proxy == b.voters[voter].proxy
    requires out == Revote(b, h.ages, h.clock, voter, ballot, voting, factor, h.latest) && out.ok
    ensures Sound(out.books, g, Chosen(h, voter, voting, out))
  {
    RevoteShares(b, h, voter, ballot, voting, factor, out);
    RevoteDated(b, h, voter, ballot, voting, factor, out);
    PropagateKeepsShares(b.voters, out.books.voters, g, h.latest);
    RevoteMatches(b, h, voter, ballot, voting, factor, out);
    var after := Chosen(h, voter, voting, out);
    SoundAgain(out.books, g, after);
  }
}
