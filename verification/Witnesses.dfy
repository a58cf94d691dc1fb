/** Tables in which everything is in order, but a comment or a promise of the code does not hold. */
module Witnesses {
  import opened Names
  import opened VoteTables
  import opened ProxyForest
  import opened VotePay
  import opened VoterShares
  import opened VoteSpec
  import opened Revoting
  import opened VotingState
  import opened ProducerState
  import RealSums

  const ALICE: Name := 1
  const BOB: Name := 2
  const CAROL: Name := 3

  // A late registration

  /** Carol registered at time one, before there were votes and vote-pay rows; Alice has staked ten tokens. */
  function OldProducer(): Books {
    SetVoter(StartBooks(map[CAROL := Producer(0.0, true, 0, 1, 0)]), ALICE, FreshVoter(10, false))
  }

  const FOR_CAROL: Ballot := Ballot(NO_NAME, [CAROL])

  lemma OldProducerSound(now: int)
    requires now > 0
    ensures Sound(OldProducer(), AT_START, StartHistory(now))
  {
    var older: Producers := map[CAROL := Producer(0.0, true, 0, 1, 0)];
    StartSound(older, now);
    StakedSound(StartBooks(older), AT_START, StartHistory(now), ALICE, 10);
  }

  lemma VoteForCarol(now: int, out: Outcome)
    requires now > 0 && Sound(OldProducer(), AT_START, StartHistory(now))
    requires MayVote(OldProducer().voters, ALICE, FOR_CAROL)
    requires out == Revote(OldProducer(), map[], 0, ALICE, FOR_CAROL, true, 1.0, now)
    ensures out.ok && out.exact
    ensures out.books.voters[ALICE] == CastRow(FreshVoter(10, false), FOR_CAROL, 10.0)
    ensures out.books.rows == map[] && CAROL in out.books.producers && out.books.producers[CAROL].lastClaimTime == 1
  {
    var b := OldProducer();
    assert Votable(b.producers, CAROL, true);
    RevoteSucceeds(b, map[], 0, ALICE, FOR_CAROL, true, 1.0, now, out);
    RevoteRows(b, map[], 0, ALICE, FOR_CAROL, true, 1.0, now, out);
    var deltas := Deltas(b.voters[ALICE], FOR_CAROL, 10.0);
    SweepRows(Sweep(b.producers, b.rows, b.weight, 0.0, 0.0), InOrder(deltas.Keys), deltas, true, now);
  }

  /**
   * Alice votes for Carol, who registers again three days after her first registration: from then on the
   * vote-pay accumulator is no longer the sum of the producers' shares.
   */
  lemma LateRegistration(now: int, late: int) returns (c: Books, d: GlobalState, k: History)
    requires 0 < now <= late && 1 + THREE_DAYS <= late
    ensures Sound(OldProducer(), AT_START, StartHistory(now))
    ensures CanVote(OldProducer(), StartHistory(now), ALICE, FOR_CAROL, true, 1.0, now)
    ensures VoteStep(OldProducer(), AT_START, StartHistory(now), ALICE, FOR_CAROL, true, 1.0, now, c, d, k)
    ensures Sound(c, d, k) && k.exact && k.nonneg && k.onTime && PayMatches(c, late)
    ensures !InTime(c, CAROL, late) && !PayMatches(Registered(c, CAROL, 0, late), late)
  {
    var b, h := OldProducer(), StartHistory(now);
    OldProducerSound(now);
    var out := Revote(b, map[], 0, ALICE, FOR_CAROL, true, 1.0, now);
    VoteForCarol(now, out);
    c := CreditVoter(out.books, ALICE, now);
    d := CreditedTotals(Activated(AT_START, b.voters[ALICE], now), out.books.voters[ALICE], now);
    k := Chosen(h.(latest := now), ALICE, true, out);
    VoteStepSound(b, AT_START, h, ALICE, FOR_CAROL, true, 1.0, now, c, d, k);
    TotalsAreFolds(c, d, k);
    TallyAtLeast(c.voters, ALICE, CAROL);
    assert VotesOf(c.producers, CAROL) >= 10.0;
    Later(c, d, k, late);
    RegisteredPay(c, CAROL, 0, late);
  }

  // A former proxy

  /** Alice was a proxy, and Bob still uses her as one; she now uses Carol. */
  const FORMER_PROXY: Voters :=
    map[ALICE := Voter(CAROL, [], 10, 10.0, 20.0, false, NO_SHARES),
        BOB := Voter(ALICE, [], 20, 20.0, 0.0, false, NO_SHARES),
        CAROL := Voter(NO_NAME, [], 0, 10.0, 10.0, true, NO_SHARES)]

  lemma FormerProxyMatches()
    ensures ProxiesMatch(FORMER_PROXY) && VotesMatch(FORMER_PROXY, map[])
  {
    var none: Voters := map[];
    var one := none[ALICE := FORMER_PROXY[ALICE]];
    var two := one[BOB := FORMER_PROXY[BOB]];
    forall p: Name
      ensures ProxiedSum(none, p) == 0.0 && Tally(none, p) == 0.0
    {
      RealSums.TotalZero((v: Name) => if v in none then WeightToProxy(none[v], p) else 0.0);
      RealSums.TotalZero((v: Name) => if v in none then WeightToProducer(none[v], p) else 0.0);
    }
    ReplaceRow(none, ALICE, FORMER_PROXY[ALICE]);
    ReplaceRow(one, BOB, FORMER_PROXY[BOB]);
    ReplaceRow(two, CAROL, FORMER_PROXY[CAROL]);
    assert FORMER_PROXY == two[CAROL := FORMER_PROXY[CAROL]];
  }

  /** Everything about these tables is in order, and Alice's next vote credits her at less than nothing. */
  lemma FormerProxyOwes(now: int)
    ensures RowsOk(FORMER_PROXY) && Forest(FORMER_PROXY, map[ALICE := 2, BOB := 1], 2)
    ensures WeightsMatch(Books(FORMER_PROXY, map[], map[], 0.0, PayState(0.0, 0.0, 0)))
    ensures FORMER_PROXY[ALICE].lastVoteWeight == CurrentWeight(FORMER_PROXY[ALICE], 1.0)
    ensures CreditedRow(FORMER_PROXY[ALICE], now).shares.rate == -10.0
  {
    FormerProxyMatches();
    var ps: Producers := map[];
    RealSums.TotalZero((q: Name) => VotesOf(ps, q));
    forall v | v in FORMER_PROXY
      ensures RowOk(FORMER_PROXY, v) && EdgeOk(FORMER_PROXY, map[ALICE := 2, BOB := 1], 2, v)
    {
    }
  }
}
