/** The actions of the system contract, what a run of them is remembered by, and what each does to that. */
module Machine {
  import opened Names
  import opened Bancor
  import opened RamMarketContract
  import opened VoteTables
  import opened ProxyForest
  import opened VotePay
  import opened VoterShares
  import opened VoteSpec
  import opened Revoting
  import opened VotingState
  import opened ProducerState
  import opened Voting
  import opened TokenLedger
  import opened Inflation
  import opened RewardPools
  import opened PowerupMarket
  import opened ResourceLedger
  import opened Resources
  import opened Bandwidth
  import Genesis
  import IntSums

  datatype Action =
    | Delegate(signer: Name, receiver: Name, amounts: Weights, transfer: bool, wpsAccepts: bool)
    | Undelegate(signer: Name, receiver: Name, amounts: Weights, wpsAccepts: bool)
    | ClaimRefund(owner: Name)
    | RemoveRefund(account: Name, tokens: int)
    | CfgPowerup(netArgs: MarketConfig, cpuArgs: MarketConfig, newDays: Option<int>, minFee: Option<int>)
    | PowerupExec(max: nat)
    | Powerup(payer: Name, receiver: Name, days: int, netFrac: int, cpuFrac: int, maxPayment: int)
    | Vote(voter: Name, ballot: Ballot)
    | RegProxy(proxy: Name, isProxy: bool)
    | RegProducer(producer: Name, location: nat)
    | UnregProducer(producer: Name)
    | OnBlock(producer: Name)
    | ClaimRewards(owner: Name)
    | ClaimVote(owner: Name)
    | BuyRam(payer: Name, receiver: Name, quantity: int)
    | BuyRamBytes(payer: Name, receiver: Name, requested: nat)
    | SellRam(account: Name, bytes: int)
    | SetRam(size: int)
    | SetRamRate(rate: nat)
    | ClaimGenesis(owner: Name)

  /**
   * An action, when it happens, in microseconds and in block slots, the weight of a staked token at that time, and
   * what decay leaves of each market's gap.
   */
  datatype Event = Event(action: Action, now: int, slot: nat, factor: real, decayNet: real, decayCpu: real)

  /** The whole seconds of a time. */
  function InSeconds(now: int): (seconds: int)
    ensures seconds * 1_000_000 <= now < (seconds + 1) * 1_000_000
  {
    now / 1_000_000
  }

  /** The accounts whose balances back the stakes, the buckets and the RAM market. */
  predicate IsBacking(a: Name) {
    a == STAKE_ACCOUNT || a == BPAY_ACCOUNT || a == VOTERS_ACCOUNT || a == RAM_ACCOUNT
  }

  /** The account an action is authorized by, where there is one that could pay or be paid. */
  function ActorOf(a: Action): Name {
    match a
    case Delegate(signer, _, _, _, _) => signer
    case Undelegate(signer, _, _, _) => signer
    case ClaimRefund(owner) => owner
    case Powerup(payer, _, _, _, _, _) => payer
    case RegProxy(proxy, _) => proxy
    case ClaimRewards(owner) => owner
    case ClaimVote(owner) => owner
    case BuyRam(payer, _, _) => payer
    case BuyRamBytes(payer, _, _) => payer
    case SellRam(account, _) => account
    case ClaimGenesis(owner) => owner
    case _ => SYSTEM_ACCOUNT
  }

  /** The backing accounts take no actions of their own, and nobody acts for or on no account. */
  predicate Proper(a: Action) {
    && !IsBacking(ActorOf(a)) && ActorOf(a) != NO_NAME
    && (a.Delegate? || a.Undelegate? ==> a.receiver != NO_NAME)
  }

  /** Block time does not run backwards. */
  ghost predicate Timed(run: seq<Event>) {
    && (forall i :: 0 <= i < |run| ==> run[i].factor > 0.0 && Proper(run[i].action))
    && (forall i, j :: 0 <= i < j < |run| ==> run[i].now <= run[j].now)
  }

  // What a run is remembered by

  /** The tables that decide whether an action goes through, and whether it suppresses a change of votes. */
  datatype Snapshot = Snapshot(books: Books, g: GlobalState, h: History, delegations: Delegations, refunds: Refunds,
                               balances: Balances, genesis: Genesis.Rows)

  /** What an account has delegated to itself once some of a delegation is taken back. */
  function SelfDelegated(ds: Delegations, signer: Name, receiver: Name, w: Weights): int {
    DelegatedBoth(Delegated(ds, signer, receiver, Negated(w)), receiver, receiver)
  }

  /** All that delegatebw needs, but for the votes. */
  predicate Delegable(s: Snapshot, signer: Name, receiver: Name, w: Weights, transfer: bool, wpsAccepts: bool) {
    && wpsAccepts && w.net >= 0 && w.cpu >= 0 && (transfer ==> signer != receiver)
    && CanStake(s.delegations, s.refunds, s.balances, signer, receiver, w, transfer)
  }

  /** And undelegatebw. */
  predicate Undelegable(s: Snapshot, signer: Name, receiver: Name, w: Weights, wpsAccepts: bool, now: int) {
    && wpsAccepts && w.net >= 0 && w.cpu >= 0 && s.g.threshActivatedStakeTime != 0
    && CanStake(s.delegations, s.refunds, s.balances, signer, receiver, Negated(w), false)
    && Genesis.CanChange(s.genesis, s.balances, receiver, SelfDelegated(s.delegations, signer, receiver, w), now)
  }

  predicate VotesStay(s: Snapshot, t: Snapshot) {
    t.books == s.books && t.g == s.g && t.h == s.h
  }

  predicate StakesStay(s: Snapshot, t: Snapshot) {
    t.delegations == s.delegations && t.refunds == s.refunds
  }

  predicate TokensStay(s: Snapshot, t: Snapshot) {
    t.balances == s.balances && t.genesis == s.genesis
  }

  /** A stake has changed, in the delegations, the refunds and the votes. */
  ghost predicate StakeMoved(s: Snapshot, signer: Name, staker: Name, receiver: Name, w: Weights, transfer: bool, e: Event,
                             t: Snapshot)
  {
    && StepsTo(s.books, s.g, s.h, staker, Both(w), e.factor, e.now, t.books, t.g, t.h)
    && t.delegations == Delegated(s.delegations, staker, receiver, w)
    && t.refunds == RefundsNext(s.refunds, signer, staker, receiver, w, transfer, e.now)
  }

  ghost predicate BurnedFrom(b: Balances, c: Balances, amount: int) {
    forall a: Name :: BalanceOf(c, a) == BalanceOf(b, a) - if a == GENESIS_ACCOUNT then amount else 0
  }

  /** delegatebw went through. */
  ghost predicate Staked(s: Snapshot, e: Event, t: Snapshot)
    requires e.action.Delegate?
  {
    var a := e.action;
    var staker := if a.transfer then a.receiver else a.signer;
    && Delegable(s, a.signer, a.receiver, a.amounts, a.transfer, a.wpsAccepts)
    && StakeMoved(s, a.signer, staker, a.receiver, a.amounts, a.transfer, e, t) && t.genesis == s.genesis
    && t.balances == StakePaid(s.balances, a.signer,
                               StakePayment(s.refunds, a.signer, staker, a.receiver, a.amounts, a.transfer))
  }

  /** Or it was refused. */
  ghost predicate NotStaked(s: Snapshot, e: Event)
    requires e.action.Delegate?
  {
    var a := e.action;
    || !Delegable(s, a.signer, a.receiver, a.amounts, a.transfer, a.wpsAccepts)
    || NoStep(s.books, s.g, s.h, if a.transfer then a.receiver else a.signer, Both(a.amounts), e.factor, e.now)
  }

  /** undelegatebw went through. */
  ghost predicate Undelegated(s: Snapshot, e: Event, t: Snapshot)
    requires e.action.Undelegate?
  {
    var a := e.action;
    var self := SelfDelegated(s.delegations, a.signer, a.receiver, a.amounts);
    && Undelegable(s, a.signer, a.receiver, a.amounts, a.wpsAccepts, e.now)
    && StakeMoved(s, a.signer, a.signer, a.receiver, Negated(a.amounts), false, e, t)
    && t.genesis == Genesis.Changed(s.genesis, a.receiver, self, e.now)
    && BurnedFrom(s.balances, t.balances, Genesis.Burned(s.genesis, a.receiver, self, e.now))
  }

  ghost predicate NotUndelegated(s: Snapshot, e: Event)
    requires e.action.Undelegate?
  {
    var a := e.action;
    || !Undelegable(s, a.signer, a.receiver, a.amounts, a.wpsAccepts, e.now)
    || NoStep(s.books, s.g, s.h, a.signer, Both(Negated(a.amounts)), e.factor, e.now)
  }

  /** What an action does to the voting tables, and to the flags of their history. */
  ghost predicate Leads(s: Snapshot, e: Event, t: Snapshot) {
    match e.action
    case Delegate(_, _, _, _, _) => Staked(s, e, t) || (NotStaked(s, e) && t == s)
    case Undelegate(_, _, _, _) => Undelegated(s, e, t) || (NotUndelegated(s, e) && t == s)
    case Vote(voter, ballot) => BallotTo(s.books, s.g, s.h, voter, ballot, e.factor, e.now, t.books, t.g, t.h)
    case RegProxy(proxy, isProxy) => StatusTo(s.books, s.g, s.h, proxy, isProxy, e.factor, e.now, t.books, t.g, t.h)
    case RegProducer(q, location) =>
      && t.books == Registered(s.books, q, location, e.now) && t.g == s.g
      && t.h == s.h.(latest := e.now, onTime := s.h.onTime && InTime(s.books, q, e.now))
    case UnregProducer(q) =>
      && t.books == (if q in s.books.producers then SetProducer(s.books, q, s.books.producers[q].(isActive := false)) else s.books)
      && t.g == s.g && t.h == s.h
    case OnBlock(q) =>
      && t.books == (if s.g.threshActivatedStakeTime != 0 && q in s.books.producers
                     then SetProducer(s.books, q, OneMoreBlock(s.books.producers[q])) else s.books)
      && t.g == s.g && t.h == s.h
    case ClaimRewards(owner) =>
      || VotesStay(s, t)
      || (owner in s.books.producers && t.books == Claimed(s.books, owner, e.now) && t.g == s.g && t.h == s.h.(latest := e.now))
    case ClaimVote(owner) =>
      || VotesStay(s, t)
      || (&& owner in s.books.voters && t.books == SetVoter(s.books, owner, PaidOut(s.books.voters[owner], e.now))
          && t.g == PaidOutTotals(s.g, s.books.voters[owner], e.now) && t.h == s.h.(latest := e.now))
    case _ => VotesStay(s, t)
  }

  function OneMoreBlock(p: Producer): Producer {
    p.(unpaidBlocks := p.unpaidBlocks + 1)
  }

  /** What removerefund takes away in one event. */
  function RemovedBy(s: Snapshot, e: Event): int {
    match e.action
    case RemoveRefund(account, tokens) => if account in s.refunds && RefundOf(s.refunds, account) >= tokens then tokens else 0
    case _ => 0
  }

  /**
   * What an action other than these two does to the rest of a snapshot; how claims, powerups and RAM trades move the
   * balances is left to their own contracts.
   */
  ghost predicate RestLeads(s: Snapshot, e: Event, t: Snapshot) {
    match e.action
    case Delegate(_, _, _, _, _) => true
    case Undelegate(_, _, _, _) => true
    case ClaimRefund(owner) =>
      && t.delegations == s.delegations && t.genesis == s.genesis
      && ((t.refunds == s.refunds && t.balances == s.balances)
          || (t.refunds == s.refunds - {owner}
              && t.balances == Moved(s.balances, STAKE_ACCOUNT, owner, RefundOf(s.refunds, owner))))
    case RemoveRefund(account, tokens) =>
      && t.delegations == s.delegations && TokensStay(s, t)
      && forall a: Name :: RefundOf(t.refunds, a) == RefundOf(s.refunds, a) - if a == account then RemovedBy(s, e) else 0
    case ClaimGenesis(owner) =>
      && StakesStay(s, t)
      && (TokensStay(s, t)
          || (owner in s.genesis && t.genesis == Genesis.AfterClaim(s.genesis, owner, e.now)
              && t.balances == Moved(s.balances, GENESIS_ACCOUNT, owner, Genesis.Unclaimed(s.genesis[owner], e.now))))
    case _ => StakesStay(s, t) && t.genesis == s.genesis && (TradesOrPays(e.action) || t.balances == s.balances)
  }

  predicate TradesOrPays(a: Action) {
    a.ClaimRewards? || a.ClaimVote? || a.Powerup? || a.BuyRam? || a.BuyRamBytes? || a.SellRam?
  }

  /** An action takes the first snapshot to the second. */
  ghost predicate Follows(s: Snapshot, e: Event, t: Snapshot) {
    Leads(s, e, t) && RestLeads(s, e, t)
  }

  /** Actions on the markets: they leave the votes and the stakes alone. */
  predicate OnlyMarkets(a: Action) {
    a.CfgPowerup? || a.PowerupExec? || a.Powerup? || a.BuyRam? || a.BuyRamBytes? || a.SellRam? || a.SetRam? || a.SetRamRate?
  }

  lemma MarketFollows(s: Snapshot, e: Event, t: Snapshot)
    requires OnlyMarkets(e.action) && VotesStay(s, t) && StakesStay(s, t) && t.genesis == s.genesis
    requires TradesOrPays(e.action) || t.balances == s.balances
    ensures Follows(s, e, t)
  {
  }

  lemma OtherFollows(s: Snapshot, e: Event, t: Snapshot)
    requires (e.action.ClaimRefund? || e.action.RemoveRefund? || e.action.ClaimGenesis?) && VotesStay(s, t) && RestLeads(s, e, t)
    ensures Follows(s, e, t)
  {
  }

  lemma BallotFollows(s: Snapshot, e: Event, t: Snapshot)
    requires e.action.Vote? && StakesStay(s, t) && TokensStay(s, t)
    requires BallotTo(s.books, s.g, s.h, e.action.voter, e.action.ballot, e.factor, e.now, t.books, t.g, t.h)
    ensures Follows(s, e, t)
  {
  }

  lemma StatusFollows(s: Snapshot, e: Event, t: Snapshot)
    requires e.action.RegProxy? && StakesStay(s, t) && TokensStay(s, t)
    requires StatusTo(s.books, s.g, s.h, e.action.proxy, e.action.isProxy, e.factor, e.now, t.books, t.g, t.h)
    ensures Follows(s, e, t)
  {
  }

  lemma DelegationFollows(s: Snapshot, e: Event, t: Snapshot)
    requires e.action.Delegate? && (Staked(s, e, t) || (NotStaked(s, e) && t == s))
    ensures Follows(s, e, t)
  {
  }

  lemma UndelegationFollows(s: Snapshot, e: Event, t: Snapshot)
    requires e.action.Undelegate? && (Undelegated(s, e, t) || (NotUndelegated(s, e) && t == s))
    ensures Follows(s, e, t)
  {
  }

  lemma ProducerClaimFollows(s: Snapshot, e: Event, t: Snapshot)
    requires e.action.ClaimRewards? && StakesStay(s, t) && t.genesis == s.genesis
    requires || VotesStay(s, t)
             || (&& e.action.owner in s.books.producers && t.books == Claimed(s.books, e.action.owner, e.now)
                 && t.g == s.g && t.h == s.h.(latest := e.now))
    ensures Follows(s, e, t)
  {
  }

  lemma VoterClaimFollows(s: Snapshot, e: Event, t: Snapshot)
    requires e.action.ClaimVote? && StakesStay(s, t) && t.genesis == s.genesis
    requires var owner := e.action.owner;
             || VotesStay(s, t)
             || (&& owner in s.books.voters && t.books == SetVoter(s.books, owner, PaidOut(s.books.voters[owner], e.now))
                 && t.g == PaidOutTotals(s.g, s.books.voters[owner], e.now) && t.h == s.h.(latest := e.now))
    ensures Follows(s, e, t)
  {
  }

  // Which runs are exact

  /** What the vote an action casts comes to; one that casts none, or is refused, suppresses nothing. */
  ghost predicate CastsVote(s: Snapshot, e: Event, out: Outcome)
    requires RowsOk(s.books.voters) && Forest(s.books.voters, s.h.ages, s.h.clock)
  {
    match e.action
    case Delegate(signer, receiver, w, transfer, accepts) =>
      if Delegable(s, signer, receiver, w, transfer, accepts)
      then IsRecast(s.books, s.h, if transfer then receiver else signer, Both(w), e.factor, e.now, out)
      else out == Nothing(s)
    case Undelegate(signer, receiver, w, accepts) =>
      if Undelegable(s, signer, receiver, w, accepts, e.now)
      then IsRecast(s.books, s.h, signer, Both(Negated(w)), e.factor, e.now, out)
      else out == Nothing(s)
    case Vote(voter, ballot) =>
      if CanVote(s.books, s.h, voter, ballot, true, e.factor, e.now)
      then out == Revote(s.books, s.h.ages, s.h.clock, voter, ballot, true, e.factor, e.now) else out == Nothing(s)
    case RegProxy(proxy, isProxy) =>
      if proxy in s.books.voters && CanRegProxy(s.books, s.h, proxy, isProxy, e.factor, e.now)
      then out == Flipped(s.books, s.h, proxy, isProxy, e.factor, e.now) else out == Nothing(s)
    case _ => out == Nothing(s)
  }

  function Nothing(s: Snapshot): Outcome {
    Outcome(s.books, true, true, true)
  }

  /** The flags of the history after an outcome. */
  ghost predicate Flagged(s: Snapshot, e: Event, k: History, out: Outcome) {
    && k.exact == (s.h.exact && out.exact) && k.nonneg == (s.h.nonneg && out.nonneg)
    && k.onTime == (s.h.onTime && (e.action.RegProducer? ==> InTime(s.books, e.action.producer, e.now)))
  }

  lemma DelegationFlags(s: Snapshot, e: Event, t: Snapshot, out: Outcome)
    requires RowsOk(s.books.voters) && Forest(s.books.voters, s.h.ages, s.h.clock)
    requires (e.action.Delegate? || e.action.Undelegate?) && Leads(s, e, t) && CastsVote(s, e, out)
    ensures Flagged(s, e, t.h, out)
  {
    var a := e.action;
    if a.Delegate? && Delegable(s, a.signer, a.receiver, a.amounts, a.transfer, a.wpsAccepts) {
      RecastNoticed(s.books, s.g, s.h, if a.transfer then a.receiver else a.signer, Both(a.amounts), e.factor,
                    e.now, t.books, t.g, t.h, out);
    } else if a.Undelegate? && Undelegable(s, a.signer, a.receiver, a.amounts, a.wpsAccepts, e.now) {
      RecastNoticed(s.books, s.g, s.h, a.signer, Both(Negated(a.amounts)), e.factor, e.now,
                    t.books, t.g, t.h, out);
    }
  }

  lemma BallotFlags(s: Snapshot, e: Event, t: Snapshot, out: Outcome)
    requires RowsOk(s.books.voters) && Forest(s.books.voters, s.h.ages, s.h.clock)
    requires e.action.Vote? && Leads(s, e, t) && CastsVote(s, e, out)
    ensures Flagged(s, e, t.h, out)
  {
    var voter, ballot := e.action.voter, e.action.ballot;
    if CanVote(s.books, s.h, voter, ballot, true, e.factor, e.now) {
      assert BallotStep(s.books, s.g, s.h, voter, ballot, e.factor, e.now, CreditVoter(out.books, voter, e.now),
                        CreditedTotals(Activated(s.g, s.books.voters[voter], e.now), out.books.voters[voter], e.now),
                        Chosen(s.h.(latest := e.now), voter, true, out));
    } else {
      assert !BallotStep(s.books, s.g, s.h, voter, ballot, e.factor, e.now, t.books, t.g, t.h);
    }
  }

  lemma StatusFlags(s: Snapshot, e: Event, t: Snapshot, out: Outcome)
    requires RowsOk(s.books.voters) && Forest(s.books.voters, s.h.ages, s.h.clock)
    requires e.action.RegProxy? && Leads(s, e, t) && CastsVote(s, e, out)
    ensures Flagged(s, e, t.h, out)
  {
    var v, isProxy := e.action.proxy, e.action.isProxy;
    if !CanRegProxy(s.books, s.h, v, isProxy, e.factor, e.now) {
      assert !StatusStep(s.books, s.g, s.h, v, isProxy, e.factor, e.now, t.books, t.g, t.h);
    } else if v in s.books.voters {
      assert StatusStep(s.books, s.g, s.h, v, isProxy, e.factor, e.now, out.books, s.g, Noted(s.h.(latest := e.now), out));
    } else {
      assert StatusStep(s.books, s.g, s.h, v, isProxy, e.factor, e.now, SetVoter(s.books, v, FreshVoter(0, isProxy)), s.g,
                        s.h.(latest := e.now));
    }
  }

  /** The flags of a history say what they are meant to: an action's part in them is that of the vote it casts. */
  lemma FlagsLead(s: Snapshot, e: Event, t: Snapshot, out: Outcome)
    requires RowsOk(s.books.voters) && Forest(s.books.voters, s.h.ages, s.h.clock)
    requires Leads(s, e, t) && CastsVote(s, e, out)
    ensures Flagged(s, e, t.h, out)
  {
    match e.action
    case Delegate(_, _, _, _, _) => DelegationFlags(s, e, t, out);
    case Undelegate(_, _, _, _) => DelegationFlags(s, e, t, out);
    case Vote(_, _) => BallotFlags(s, e, t, out);
    case RegProxy(_, _) => StatusFlags(s, e, t, out);
    case _ =>
  }

  ghost predicate Ordered(s: Snapshot) {
    RowsOk(s.books.voters) && Forest(s.books.voters, s.h.ages, s.h.clock)
  }

  /** An event in which a change of vote weight other than zero is too small to be passed on. */
  ghost predicate Suppresses(s: Snapshot, e: Event) {
    Ordered(s) && exists out :: CastsVote(s, e, out) && !out.exact
  }

  /** An event in which a change is to take some tally below zero. */
  ghost predicate GoesNegative(s: Snapshot, e: Event) {
    Ordered(s) && exists out :: CastsVote(s, e, out) && !out.nonneg
  }

  lemma SomeVote(s: Snapshot, e: Event) returns (out: Outcome)
    requires Ordered(s)
    ensures CastsVote(s, e, out)
  {
    out := Nothing(s);
    match e.action
    case Delegate(signer, receiver, w, transfer, accepts) =>
      if Delegable(s, signer, receiver, w, transfer, accepts) {
        out := SomeRecast(s.books, s.h, if transfer then receiver else signer, Both(w), e.factor, e.now);
      }
    case Undelegate(signer, receiver, w, accepts) =>
      if Undelegable(s, signer, receiver, w, accepts, e.now) {
        out := SomeRecast(s.books, s.h, signer, Both(Negated(w)), e.factor, e.now);
      }
    case Vote(voter, ballot) =>
      if CanVote(s.books, s.h, voter, ballot, true, e.factor, e.now) {
        out := Revote(s.books, s.h.ages, s.h.clock, voter, ballot, true, e.factor, e.now);
      }
    case RegProxy(proxy, isProxy) =>
      if proxy in s.books.voters && CanRegProxy(s.books, s.h, proxy, isProxy, e.factor, e.now) {
        out := Flipped(s.books, s.h, proxy, isProxy, e.factor, e.now);
      }
    case _ =>
  }

  /** What one event does to the flags. */
  lemma FlagsStep(s: Snapshot, e: Event, t: Snapshot)
    requires Ordered(s) && Leads(s, e, t)
    ensures t.h.exact <==> s.h.exact && !Suppresses(s, e)
    ensures t.h.nonneg <==> s.h.nonneg && !GoesNegative(s, e)
    ensures t.h.onTime <==> s.h.onTime && (e.action.RegProducer? ==> InTime(s.books, e.action.producer, e.now))
  {
    var out := SomeVote(s, e);
    FlagsLead(s, e, t, out);
    forall x | CastsVote(s, e, x)
      ensures Flagged(s, e, t.h, x)
    {
      FlagsLead(s, e, t, x);
    }
  }

  /** One state after another, as the actions of a run lead them. */
  ghost predicate Led(run: seq<Event>, trace: seq<Snapshot>) {
    && |trace| == |run| + 1
    && (forall i :: 0 <= i < |trace| ==> Ordered(trace[i]))
    && (forall i :: 0 <= i < |run| ==> Follows(trace[i], run[i], trace[i + 1]))
  }

  /** The flags at the end of a run: exact means that no event suppressed a change, and so on. */
  lemma {:induction false} FlagsOfRun(run: seq<Event>, trace: seq<Snapshot>, n: nat)
    requires Led(run, trace) && n <= |run|
    ensures trace[n].h.exact <==> trace[0].h.exact && forall i :: 0 <= i < n ==> !Suppresses(trace[i], run[i])
    ensures trace[n].h.nonneg <==> trace[0].h.nonneg && forall i :: 0 <= i < n ==> !GoesNegative(trace[i], run[i])
    ensures trace[n].h.onTime <==> && trace[0].h.onTime
                                   && forall i :: 0 <= i < n && run[i].action.RegProducer? ==>
                                        InTime(trace[i].books, run[i].action.producer, run[i].now)
  {
    if n > 0 {
      FlagsOfRun(run, trace, n - 1);
      FlagsStep(trace[n - 1], run[n - 1], trace[n]);
    }
  }

  // Refunds taken away, and stakes

  function RemovedIn(run: seq<Event>, trace: seq<Snapshot>, n: nat): int
    requires n <= |run| && n < |trace|
  {
    if n == 0 then 0 else RemovedIn(run, trace, n - 1) + RemovedBy(trace[n - 1], run[n - 1])
  }

  lemma {:induction false} RemovedSoFar(run: seq<Event>, trace: seq<Snapshot>, t: Snapshot, n: nat)
    requires n <= |run| && n < |trace|
    ensures RemovedIn(run, trace + [t], n) == RemovedIn(run, trace, n)
  {
    if n > 0 {
      RemovedSoFar(run, trace, t, n - 1);
    }
  }

  /** The trace of the first events of a run: where it began, where it is now, and that the actions led there. */
  ghost predicate SoFar(run: seq<Event>, trace: seq<Snapshot>, n: nat, start: Snapshot, now: Snapshot) {
    && n <= |run| && |trace| == n + 1 && trace[0] == start && trace[n] == now
    && (forall i :: 0 <= i <= n ==> Ordered(trace[i]))
    && (forall i :: 0 <= i < n ==> Follows(trace[i], run[i], trace[i + 1]))
  }

  lemma OneFurther(run: seq<Event>, trace: seq<Snapshot>, n: nat, start: Snapshot, s: Snapshot, t: Snapshot)
    requires SoFar(run, trace, n, start, s) && n < |run| && Follows(s, run[n], t) && Ordered(t)
    ensures SoFar(run, trace + [t], n + 1, start, t)
  {
  }

  lemma RemovedFurther(run: seq<Event>, trace: seq<Snapshot>, n: nat, s: Snapshot, t: Snapshot)
    requires n < |run| && |trace| == n + 1 && trace[n] == s
    ensures RemovedIn(run, trace + [t], n + 1) == RemovedIn(run, trace, n) + RemovedBy(s, run[n])
  {
    RemovedSoFar(run, trace, t, n);
  }

  lemma AllOfIt(run: seq<Event>, trace: seq<Snapshot>, start: Snapshot, now: Snapshot)
    requires SoFar(run, trace, |run|, start, now)
    ensures Led(run, trace) && trace[0] == start && trace[|run|] == now
  {
  }

  ghost function AllDelegated(ds: Delegations): int {
    IntSums.Total((from: Name) => DelegatedBy(ds, from))
  }

  /** What is staked for voting is what is delegated. */
  lemma StakesAreDelegations(ds: Delegations, vs: Voters)
    requires StakesMatch(ds, vs)
    ensures AllStakes(vs) == AllDelegated(ds)
  {
    forall v: Name
      ensures StakeOf(vs, v) == DelegatedBy(ds, v)
    {
      assert StakeGap(ds, vs, v) == 0;
    }
    IntSums.TotalEq((v: Name) => StakeOf(vs, v), (v: Name) => DelegatedBy(ds, v));
  }

  /** Taking stake back costs nothing. */
  lemma UnstakingIsFree(rs: Refunds, signer: Name, receiver: Name, w: Weights)
    requires RefundsPositive(rs) && w.net >= 0 && w.cpu >= 0
    ensures StakePayment(rs, signer, signer, receiver, Negated(w), false) <= 0
  {
  }

  /** No account that backs a bucket or the RAM market has lost anything. */
  predicate Undisturbed(b: Balances, c: Balances) {
    && BalanceOf(c, BPAY_ACCOUNT) >= BalanceOf(b, BPAY_ACCOUNT)
    && BalanceOf(c, VOTERS_ACCOUNT) >= BalanceOf(b, VOTERS_ACCOUNT)
    && BalanceOf(c, RAM_ACCOUNT) >= BalanceOf(b, RAM_ACCOUNT)
  }

  /** What eosio.stake holds has not changed either. */
  predicate StakeUndisturbed(b: Balances, c: Balances) {
    BalanceOf(c, STAKE_ACCOUNT) == BalanceOf(b, STAKE_ACCOUNT)
  }
}
