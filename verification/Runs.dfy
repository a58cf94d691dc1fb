/** The system contract as one state machine: all its actions, in any order, and what holds at the end of every run. */
module Runs {
  import opened Names
  import opened Bancor
  import opened RamMarketContract
  import opened VoteTables
  import opened ProxyForest
  import opened VotePay
  import opened VoterShares
  import opened VoteSpec
  import opened Revoting
  import opened VotingState
  import opened ProducerState
  import opened Voting
  import opened TokenLedger
  import opened Inflation
  import opened RewardPools
  import opened PowerupMarket
  import opened ResourceLedger
  import opened Resources
  import opened Bandwidth
  import opened Machine
  import Genesis

  // Actions on single tables

  /** The snapshot's voting tables. */
  ghost predicate Shows(s: Snapshot, voting: VotingEngine)
    reads voting
  {
    s.books == voting.TheBooks() && s.g == voting.g && s.h == voting.h
  }

  ghost function WithVotes(s: Snapshot, voting: VotingEngine): Snapshot
    reads voting
  {
    s.(books := voting.TheBooks(), g := voting.g, h := voting.h)
  }

  method CastVote(voting: VotingEngine, e: Event, ghost s: Snapshot)
    requires voting.TablesValid() && voting.h.latest <= e.now && e.factor > 0.0 && e.action.Vote? && Shows(s, voting)
    modifies voting
    ensures voting.TablesValid() && voting.h.latest <= e.now && SameStakes(old(voting.voters), voting.voters)
    ensures Follows(s, e, WithVotes(s, voting))
  {
    var ok := voting.VoteProducer(e.action.voter, e.action.ballot, e.factor, e.now);
    BallotFollows(s, e, WithVotes(s, voting));
  }

  method ChangeStatus(voting: VotingEngine, e: Event, ghost s: Snapshot)
    requires voting.TablesValid() && voting.h.latest <= e.now && e.factor > 0.0 && Proper(e.action) && e.action.RegProxy?
    requires Shows(s, voting)
    modifies voting
    ensures voting.TablesValid() && voting.h.latest <= e.now && SameStakes(old(voting.voters), voting.voters)
    ensures Follows(s, e, WithVotes(s, voting))
  {
    var ok := voting.RegProxy(e.action.proxy, e.action.isProxy, e.factor, e.now);
    StatusFollows(s, e, WithVotes(s, voting));
  }

  method ChangeVotes(voting: VotingEngine, e: Event, ghost s: Snapshot)
    requires voting.TablesValid() && voting.h.latest <= e.now && e.factor > 0.0 && Proper(e.action)
    requires (e.action.Vote? || e.action.RegProxy?) && Shows(s, voting)
    modifies voting
    ensures voting.TablesValid() && voting.h.latest <= e.now && SameStakes(old(voting.voters), voting.voters)
    ensures Follows(s, e, WithVotes(s, voting))
  {
    if e.action.Vote? {
      CastVote(voting, e, s);
    } else {
      ChangeStatus(voting, e, s);
    }
  }

  predicate OnProducers(a: Action) {
    a.RegProducer? || a.UnregProducer? || a.OnBlock?
  }

  method EnterProducer(voting: VotingEngine, e: Event, ghost s: Snapshot)
    requires voting.Valid() && voting.h.latest <= e.now && OnProducers(e.action) && Shows(s, voting)
    modifies voting, voting.pool`lastFill
    ensures voting.Valid() && voting.h.latest <= e.now && voting.voters == old(voting.voters)
    ensures old(voting.pool.lastFill) == 0 || voting.pool.lastFill == old(voting.pool.lastFill)
    ensures Follows(s, e, WithVotes(s, voting))
  {
    match e.action
    case RegProducer(producer, location) =>
      voting.RegisterProducer(producer, location, e.now);
    case UnregProducer(producer) =>
      var _ := voting.UnregisterProducer(producer, e.now);
    case OnBlock(producer) =>
      voting.ProduceBlock(producer, e.now);
  }

  ghost function WithClaims(s: Snapshot, voting: VotingEngine): Snapshot
    reads voting, voting.pool, voting.pool.token
  {
    WithVotes(s, voting).(balances := voting.pool.token.balances)
  }

  method ClaimAsProducer(voting: VotingEngine, e: Event, ghost s: Snapshot)
    requires voting.Valid() && voting.h.latest <= e.now && e.action.ClaimRewards? && Proper(e.action) && Shows(s, voting)
    modifies voting, voting.pool, voting.pool.token
    ensures voting.Valid() && voting.h.latest <= e.now
    ensures SameStakes(old(voting.voters), voting.voters) && voting.pool.GrewByFill()
    ensures StakeUndisturbed(old(voting.pool.token.balances), voting.pool.token.balances)
    ensures BalanceOf(voting.pool.token.balances, RAM_ACCOUNT) == BalanceOf(old(voting.pool.token.balances), RAM_ACCOUNT)
    ensures Follows(s, e, WithClaims(s, voting))
  {
    var ok, _ := voting.ClaimRewards(e.action.owner, e.now);
    ProducerClaimFollows(s, e, WithClaims(s, voting));
  }

  method ClaimAsVoter(voting: VotingEngine, e: Event, ghost s: Snapshot)
    requires voting.Valid() && voting.h.latest <= e.now && e.action.ClaimVote? && Proper(e.action) && Shows(s, voting)
    modifies voting, voting.pool, voting.pool.token
    ensures voting.Valid() && voting.h.latest <= e.now
    ensures SameStakes(old(voting.voters), voting.voters) && voting.pool.GrewByFill()
    ensures StakeUndisturbed(old(voting.pool.token.balances), voting.pool.token.balances)
    ensures BalanceOf(voting.pool.token.balances, RAM_ACCOUNT) == BalanceOf(old(voting.pool.token.balances), RAM_ACCOUNT)
    ensures Follows(s, e, WithClaims(s, voting))
  {
    var ok, _ := voting.ClaimVote(e.action.owner, e.now);
    VoterClaimFollows(s, e, WithClaims(s, voting));
  }

  method Claim(voting: VotingEngine, e: Event, ghost s: Snapshot)
    requires voting.Valid() && voting.h.latest <= e.now && Proper(e.action) && Shows(s, voting)
    requires e.action.ClaimRewards? || e.action.ClaimVote?
    modifies voting, voting.pool, voting.pool.token
    ensures voting.Valid() && voting.h.latest <= e.now
    ensures SameStakes(old(voting.voters), voting.voters) && voting.pool.GrewByFill()
    ensures StakeUndisturbed(old(voting.pool.token.balances), voting.pool.token.balances)
    ensures BalanceOf(voting.pool.token.balances, RAM_ACCOUNT) == BalanceOf(old(voting.pool.token.balances), RAM_ACCOUNT)
    ensures Follows(s, e, WithClaims(s, voting))
  {
    if e.action.ClaimRewards? {
      ClaimAsProducer(voting, e, s);
    } else {
      ClaimAsVoter(voting, e, s);
    }
  }

  /** The snapshot's staking tables. */
  ghost predicate ShowsStakes(s: Snapshot, resources: SystemResources)
    reads resources, resources.token, resources.voting
  {
    && Shows(s, resources.voting) && s.delegations == resources.delegations && s.refunds == resources.refunds
    && s.balances == resources.token.balances
  }

  ghost function WithStakes(s: Snapshot, resources: SystemResources): Snapshot
    reads resources, resources.token, resources.voting
  {
    WithVotes(s, resources.voting).(delegations := resources.delegations, refunds := resources.refunds,
                                    balances := resources.token.balances)
  }

  /** delegatebw, on the staking tables and the votes. */
  method PutUp(resources: SystemResources, e: Event, ghost s: Snapshot) returns (ok: bool)
    requires resources.Valid() && resources.voting.h.latest <= e.now && e.factor > 0.0
    requires Proper(e.action) && e.action.Delegate? && ShowsStakes(s, resources)
    modifies resources`delegations, resources`userres, resources`refunds, resources`totalStake, resources`drawn
    modifies resources.token, resources.voting
    ensures resources.Valid() && resources.voting.h.latest <= e.now
    ensures resources.StakeSettled(e.action.signer)
    ensures ok ==> Machine.Staked(s, e, WithStakes(s, resources))
    ensures !ok ==> NotStaked(s, e) && resources.StakingRolledBack()
  {
    var a := e.action;
    ok := resources.DelegateBandwidth(a.signer, a.receiver, a.amounts, a.transfer, a.wpsAccepts, e.factor, e.now);
  }

  method Stake(resources: SystemResources, e: Event, ghost s: Snapshot)
    requires resources.Valid() && resources.voting.h.latest <= e.now && e.factor > 0.0
    requires Proper(e.action) && e.action.Delegate? && ShowsStakes(s, resources)
    modifies resources`delegations, resources`userres, resources`refunds, resources`totalStake, resources`drawn
    modifies resources.token, resources.voting
    ensures resources.Valid() && resources.voting.h.latest <= e.now
    ensures resources.drawn == old(resources.drawn) && resources.token.supply == old(resources.token.supply)
    ensures Undisturbed(s.balances, resources.token.balances)
    ensures Follows(s, e, WithStakes(s, resources))
  {
    var ok := PutUp(resources, e, s);
    DelegationFollows(s, e, WithStakes(s, resources));
  }

  ghost predicate ShowsAll(s: Snapshot, resources: SystemResources, genesis: Genesis.GenesisProgram)
    reads resources, resources.token, resources.voting, genesis
  {
    ShowsStakes(s, resources) && s.genesis == genesis.rows
  }

  ghost function WithAll(s: Snapshot, resources: SystemResources, genesis: Genesis.GenesisProgram): Snapshot
    reads resources, resources.token, resources.voting, genesis
  {
    WithStakes(s, resources).(genesis := genesis.rows)
  }

  lemma SelfDelegatedNonneg(ds: Delegations, a: Name)
    requires DelegationsNonneg(ds)
    ensures DelegatedBoth(ds, a, a) >= 0
  {
  }

  /** The genesis balance has followed. */
  ghost predicate Settled(before: Genesis.Rows, after: Genesis.Rows, b: Balances, c: Balances, a: Name, self: int, now: int) {
    after == Genesis.Changed(before, a, self, now) && BurnedFrom(b, c, Genesis.Burned(before, a, self, now))
  }

  /** change_genesis, after stake was taken back. */
  method FollowGenesis(resources: SystemResources, genesis: Genesis.GenesisProgram, receiver: Name, now: int) returns (ok: bool)
    requires DelegationsNonneg(resources.delegations) && genesis.Valid() && genesis.latest <= now
    modifies genesis, genesis.token
    ensures genesis.Valid() && genesis.latest <= now
    ensures ok ==> Settled(old(genesis.rows), genesis.rows, old(genesis.token.balances), genesis.token.balances, receiver,
                           DelegatedBoth(resources.delegations, receiver, receiver), now)
    ensures ok <==> Genesis.CanChange(old(genesis.rows), old(genesis.token.balances), receiver,
                                      DelegatedBoth(resources.delegations, receiver, receiver), now)
    ensures Undisturbed(old(genesis.token.balances), genesis.token.balances)
    ensures StakeUndisturbed(old(genesis.token.balances), genesis.token.balances)
    ensures genesis.token.supply <= old(genesis.token.supply)
    ensures !ok ==> genesis.NothingRecorded() && genesis.token.balances == old(genesis.token.balances)
                    && genesis.token.supply == old(genesis.token.supply)
  {
    SelfDelegatedNonneg(resources.delegations, receiver);
    var self := 0;
    if (receiver, receiver) in resources.delegations {
      self := resources.delegations[(receiver, receiver)].net + resources.delegations[(receiver, receiver)].cpu;
    }
    var changed, _ := genesis.ChangeGenesis(receiver, self, now);
    ok := changed;
  }

  /** The snapshot after stake was taken back, before the genesis balance follows. */
  ghost predicate Unstaked(s: Snapshot, e: Event, t: Snapshot)
    requires e.action.Undelegate?
  {
    var a := e.action;
    && a.wpsAccepts && a.amounts.net >= 0 && a.amounts.cpu >= 0 && s.g.threshActivatedStakeTime != 0
    && CanStake(s.delegations, s.refunds, s.balances, a.signer, a.receiver, Negated(a.amounts), false)
    && StakeMoved(s, a.signer, a.signer, a.receiver, Negated(a.amounts), false, e, t)
    && t.balances == s.balances && t.genesis == s.genesis
  }

  /** undelegatebw, up to the genesis balance. */
  method TakeBack(resources: SystemResources, e: Event, ghost s: Snapshot) returns (ok: bool)
    requires resources.Valid() && resources.voting.h.latest <= e.now && e.factor > 0.0
    requires Proper(e.action) && e.action.Undelegate? && ShowsStakes(s, resources)
    modifies resources`delegations, resources`userres, resources`refunds, resources`totalStake, resources`drawn
    modifies resources.token, resources.voting
    ensures resources.Valid() && resources.voting.h.latest <= e.now
    ensures resources.drawn == old(resources.drawn) && resources.token.supply == old(resources.token.supply)
    ensures ok ==> Unstaked(s, e, WithStakes(s, resources))
    ensures !ok ==> NotUndelegated(s, e) && WithStakes(s, resources) == s
    ensures resources.token.balances == s.balances
  {
    var a := e.action;
    if a.amounts.net >= 0 && a.amounts.cpu >= 0 {
      UnstakingIsFree(resources.refunds, a.signer, a.receiver, a.amounts);
    }
    ok := resources.UndelegateBandwidth(a.signer, a.receiver, a.amounts, a.wpsAccepts, e.factor, e.now);
  }

  lemma UnstakedFollows(s: Snapshot, e: Event, mid: Snapshot, t: Snapshot)
    requires e.action.Undelegate? && Unstaked(s, e, mid)
    requires var a := e.action;
             var self := SelfDelegated(s.delegations, a.signer, a.receiver, a.amounts);
             && Genesis.CanChange(s.genesis, s.balances, a.receiver, self, e.now)
             && t.genesis == Genesis.Changed(s.genesis, a.receiver, self, e.now)
             && BurnedFrom(s.balances, t.balances, Genesis.Burned(s.genesis, a.receiver, self, e.now))
    requires t == mid.(balances := t.balances, genesis := t.genesis)
    ensures Follows(s, e, t)
  {
    UndelegationFollows(s, e, t);
  }

  /** The staking tables stay in order while the genesis balance follows. */
  method FollowStakes(resources: SystemResources, genesis: Genesis.GenesisProgram, receiver: Name, now: int) returns (ok: bool)
    requires resources.Valid() && genesis.Valid() && genesis.token == resources.token && genesis.latest <= now
    modifies genesis, resources.token
    ensures ok ==> resources.Valid()
    ensures genesis.Valid() && genesis.latest <= now
    ensures ok ==> Settled(old(genesis.rows), genesis.rows, old(resources.token.balances), resources.token.balances, receiver,
                           DelegatedBoth(resources.delegations, receiver, receiver), now)
    ensures ok <==> Genesis.CanChange(old(genesis.rows), old(resources.token.balances), receiver,
                                      DelegatedBoth(resources.delegations, receiver, receiver), now)
    ensures Undisturbed(old(resources.token.balances), resources.token.balances)
    ensures resources.token.supply <= old(resources.token.supply)
    ensures !ok ==> genesis.NothingRecorded()
  {
    ok := FollowGenesis(resources, genesis, receiver, now);
  }

  method TakeBackAndBurn(resources: SystemResources, genesis: Genesis.GenesisProgram, e: Event, ghost s: Snapshot)
    requires resources.Valid() && resources.voting.h.latest <= e.now && e.factor > 0.0
    requires genesis.Valid() && genesis.token == resources.token && genesis.latest <= e.now
    requires Proper(e.action) && e.action.Undelegate? && ShowsAll(s, resources, genesis)
    requires var a := e.action;
             Genesis.CanChange(s.genesis, s.balances, a.receiver, SelfDelegated(s.delegations, a.signer, a.receiver, a.amounts), e.now)
    modifies resources`delegations, resources`userres, resources`refunds, resources`totalStake, resources`drawn
    modifies resources.token, resources.voting, genesis
    ensures resources.Valid() && resources.voting.h.latest <= e.now && genesis.Valid() && genesis.latest <= e.now
    ensures resources.drawn == old(resources.drawn) && resources.token.supply <= old(resources.token.supply)
    ensures Undisturbed(s.balances, resources.token.balances)
    ensures Follows(s, e, WithAll(s, resources, genesis))
  {
    var ok := TakeBack(resources, e, s);
    if ok {
      ghost var mid := WithStakes(s, resources);
      var followed := FollowStakes(resources, genesis, e.action.receiver, e.now);
      UnstakedFollows(s, e, mid, WithAll(s, resources, genesis));
    } else {
      UndelegationFollows(s, e, s);
    }
  }

  /**
   * undelegatebw.  The original finds that the genesis balance cannot follow only after the stake was taken back,
   * and then rolls everything back; here that is looked at first.
   */
  method Unstake(resources: SystemResources, genesis: Genesis.GenesisProgram, e: Event, ghost s: Snapshot)
    requires resources.Valid() && resources.voting.h.latest <= e.now && e.factor > 0.0
    requires genesis.Valid() && genesis.token == resources.token && genesis.latest <= e.now
    requires Proper(e.action) && e.action.Undelegate? && ShowsAll(s, resources, genesis)
    modifies resources`delegations, resources`userres, resources`refunds, resources`totalStake, resources`drawn
    modifies resources.token, resources.voting, genesis
    ensures resources.Valid() && resources.voting.h.latest <= e.now && genesis.Valid() && genesis.latest <= e.now
    ensures resources.drawn == old(resources.drawn) && resources.token.supply <= old(resources.token.supply)
    ensures Undisturbed(s.balances, resources.token.balances)
    ensures Follows(s, e, WithAll(s, resources, genesis))
  {
    var a := e.action;
    if Genesis.CanChange(genesis.rows, resources.token.balances, a.receiver,
                         SelfDelegated(resources.delegations, a.signer, a.receiver, a.amounts), e.now) {
      TakeBackAndBurn(resources, genesis, e, s);
    } else {
      UndelegationFollows(s, e, s);
    }
  }

  /** powerup, on the resources and the token alone. */
  method PowerUp(resources: SystemResources, e: Event)
    requires resources.LedgerValid() && resources.token.Valid()
    requires resources.InOrder(InSeconds(e.now)) && Proper(e.action) && e.action.Powerup?
    modifies resources`userres, resources`orders, resources`net, resources`cpu, resources`drawn, resources.token
    ensures resources.LedgerValid() && resources.token.Valid() && resources.InOrder(InSeconds(e.now))
    ensures resources.StakeHeld() == old(resources.StakeHeld())
    ensures resources.drawn == old(resources.drawn) && resources.token.supply == old(resources.token.supply)
    ensures Undisturbed(old(resources.token.balances), resources.token.balances)
  {
    var a := e.action;
    var _, _, _, _ := resources.Powerup(a.payer, a.receiver, a.days, a.netFrac, a.cpuFrac, a.maxPayment, InSeconds(e.now),
                                        e.decayNet, e.decayCpu);
  }

  predicate OnMarkets(a: Action) {
    a.CfgPowerup? || a.PowerupExec?
  }

  method ChangeMarkets(resources: SystemResources, e: Event)
    requires resources.LedgerValid() && resources.InOrder(InSeconds(e.now)) && OnMarkets(e.action)
    modifies resources`userres, resources`orders, resources`net, resources`cpu
    modifies resources`configured, resources`powerupDays, resources`minPowerupFee
    ensures resources.LedgerValid() && resources.InOrder(InSeconds(e.now))
  {
    match e.action
    case CfgPowerup(netArgs, cpuArgs, days, minFee) =>
      var _ := resources.CfgPowerup(netArgs, cpuArgs, days, minFee, InSeconds(e.now), e.decayNet, e.decayCpu);
    case PowerupExec(max) =>
      var _ := resources.PowerupExec(max, InSeconds(e.now), e.decayNet, e.decayCpu);
  }

  predicate OnRefunds(a: Action) {
    a.ClaimRefund? || a.RemoveRefund?
  }

  method ChangeRefunds(resources: SystemResources, e: Event, ghost s: Snapshot)
    requires resources.LedgerValid() && resources.StakesValid() && Proper(e.action) && OnRefunds(e.action)
    requires ShowsStakes(s, resources)
    modifies resources`refunds, resources`removed, resources.token
    ensures resources.StakesValid()
    ensures resources.removed == old(resources.removed) + RemovedBy(s, e)
    ensures resources.token.supply == old(resources.token.supply)
    ensures Undisturbed(s.balances, resources.token.balances)
    ensures Follows(s, e, WithStakes(s, resources))
  {
    match e.action
    case ClaimRefund(owner) =>
      var ok := resources.ClaimRefund(owner, e.now);
      OtherFollows(s, e, WithStakes(s, resources));
    case RemoveRefund(account, tokens) =>
      var ok := resources.RemoveRefund(account, tokens);
      OtherFollows(s, e, WithStakes(s, resources));
  }

  predicate OnRam(a: Action) {
    a.BuyRam? || a.BuyRamBytes? || a.SellRam? || a.SetRam? || a.SetRamRate?
  }

  /** The RAM market's actions touch none of the other backing accounts. */
  twostate predicate Traded(token: Token)
    reads token
  {
    && token.supply == old(token.supply) && StakeUndisturbed(old(token.balances), token.balances)
    && BalanceOf(token.balances, BPAY_ACCOUNT) == BalanceOf(old(token.balances), BPAY_ACCOUNT)
    && BalanceOf(token.balances, VOTERS_ACCOUNT) == BalanceOf(old(token.balances), VOTERS_ACCOUNT)
  }

  method Buy(ram: RamMarket, e: Event)
    requires ram.Valid() && Proper(e.action) && e.action.BuyRam?
    modifies ram, ram.token
    ensures ram.Valid() && Traded(ram.token)
  {
    var _, _ := ram.BuyRam(e.action.payer, e.action.receiver, e.action.quantity, e.slot);
  }

  method BuyBytes(ram: RamMarket, e: Event)
    requires ram.Valid() && Proper(e.action) && e.action.BuyRamBytes?
    modifies ram, ram.token
    ensures ram.Valid() && Traded(ram.token)
  {
    var _, _ := ram.BuyRamBytes(e.action.payer, e.action.receiver, e.action.requested, e.slot);
  }

  method SellBack(ram: RamMarket, e: Event)
    requires ram.Valid() && Proper(e.action) && e.action.SellRam?
    modifies ram, ram.token
    ensures ram.Valid() && Traded(ram.token)
  {
    var _, _ := ram.SellRam(e.action.account, e.action.bytes, e.slot);
  }

  method TradeRam(ram: RamMarket, e: Event)
    requires ram.Valid() && Proper(e.action) && OnRam(e.action)
    modifies ram, ram.token
    ensures ram.Valid() && Traded(ram.token)
    ensures TradesOrPays(e.action) || ram.token.balances == old(ram.token.balances)
  {
    match e.action
    case BuyRam(_, _, _) => Buy(ram, e);
    case BuyRamBytes(_, _, _) => BuyBytes(ram, e);
    case SellRam(_, _) => SellBack(ram, e);
    case SetRam(size) =>
      var _ := ram.SetRam(size);
    case SetRamRate(rate) =>
      ram.SetRamRate(e.slot, rate);
  }

  /** claimgenesis pays what is due, or changes nothing. */
  ghost predicate EntitlementPaid(before: Genesis.Rows, after: Genesis.Rows, b: Balances, c: Balances, a: Name, now: int) {
    || (after == before && c == b)
    || (a in before && after == Genesis.AfterClaim(before, a, now)
        && c == Moved(b, GENESIS_ACCOUNT, a, Genesis.Unclaimed(before[a], now)))
  }

  method ClaimEntitlement(genesis: Genesis.GenesisProgram, e: Event)
    requires genesis.Valid() && genesis.latest <= e.now && Proper(e.action) && e.action.ClaimGenesis?
    modifies genesis, genesis.token
    ensures genesis.Valid() && genesis.latest <= e.now && genesis.token.supply == old(genesis.token.supply)
    ensures Undisturbed(old(genesis.token.balances), genesis.token.balances)
    ensures StakeUndisturbed(old(genesis.token.balances), genesis.token.balances)
    ensures EntitlementPaid(old(genesis.rows), genesis.rows, old(genesis.token.balances), genesis.token.balances,
                            e.action.owner, e.now)
  {
    var _, _ := genesis.ClaimGenesis(e.action.owner, e.now);
  }

  class System {
    const token: Token
    const pool: RewardPool
    const voting: VotingEngine
    const resources: SystemResources
    const ram: RamMarket
    const genesis: Genesis.GenesisProgram

    /** They all use one token, and staking uses the one voting engine. */
    ghost predicate Wired() {
      && pool.token == token && voting.pool == pool && resources.token == token && resources.voting == voting
      && ram.token == token && genesis.token == token
    }

    /** What holds between actions. */
    ghost predicate Valid()
      reads token, pool, voting, resources, ram, genesis
    {
      Wired() && resources.Valid() && pool.Valid() && ram.Valid() && genesis.Valid()
    }

    constructor (token: Token, pool: RewardPool, voting: VotingEngine, resources: SystemResources, ram: RamMarket,
                 genesis: Genesis.GenesisProgram)
      requires pool.token == token && voting.pool == pool && resources.token == token && resources.voting == voting
      requires ram.token == token && genesis.token == token
      requires resources.Valid() && pool.Valid() && ram.Valid() && genesis.Valid()
      ensures Valid()
      ensures this.token == token && this.pool == pool && this.voting == voting
      ensures this.resources == resources && this.ram == ram && this.genesis == genesis
    {
      this.token, this.pool, this.voting, this.resources := token, pool, voting, resources;
      this.ram, this.genesis := ram, genesis;
    }

    ghost function Now(): Snapshot
      reads token, voting, resources, genesis
    {
      Snapshot(voting.TheBooks(), voting.g, voting.h, resources.delegations, resources.refunds, token.balances, genesis.rows)
    }

    /** The present is not before the latest action. */
    ghost predicate Ready(now: int)
      reads voting, resources, genesis
    {
      voting.h.latest <= now && genesis.latest <= now && resources.InOrder(InSeconds(now))
    }

    /** What every action does to what a run is remembered by. */
    twostate predicate Acted(e: Event)
      reads token, pool, voting, resources, genesis
    {
      && Follows(old(Now()), e, Now())
      && resources.removed == old(resources.removed) + RemovedBy(old(Now()), e)
      && resources.drawn == old(resources.drawn)
      && GrowsByFills(old(token.supply), old(pool.lastFill), token.supply, pool.lastFill)
    }

    method ActOnVotes(e: Event)
      requires Valid() && Ready(e.now) && e.factor > 0.0 && Proper(e.action) && (e.action.Vote? || e.action.RegProxy?)
      modifies voting
      ensures Valid() && Ready(e.now) && Acted(e)
    {
      ghost var s, vs := Now(), voting.voters;
      ChangeVotes(voting, e, s);
      assert Now() == WithVotes(s, voting);
      SameStakesKeepLedger(resources.delegations, vs, voting.voters);
    }

    method ActOnProducers(e: Event)
      requires Valid() && Ready(e.now) && OnProducers(e.action)
      modifies voting, pool`lastFill
      ensures Valid() && Ready(e.now) && Acted(e)
    {
      ghost var s := Now();
      EnterProducer(voting, e, s);
      assert Now() == WithVotes(s, voting);
    }

    method ActOnClaims(e: Event)
      requires Valid() && Ready(e.now) && Proper(e.action) && (e.action.ClaimRewards? || e.action.ClaimVote?)
      modifies voting, pool, token
      ensures Valid() && Ready(e.now) && Acted(e)
    {
      ghost var s, vs := Now(), voting.voters;
      Claim(voting, e, s);
      assert Now() == WithClaims(s, voting);
      SameStakesKeepLedger(resources.delegations, vs, voting.voters);
    }

    method ActOnStake(e: Event)
      requires Valid() && Ready(e.now) && e.factor > 0.0 && Proper(e.action) && e.action.Delegate?
      modifies resources`delegations, resources`userres, resources`refunds, resources`totalStake, resources`drawn
      modifies token, voting
      ensures Valid() && Ready(e.now) && Acted(e)
    {
      ghost var s := Now();
      Stake(resources, e, s);
      assert Now() == WithStakes(s, resources);
    }

    method ActOnUnstake(e: Event)
      requires Valid() && Ready(e.now) && e.factor > 0.0 && Proper(e.action) && e.action.Undelegate?
      modifies resources`delegations, resources`userres, resources`refunds, resources`totalStake, resources`drawn
      modifies token, voting, genesis
      ensures Valid() && Ready(e.now) && Acted(e)
    {
      ghost var s := Now();
      Unstake(resources, genesis, e, s);
      BalanceAtMostSupply(token.balances, token.supply, STAKE_ACCOUNT);
      assert Now() == WithAll(s, resources, genesis);
    }

    method ActOnPowerup(e: Event)
      requires Valid() && Ready(e.now) && Proper(e.action) && e.action.Powerup?
      modifies resources`userres, resources`orders, resources`net, resources`cpu, resources`drawn, token
      ensures Valid() && Ready(e.now) && Acted(e)
    {
      ghost var s := Now();
      PowerUp(resources, e);
      MarketFollows(s, e, Now());
    }

    method ActOnMarkets(e: Event)
      requires Valid() && Ready(e.now) && OnMarkets(e.action)
      modifies resources`userres, resources`orders, resources`net, resources`cpu
      modifies resources`configured, resources`powerupDays, resources`minPowerupFee
      ensures Valid() && Ready(e.now) && Acted(e)
    {
      ghost var s := Now();
      ChangeMarkets(resources, e);
      MarketFollows(s, e, Now());
    }

    method ActOnRefunds(e: Event)
      requires Valid() && Ready(e.now) && Proper(e.action) && OnRefunds(e.action)
      modifies resources`refunds, resources`removed, token
      ensures Valid() && Ready(e.now) && Acted(e)
    {
      ghost var s := Now();
      ChangeRefunds(resources, e, s);
      assert Now() == WithStakes(s, resources);
    }

    method ActOnRam(e: Event)
      requires Valid() && Ready(e.now) && Proper(e.action) && OnRam(e.action)
      modifies ram, token
      ensures Valid() && Ready(e.now) && Acted(e)
    {
      ghost var s := Now();
      TradeRam(ram, e);
      MarketFollows(s, e, Now());
    }

    method ActOnGenesis(e: Event)
      requires Valid() && Ready(e.now) && Proper(e.action) && e.action.ClaimGenesis?
      modifies genesis, token
      ensures Valid() && Ready(e.now) && Acted(e)
    {
      ghost var s := Now();
      ClaimEntitlement(genesis, e);
      OtherFollows(s, e, Now());
    }

    method Act(e: Event)
      requires Valid() && Ready(e.now) && e.factor > 0.0 && Proper(e.action)
      modifies token, pool, voting, resources, ram, genesis
      ensures Valid() && Ready(e.now) && Acted(e)
    {
      if e.action.Delegate? {
        ActOnStake(e);
      } else if e.action.Undelegate? {
        ActOnUnstake(e);
      } else if OnRefunds(e.action) {
        ActOnRefunds(e);
      } else if OnMarkets(e.action) {
        ActOnMarkets(e);
      } else if e.action.Powerup? {
        ActOnPowerup(e);
      } else if e.action.Vote? || e.action.RegProxy? {
        ActOnVotes(e);
      } else if OnProducers(e.action) {
        ActOnProducers(e);
      } else if e.action.ClaimRewards? || e.action.ClaimVote? {
        ActOnClaims(e);
      } else if OnRam(e.action) {
        ActOnRam(e);
      } else {
        ActOnGenesis(e);
      }
    }
  }

  // Runs

  /** Since an earlier fill, the supply has kept to a cap. */
  ghost predicate Capped(cap: real -> real, first: int, supply: int, lastFill: int) {
    first > 0 ==> Compounds(cap) && UnderCap(cap, supply, lastFill - first)
  }

  lemma CapStep(cap: real -> real, first: int, supply: int, lastFill: int, supplyNow: int, lastFillNow: int)
    requires Capped(cap, first, supply, lastFill) && GrowsByFills(supply, lastFill, supplyNow, lastFillNow)
    ensures Capped(cap, first, supplyNow, lastFillNow)
  {
    if first > 0 {
      StaysUnderCap(cap, supply, lastFill, supplyNow, lastFillNow, first);
    }
  }

  lemma OrderedNow(system: System)
    requires system.Valid()
    ensures Ordered(system.Now())
  {
    assert Sound(system.voting.TheBooks(), system.voting.g, system.voting.h);
  }

  /** One more event of a run: its trace grows, and the supply stays under a cap it has kept to since an earlier fill. */
  method Advance(system: System, run: seq<Event>, n: nat, ghost trace: seq<Snapshot>, ghost start: Snapshot,
                 ghost cap: real -> real, ghost first: int)
    returns (ghost further: seq<Snapshot>)
    requires system.Valid() && Timed(run) && n < |run| && system.Ready(run[n].now)
    requires SoFar(run, trace, n, start, system.Now())
    requires Capped(cap, first, system.token.supply, system.pool.lastFill)
    modifies system.token, system.pool, system.voting, system.resources, system.ram, system.genesis
    ensures system.Valid() && system.Ready(run[n].now)
    ensures SoFar(run, further, n + 1, start, system.Now())
    ensures system.resources.removed - RemovedIn(run, further, n + 1) == old(system.resources.removed) - RemovedIn(run, trace, n)
    ensures system.resources.drawn == old(system.resources.drawn)
    ensures Capped(cap, first, system.token.supply, system.pool.lastFill)
  {
    ghost var supply, lastFill, s := system.token.supply, system.pool.lastFill, system.Now();
    system.Act(run[n]);
    CapStep(cap, first, supply, lastFill, system.token.supply, system.pool.lastFill);
    OrderedNow(system);
    OneFurther(run, trace, n, start, s, system.Now());
    RemovedFurther(run, trace, n, s, system.Now());
    further := trace + [system.Now()];
  }

  method Trace(system: System, run: seq<Event>, ghost cap: real -> real, ghost first: int) returns (ghost trace: seq<Snapshot>)
    requires system.Valid() && Timed(run) && (run != [] ==> system.Ready(run[0].now))
    requires Capped(cap, first, system.token.supply, system.pool.lastFill)
    modifies system.token, system.pool, system.voting, system.resources, system.ram, system.genesis
    ensures system.Valid()
    ensures SoFar(run, trace, |run|, old(system.Now()), system.Now())
    ensures system.resources.removed == old(system.resources.removed) + RemovedIn(run, trace, |run|)
    ensures system.resources.drawn == old(system.resources.drawn)
    ensures Capped(cap, first, system.token.supply, system.pool.lastFill)
  {
    ghost var start := system.Now();
    var n := 0;
    trace := [start];
    OrderedNow(system);
    while n < |run|
      invariant n <= |run| && system.Valid() && (n < |run| ==> system.Ready(run[n].now))
      invariant SoFar(run, trace, n, start, system.Now())
      invariant system.resources.removed == old(system.resources.removed) + RemovedIn(run, trace, n)
      invariant system.resources.drawn == old(system.resources.drawn)
      invariant Capped(cap, first, system.token.supply, system.pool.lastFill)
    {
      trace := Advance(system, run, n, trace, start, cap, first);
      assert n + 1 < |run| ==> run[n].now <= run[n + 1].now;
      n := n + 1;
    }
  }

  // What every run leaves

  /** Tallies, lent weights and the overall weight are the folds they stand for, and none is negative. */
  ghost predicate TotalsFold(b: Books) {
    && (forall q: Name :: VotesOf(b.producers, q) == Tally(b.voters, q) >= 0.0)
    && (forall p {:trigger b.voters[p]} :: p in b.voters ==> b.voters[p].proxiedVoteWeight == ProxiedSum(b.voters, p) >= 0.0)
    && b.weight == AllVotes(b.producers)
  }

  /** The vote-pay accumulator, extrapolated to any time, is the sum of the producers' shares. */
  ghost predicate PayFolds(b: Books) {
    forall t :: b.pay.total + b.pay.rate * Seconds(t - b.pay.updated) == ShareSum(b.producers, b.rows, t)
  }

  /** And the voter-share accumulator that of the voters'. */
  ghost predicate SharesFold(b: Books, g: GlobalState) {
    forall t :: TotalShareAt(g, t) == UnpaidSum(b.voters, t)
  }

  lemma VotesMean(b: Books, g: GlobalState, h: History)
    requires Sound(b, g, h)
    ensures Acyclic(b.voters) && SharesFold(b, g)
    ensures h.exact ==> TotalsFold(b)
    ensures h.nonneg && h.onTime ==> PayFolds(b)
  {
    SoundIsAcyclic(b, g, h);
    SharesMean(b, g, h);
    if h.exact {
      TotalsAreFolds(b, g, h);
    }
    if h.nonneg && h.onTime {
      PayMeans(b, g, h);
    }
  }

  lemma SharesMean(b: Books, g: GlobalState, h: History)
    requires Sound(b, g, h)
    ensures SharesFold(b, g)
  {
    forall t
      ensures TotalShareAt(g, t) == UnpaidSum(b.voters, t)
    {
      AccumulatorsAreFolds(b, g, h, t);
    }
  }

  lemma PayMeans(b: Books, g: GlobalState, h: History)
    requires Sound(b, g, h) && h.nonneg && h.onTime
    ensures PayFolds(b)
  {
    forall t
      ensures b.pay.total + b.pay.rate * Seconds(t - b.pay.updated) == ShareSum(b.producers, b.rows, t)
    {
      AccumulatorsAreFolds(b, g, h, t);
    }
  }

  /** What the voting tables and the reward buckets satisfy. */
  ghost predicate VotesInOrder(voting: VotingEngine)
    reads voting, voting.pool, voting.pool.token
  {
    && Acyclic(voting.voters) && SharesFold(voting.TheBooks(), voting.g)
    && voting.g.totalVoteshareChangeRate == CreditSum(voting.voters, voting.credits)
    && (voting.h.exact ==> TotalsFold(voting.TheBooks()))
    && (voting.h.nonneg && voting.h.onTime ==> PayFolds(voting.TheBooks()))
    && voting.totalUnpaidBlocks == AllUnpaidBlocks(voting.producers)
    && 0 <= voting.pool.perblockBucket <= BalanceOf(voting.pool.token.balances, BPAY_ACCOUNT)
    && 0 <= voting.pool.votersBucket <= BalanceOf(voting.pool.token.balances, VOTERS_ACCOUNT)
  }

  /**
   * What the resources satisfy: each row of userres is what was delegated and ordered, and for the reserve what is not
   * sold; no market is sold beyond its weight; what is sold is what is ordered; each stake is what was delegated.
   */
  ghost predicate ResourcesInOrder(r: SystemResources)
    reads r, r.voting
  {
    && Balanced(r.userres, r.delegations, r.orders, Unsold(r.net, r.cpu))
    && 0 <= r.net.utilization <= r.net.weight && 0 <= r.net.adjustedUtilization <= r.net.weight
    && 0 <= r.cpu.utilization <= r.cpu.weight && 0 <= r.cpu.adjustedUtilization <= r.cpu.weight
    && AllOrdered(r.orders, Net) == r.net.utilization && AllOrdered(r.orders, Cpu) == r.cpu.utilization
    && StakesMatch(r.delegations, r.voting.voters)
  }

  /** What the RAM market satisfies: it can buy back all it sold, and eosio.ram holds the tokens that takes. */
  ghost predicate RamInOrder(ram: RamMarket)
    reads ram, ram.token
  {
    && ram.pool.quote >= ram.initialQuote && ram.pool.base * ram.pool.quote >= ram.initialQuote * ram.maxRamSize
    && ram.pool.base + ram.totalRamBytesReserved == ram.maxRamSize
    && 0 <= ram.totalRamStake <= BalanceOf(ram.token.balances, RAM_ACCOUNT)
  }

  /** What the genesis program satisfies: paid, burned and due stay within the opening entitlement. */
  ghost predicate GenesisInOrder(program: Genesis.GenesisProgram)
    reads program
  {
    forall a: Name :: program.Got(a) as real + Genesis.EntitlementOf(program.rows, a) <= program.opening(a)
  }

  lemma RatesMean(b: Books, g: GlobalState, h: History, credits: Credits)
    requires Sound(b, g, h) && RatesCredited(b.voters, credits)
    ensures g.totalVoteshareChangeRate == CreditSum(b.voters, credits)
  {
    RateIsCreditSum(b.voters, credits);
  }

  lemma VotingMeans(voting: VotingEngine)
    requires voting.Valid()
    ensures VotesInOrder(voting)
  {
    VotesMean(voting.TheBooks(), voting.g, voting.h);
    RatesMean(voting.TheBooks(), voting.g, voting.h, voting.credits);
  }

  lemma ResourcesMean(r: SystemResources)
    requires r.Valid()
    ensures ResourcesInOrder(r)
  {
  }

  lemma RamMeans(ram: RamMarket)
    requires ram.Valid()
    ensures RamInOrder(ram)
  {
    SolventQuote(ram.pool, ram.initialQuote, ram.maxRamSize);
  }

  lemma GenesisMeans(program: Genesis.GenesisProgram)
    requires program.Valid()
    ensures GenesisInOrder(program)
  {
    forall a: Name
      ensures program.Got(a) as real + Genesis.EntitlementOf(program.rows, a) <= program.opening(a)
    {
      assert program.AccountOk(program.rows, a);
    }
  }

  ghost predicate AllInOrder(system: System)
    reads system.token, system.pool, system.voting, system.resources, system.ram, system.genesis
    requires system.Wired()
  {
    VotesInOrder(system.voting) && ResourcesInOrder(system.resources) && RamInOrder(system.ram) && GenesisInOrder(system.genesis)
  }

  lemma AllMeans(system: System)
    requires system.Valid()
    ensures AllInOrder(system)
    ensures BalanceOf(system.token.balances, STAKE_ACCOUNT) + system.resources.drawn
            == AllDelegated(system.resources.delegations) + AllRefunds(system.resources.refunds) + system.resources.removed
  {
    VotingMeans(system.voting);
    ResourcesMean(system.resources);
    RamMeans(system.ram);
    GenesisMeans(system.genesis);
    StakesAreDelegations(system.resources.delegations, system.voting.voters);
  }

  /** What eosio.stake holds beyond all delegations and all pending refunds. */
  ghost function Surplus(system: System): int
    reads system.token, system.resources
  {
    BalanceOf(system.token.balances, STAKE_ACCOUNT)
    - AllDelegated(system.resources.delegations) - AllRefunds(system.resources.refunds)
  }

  /** The system as it starts: no votes, no stakes, all RAM free, and the rows of the genesis program. */
  method Launch(token: Token, older: Producers, blocks: int, maxRam: int, rows: Genesis.Rows, now: int)
    returns (system: System)
    requires token.Valid() && token.supply > 0 && BalanceOf(token.balances, STAKE_ACCOUNT) == 0
    requires Unvoted(older) && blocks == AllUnpaidBlocks(older) && maxRam > 0 && now > 0
    requires forall a :: a in rows ==> Genesis.RowOk(rows[a], now)
    ensures system.Valid() && system.Ready(now) && system.token == token && fresh(system)
    ensures system.voting.h == StartHistory(now) && Surplus(system) == 0
    ensures system.voting.TheBooks() == StartBooks(older) && system.genesis.rows == rows
  {
    var pool := new RewardPool(token);
    var voting := new VotingEngine(pool, older, blocks, now);
    var resources := new SystemResources(voting, token);
    var ram := new RamMarket(token, maxRam);
    var program := new Genesis.GenesisProgram(rows, token, now);
    system := new System(token, pool, voting, resources, ram, program);
    AllMeans(system);
  }

  /**
   * After any run of any actions, all of the above holds.  A run is exact if and only if no event of it suppresses a
   * change of vote weight; no tally was to go below zero if and only if no event was to take one there; and it is in time
   * if and only if every registration was.  What eosio.stake holds beyond all delegations and pending refunds has grown by
   * exactly what removerefund took away.  If fills had begun before, and those of the run cover no more than a year, the
   * supply has grown by at most five percent.
   */
  method Run(system: System, run: seq<Event>) returns (ghost trace: seq<Snapshot>)
    requires system.Valid() && Timed(run) && (run != [] ==> system.Ready(run[0].now))
    modifies system.token, system.pool, system.voting, system.resources, system.ram, system.genesis
    ensures system.Valid() && AllInOrder(system)
    ensures Led(run, trace) && trace[0] == old(system.Now()) && trace[|run|] == system.Now()
    ensures system.voting.h.exact
            <==> old(system.voting.h).exact && forall i :: 0 <= i < |run| ==> !Suppresses(trace[i], run[i])
    ensures system.voting.h.nonneg
            <==> old(system.voting.h).nonneg && forall i :: 0 <= i < |run| ==> !GoesNegative(trace[i], run[i])
    ensures system.voting.h.onTime
            <==> && old(system.voting.h).onTime
                 && forall i :: 0 <= i < |run| && run[i].action.RegProducer? ==>
                      InTime(trace[i].books, run[i].action.producer, run[i].now)
    ensures Surplus(system) == old(Surplus(system)) + RemovedIn(run, trace, |run|)
    ensures old(system.pool.lastFill) > 0 && system.pool.lastFill - old(system.pool.lastFill) <= USECONDS_PER_YEAR ==>
              system.token.supply as real <= 1.05 * old(system.token.supply) as real
  {
    ghost var first, start := system.pool.lastFill, system.Now();
    BalanceAtMostSupply(system.token.balances, system.token.supply, FEES_ACCOUNT);
    ghost var cap := YearlyCap(system.token.supply);
    AllMeans(system);
    trace := Trace(system, run, cap, first);
    AllMeans(system);
    AllOfIt(run, trace, start, system.Now());
    FlagsOfRun(run, trace, |run|);
  }
}
