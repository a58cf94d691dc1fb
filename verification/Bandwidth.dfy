/** The staking and powerup actions, on the tables they share. */
module Bandwidth {
  import opened Names
  import opened TokenLedger
  import opened FeeCurve
  import opened PowerupMarket
  import opened ResourceLedger
  import opened VoteSpec
  import opened VotingState
  import opened ProducerState
  import opened Voting
  import opened Resources

  /** While no change of vote weight has been suppressed, the votes follow every change of stake the ledger accepts. */
  lemma VotesAlwaysFollow(ds: Delegations, b: Books, g: GlobalState, h: History, from: Name, receiver: Name, w: Weights,
                          factor: real, now: int)
    requires StakesMatch(ds, b.voters) && DelegationsNonneg(ds) && Sound(b, g, h) && h.exact && from != NO_NAME
    requires DelegatedFrom(ds, from, receiver).net + w.net >= 0 && DelegatedFrom(ds, from, receiver).cpu + w.cpu >= 0
    ensures !NoStep(b, g, h, from, Both(w), factor, now)
  {
    NoStepExactly(b, g, h, from, Both(w), factor, now);
    DelegatedNonneg(ds, from, receiver, w);
    StakeStaysNonneg(ds, b.voters, from, receiver, w);
    CanRestakeExactly(b, g, h, from, Both(w), factor, now);
  }

  class SystemResources {
    var userres: Totals
    var delegations: Delegations
    var refunds: Refunds
    var totalStake: real

    var configured: bool
    var net: Market
    var cpu: Market
    var powerupDays: int
    var minPowerupFee: int
    var orders: Orders

    /** Accounts whose net or cpu limits are managed by the system account. */
    var managed: set<Name>

    const voting: VotingEngine
    const token: Token

    /** Refunds taken away by removerefund. */
    ghost var removed: int
    /** What eosio.stake has drawn on for itself: staked in its own name without paying, or paid in fees. */
    ghost var drawn: int

    /** userres, delegations and orders agree; utilization is what the open orders add up to. */
    ghost predicate LedgerValid()
      reads `userres, `delegations, `orders, `configured, `net, `cpu, `powerupDays, `minPowerupFee
    {
      && Balanced(userres, delegations, orders, Unsold(net, cpu))
      && DelegationsNonneg(delegations)
      && OrdersSold(orders, net, cpu)
      && MarketsOk(configured, net, cpu, orders)
      && (configured ==> powerupDays > 0 && minPowerupFee > 0)
    }

    /** The tokens held for staking, and what the staking account took of them for itself. */
    ghost function StakeHeld(): int
      reads `drawn, token
    {
      BalanceOf(token.balances, STAKE_ACCOUNT) + drawn
    }

    /** Stakes for voting follow the delegations. */
    ghost predicate StakesBooked()
      reads `delegations, `refunds, `totalStake, voting
    {
      && voting.TablesValid() && RefundsPositive(refunds)
      && StakesMatch(delegations, voting.voters)
      && totalStake == AllStakes(voting.voters) as real
    }

    /** The tokens held for them: all stakes, all pending refunds, all refunds taken away. */
    ghost predicate StakesCovered()
      reads `refunds, `removed, `drawn, voting, token
    {
      token.Valid() && StakeHeld() == AllStakes(voting.voters) + AllRefunds(refunds) + removed
    }

    ghost predicate StakesValid()
      reads `delegations, `refunds, `totalStake, `removed, `drawn, voting, token
    {
      StakesBooked() && StakesCovered()
    }

    ghost predicate Valid()
      reads this, voting, token
    {
      LedgerValid() && StakesValid()
    }

    /** Block time, in seconds, does not run backwards. */
    predicate InOrder(now: int)
      reads this
    {
      configured ==> net.utilizationTimestamp <= now
    }

    constructor (voting: VotingEngine, token: Token)
      requires voting.TablesValid() && voting.voters == map[]
      requires token.Valid() && BalanceOf(token.balances, STAKE_ACCOUNT) == 0
      ensures Valid() && this.voting == voting && this.token == token && !configured
      ensures userres == map[] && delegations == map[] && refunds == map[] && removed == 0 && drawn == 0
    {
      userres, delegations, refunds, totalStake, orders := map[], map[], map[], 0.0, map[];
      configured, net, cpu, powerupDays, minPowerupFee := false, UNCONFIGURED, UNCONFIGURED, 30, 0;
      managed, removed, drawn := {}, 0, 0;
      this.voting, this.token := voting, token;
      new;
      EmptyLedger(userres, delegations, orders);
      EmptyStakes(delegations, voting.voters, refunds);
    }

    /** adjust_resources. */
    method AdjustResources(account: Name, w: Weights, mustNotBeManaged: bool) returns (ok: bool)
      modifies `userres
      ensures ok <==> w == NOTHING || (&& TotalPart(old(userres), account, Net) + w.net >= 0
                                       && TotalPart(old(userres), account, Cpu) + w.cpu >= 0
                                       && (mustNotBeManaged ==> account !in managed))
      ensures userres == if ok && w != NOTHING then Adjusted(old(userres), account, w) else old(userres)
    {
      if w.net == 0 && w.cpu == 0 {
        return true;
      }
      var row := w;
      if account in userres {
        row := Weights(userres[account].net + w.net, userres[account].cpu + w.cpu);
      }
      if !(0 <= row.net) || !(0 <= row.cpu) {
        return false;
      }
      if mustNotBeManaged && account in managed {
        return false;
      }
      if row.net == 0 && row.cpu == 0 {
        userres := userres - {account};
      } else {
        userres := userres[account := row];
      }
      ok := true;
    }

    /** The loop of process_powerup_queue.  Its calls of adjust_resources never fail. */
    method TakeExpired(now: int, max: nat, ghost unsold: Weights) returns (freed: Weights)
      requires Balanced(userres, delegations, orders, unsold) && Nonneg(unsold)
      requires DelegationsNonneg(delegations) && OrdersPositive(orders)
      modifies `userres, `orders
      ensures orders == Drain(old(orders), now, max) && freed == Expiring(old(orders), now, max)
      ensures Balanced(userres, delegations, orders, unsold)
    {
      freed := NOTHING;
      var n := max;
      while n > 0
        invariant 0 <= n <= max
        invariant Drain(orders, now, n) == Drain(old(orders), now, max)
        invariant Balanced(userres, delegations, orders, unsold) && OrdersPositive(orders)
        invariant freed.net + Expiring(orders, now, n).net == Expiring(old(orders), now, max).net
        invariant freed.cpu + Expiring(orders, now, n).cpu == Expiring(old(orders), now, max).cpu
        decreases n
      {
        if orders == map[] {
          break;
        }
        FirstExists(orders);
        var it :| it in orders && forall j :: j in orders ==> Before(orders, it, j);
        FirstIsUnique(orders, it);
        if orders[it].expires > now {
          break;
        }
        freed := Weights(freed.net + orders[it].weights.net, freed.cpu + orders[it].weights.cpu);
        EndOrder(it, unsold);
        n := n - 1;
      }
    }

    method EndOrder(it: Name, ghost unsold: Weights)
      requires Balanced(userres, delegations, orders, unsold) && Nonneg(unsold)
      requires DelegationsNonneg(delegations) && OrdersPositive(orders) && it in orders
      modifies `userres, `orders
      ensures orders == old(orders) - {it} && OrdersPositive(orders)
      ensures Balanced(userres, delegations, orders, unsold)
    {
      var order := orders[it];
      OrderEnds(userres, delegations, orders, unsold, it);
      var adjusted := AdjustResources(order.owner, Weights(-order.weights.net, -order.weights.cpu), false);
      assert adjusted;
      orders := orders - {it};
    }

    /** process_powerup_queue: what becomes available is handed to the caller, for the reserve account. */
    method ProcessQueue(now: int, max: nat, decayNet: real, decayCpu: real) returns (available: Weights)
      requires LedgerValid() && configured && InOrder(now)
      modifies `userres, `orders, `net, `cpu
      ensures orders == Drain(old(orders), now, max)
      ensures net == Advanced(old(net), now, decayNet, Freed(old(orders), orders).net)
      ensures cpu == Advanced(old(cpu), now, decayCpu, Freed(old(orders), orders).cpu)
      ensures available == Weights(Unsold(net, cpu).net - Unsold(old(net), old(cpu)).net,
                                   Unsold(net, cpu).cpu - Unsold(old(net), old(cpu)).cpu)
      ensures Balanced(userres, delegations, orders, Unsold(old(net), old(cpu)))
    {
      ProcessedOk(orders, net, cpu, now, max, decayNet, decayCpu);
      ExpiringIsFreed(orders, now, max);
      ghost var unsold := Unsold(net, cpu);
      net, cpu := Decayed(net, now, decayNet), Decayed(cpu, now, decayCpu);
      var freed := TakeExpired(now, max, unsold);
      available := PassTime(now, freed);
    }

    /** The end of process_powerup_queue: utilization falls, and the weights catch up with their schedules. */
    method PassTime(now: int, freed: Weights) returns (available: Weights)
      requires Scheduled(net) && Scheduled(cpu) && net.initialTimestamp <= now && cpu.initialTimestamp <= now
      modifies `net, `cpu
      ensures net == Reweighed(old(net).(utilization := old(net).utilization - freed.net), now)
      ensures cpu == Reweighed(old(cpu).(utilization := old(cpu).utilization - freed.cpu), now)
      ensures available == Weights(Unsold(net, cpu).net - Unsold(old(net), old(cpu)).net,
                                   Unsold(net, cpu).cpu - Unsold(old(net), old(cpu)).cpu)
    {
      net := net.(utilization := net.utilization - freed.net);
      cpu := cpu.(utilization := cpu.utilization - freed.cpu);
      var weights := Weights(net.weight, cpu.weight);
      net, cpu := Reweighed(net, now), Reweighed(cpu, now);
      available := Weights(freed.net + (net.weight - weights.net), freed.cpu + (cpu.weight - weights.cpu));
    }

    /** What becomes available goes to the reserve account, which must not be managed. */
    method GiveToReserve(available: Weights, ghost before: Weights, ghost after: Weights) returns (ok: bool)
      requires Balanced(userres, delegations, orders, before) && DelegationsNonneg(delegations) && OrdersPositive(orders)
      requires after == Weights(before.net + available.net, before.cpu + available.cpu) && Nonneg(after)
      modifies `userres
      ensures ok <==> available == NOTHING || RESERVE_ACCOUNT !in managed
      ensures if ok then Balanced(userres, delegations, orders, after) else userres == old(userres)
    {
      ReserveMoves(userres, delegations, orders, before, after, available);
      ok := AdjustResources(RESERVE_ACCOUNT, available, true);
    }

    // Powerup actions

    twostate predicate MarketsRolledBack()
      reads `userres, `orders, `net, `cpu, `configured, `powerupDays, `minPowerupFee
    {
      && userres == old(userres) && orders == old(orders) && net == old(net) && cpu == old(cpu)
      && configured == old(configured) && powerupDays == old(powerupDays) && minPowerupFee == old(minPowerupFee)
    }

    method RestoreMarkets(ts: Totals, os: Orders, net: Market, cpu: Market)
      modifies `userres, `orders, `net, `cpu
      ensures userres == ts && orders == os && this.net == net && this.cpu == cpu
    {
      userres, orders, this.net, this.cpu := ts, os, net, cpu;
    }

    /** powerupexec: up to max expired orders are ended.  Only a managed reserve account can stop it. */
    method PowerupExec(max: nat, now: int, decayNet: real, decayCpu: real) returns (ok: bool)
      requires LedgerValid() && InOrder(now)
      modifies `userres, `orders, `net, `cpu
      ensures LedgerValid()
      ensures ok ==> old(configured)
      ensures old(configured) && RESERVE_ACCOUNT !in managed ==> ok
      ensures ok ==> && orders == Drain(old(orders), now, max)
                     && net == Advanced(old(net), now, decayNet, Freed(old(orders), orders).net)
                     && cpu == Advanced(old(cpu), now, decayCpu, Freed(old(orders), orders).cpu)
      ensures InOrder(now)
      ensures !ok ==> MarketsRolledBack()
    {
      if !configured {
        return false;
      }
      var ts, os, m, c := userres, orders, net, cpu;
      ok := EndExpired(max, now, decayNet, decayCpu);
      if !ok {
        RestoreMarkets(ts, os, m, c);
      }
    }

    method EndExpired(max: nat, now: int, decayNet: real, decayCpu: real) returns (ok: bool)
      requires LedgerValid() && configured && InOrder(now)
      modifies `userres, `orders, `net, `cpu
      ensures RESERVE_ACCOUNT !in managed ==> ok
      ensures orders == Drain(old(orders), now, max)
      ensures net == Advanced(old(net), now, decayNet, Freed(old(orders), orders).net)
      ensures cpu == Advanced(old(cpu), now, decayCpu, Freed(old(orders), orders).cpu)
      ensures ok ==> LedgerValid()
    {
      ghost var unsold := Unsold(net, cpu);
      ProcessedOk(orders, net, cpu, now, max, decayNet, decayCpu);
      var available := ProcessQueue(now, max, decayNet, decayCpu);
      ok := GiveToReserve(available, unsold, Unsold(net, cpu));
    }

    /** The part of powerup that is done for each resource. */
    static method Sell(m: Market, frac: int) returns (ok: bool, amount: int, fee: int, sold: Market)
      requires MarketOk(m) && frac >= 0
      ensures ok <==> Sellable(m, frac)
      ensures ok ==> amount == AmountFor(m, frac) && fee == FeeFor(m, frac) && sold == Sold(m, frac)
      ensures ok ==> SoldFairly(m, frac, amount, fee) && sold.utilization == m.utilization + amount <= m.weight
    {
      AmountNonneg(m, frac);
      if Sellable(m, frac) {
        SaleIsFair(m, frac);
      }
      if frac == 0 {
        return true, 0, 0, m;
      }
      amount := frac * m.weight / POWERUP_FRAC;
      if m.weight == 0 || !(m.utilization + amount <= m.weight) {
        return false, amount, 0, m;
      }
      fee := Fee(CurveOf(m), m.utilization, m.adjustedUtilization, amount);
      ok := fee > 0;
      sold := m.(utilization := m.utilization + amount);
    }

    /** What a powerup takes from each market, and its fee. */
    static method PricePowerup(net: Market, cpu: Market, netFrac: int, cpuFrac: int, minFee: int, maxPayment: int)
      returns (ok: bool, fee: int, amounts: Weights, netSold: Market, cpuSold: Market)
      requires MarketOk(net) && MarketOk(cpu)
      ensures ok <==> MayPowerup(net, cpu, netFrac, cpuFrac, minFee, maxPayment)
      ensures ok ==> && fee == FeeFor(net, netFrac) + FeeFor(cpu, cpuFrac)
                     && amounts == Weights(AmountFor(net, netFrac), AmountFor(cpu, cpuFrac))
                     && netSold == Sold(net, netFrac) && cpuSold == Sold(cpu, cpuFrac)
    {
      fee, amounts, netSold, cpuSold := 0, NOTHING, net, cpu;
      if netFrac < 0 || cpuFrac < 0 || netFrac > POWERUP_FRAC || cpuFrac > POWERUP_FRAC {
        return false, fee, amounts, net, cpu;
      }
      var netOk, netAmount, netFee, n := Sell(net, netFrac);
      var cpuOk, cpuAmount, cpuFee, c := Sell(cpu, cpuFrac);
      if !netOk || !cpuOk {
        return false, fee, amounts, net, cpu;
      }
      fee, amounts, netSold, cpuSold := netFee + cpuFee, Weights(netAmount, cpuAmount), n, c;
      ok := fee <= maxPayment && fee >= minFee;
    }

    /** An order and the two adjustments of userres it makes. */
    method RecordOrder(id: Name, order: Order, available: Weights, ghost before: Weights, ghost after: Weights)
      returns (ok: bool)
      requires Balanced(userres, delegations, orders, before) && DelegationsNonneg(delegations) && OrdersPositive(orders)
      requires Nonneg(before) && Nonneg(after) && Nonneg(order.weights) && order.weights != NOTHING && id !in orders
      requires after == Weights(before.net + available.net - order.weights.net,
                                before.cpu + available.cpu - order.weights.cpu)
      modifies `userres, `orders
      ensures ok ==> order.owner !in managed
      ensures order.owner !in managed && RESERVE_ACCOUNT !in managed ==> ok
      ensures orders == old(orders)[id := order]
      ensures ok ==> Balanced(userres, delegations, orders, after)
    {
      OrderBegins(userres, delegations, orders, before, id, order);
      orders := orders[id := order];
      ok := AdjustResources(order.owner, order.weights, true);
      if ok {
        ok := GiveToReserve(Weights(available.net - order.weights.net, available.cpu - order.weights.cpu), before, after);
      }
    }

    /** powerup, once time has passed for both markets and two expired orders are ended. */
    method BuyResources(receiver: Name, netFrac: int, cpuFrac: int, maxPayment: int, id: Name, now: int,
                        available: Weights, ghost before: Weights)
      returns (ok: bool, fee: int, order: Order, netSold: Market, cpuSold: Market)
      requires Balanced(userres, delegations, orders, before) && DelegationsNonneg(delegations) && Nonneg(before)
      requires MarketsOk(true, net, cpu, orders) && OrdersSold(orders, net, cpu) && id !in orders && minPowerupFee > 0
      requires Unsold(net, cpu) == Weights(before.net + available.net, before.cpu + available.cpu)
      modifies `userres, `orders
      ensures ok ==> MayPowerup(net, cpu, netFrac, cpuFrac, minPowerupFee, maxPayment) && receiver !in managed
      ensures MayPowerup(net, cpu, netFrac, cpuFrac, minPowerupFee, maxPayment) ==>
                receiver !in managed && RESERVE_ACCOUNT !in managed ==> ok
      ensures ok ==> && order.owner == receiver && order.expires == now + powerupDays * SECONDS_PER_DAY
                     && PoweredUp(net, cpu, old(orders), id, order, netFrac, cpuFrac, fee, netSold, cpuSold, orders)
                     && Balanced(userres, delegations, orders, Unsold(netSold, cpuSold))
    {
      var amounts;
      ok, fee, amounts, netSold, cpuSold := PricePowerup(net, cpu, netFrac, cpuFrac, minPowerupFee, maxPayment);
      order := Order(receiver, amounts, now + powerupDays * SECONDS_PER_DAY);
      if ok {
        SaleOk(orders, net, cpu, netFrac, cpuFrac, minPowerupFee, maxPayment, id, order);
        ok := RecordOrder(id, order, available, before, Unsold(netSold, cpuSold));
      }
    }

    method SellResources(receiver: Name, netFrac: int, cpuFrac: int, maxPayment: int, id: Name, now: int,
                         available: Weights, ghost before: Weights) returns (ok: bool, fee: int, order: Order)
      requires Balanced(userres, delegations, orders, before) && DelegationsNonneg(delegations) && Nonneg(before)
      requires MarketsOk(true, net, cpu, orders) && OrdersSold(orders, net, cpu) && id !in orders
      requires configured && powerupDays > 0 && minPowerupFee > 0
      requires Unsold(net, cpu) == Weights(before.net + available.net, before.cpu + available.cpu)
      modifies `userres, `orders, `net, `cpu
      ensures ok ==> MayPowerup(old(net), old(cpu), netFrac, cpuFrac, minPowerupFee, maxPayment) && receiver !in managed
      ensures MayPowerup(old(net), old(cpu), netFrac, cpuFrac, minPowerupFee, maxPayment) ==>
                receiver !in managed && RESERVE_ACCOUNT !in managed ==> ok
      ensures ok ==> && order.owner == receiver && order.expires == now + powerupDays * SECONDS_PER_DAY
                     && PoweredUp(old(net), old(cpu), old(orders), id, order, netFrac, cpuFrac, fee, net, cpu, orders)
      ensures ok ==> LedgerValid()
    {
      ghost var n, c, os := net, cpu, orders;
      var netSold, cpuSold;
      ok, fee, order, netSold, cpuSold := BuyResources(receiver, netFrac, cpuFrac, maxPayment, id, now, available, before);
      if ok {
        SaleOk(os, n, c, netFrac, cpuFrac, minPowerupFee, maxPayment, id, order);
        net, cpu := netSold, cpuSold;
      }
    }

    /** The markets when a powerup is priced: time has passed, and two expired orders are ended. */
    ghost function NetToSell(now: int, decayNet: real): Market
      requires LedgerValid() && configured && InOrder(now)
      reads this
    {
      Advanced(net, now, decayNet, Freed(orders, Drain(orders, now, 2)).net)
    }

    ghost function CpuToSell(now: int, decayCpu: real): Market
      requires LedgerValid() && configured && InOrder(now)
      reads this
    {
      Advanced(cpu, now, decayCpu, Freed(orders, Drain(orders, now, 2)).cpu)
    }

    lemma ToSellOk(now: int, decayNet: real, decayCpu: real)
      requires LedgerValid() && configured && InOrder(now)
      ensures MarketOk(NetToSell(now, decayNet)) && MarketOk(CpuToSell(now, decayCpu))
    {
      ProcessedOk(orders, net, cpu, now, 2, decayNet, decayCpu);
    }

    /** All of powerup but the payment. */
    method PlaceOrder(receiver: Name, netFrac: int, cpuFrac: int, maxPayment: int, now: int,
                      decayNet: real, decayCpu: real) returns (ok: bool, fee: int, order: Order, id: int)
      requires LedgerValid() && configured && InOrder(now)
      modifies `userres, `orders, `net, `cpu
      ensures IsNextKey(Drain(old(orders), now, 2), id)
      ensures var n, c := old(NetToSell(now, decayNet)), old(CpuToSell(now, decayCpu));
              && (ok ==> MayPowerup(n, c, netFrac, cpuFrac, minPowerupFee, maxPayment) && receiver !in managed && id < NO_KEY)
              && (MayPowerup(n, c, netFrac, cpuFrac, minPowerupFee, maxPayment) && id < NO_KEY ==>
                    receiver !in managed && RESERVE_ACCOUNT !in managed ==> ok)
              && (ok ==> && order.owner == receiver && order.expires == now + powerupDays * SECONDS_PER_DAY
                         && PoweredUp(n, c, Drain(old(orders), now, 2), id, order, netFrac, cpuFrac, fee, net, cpu, orders))
      ensures ok ==> LedgerValid()
    {
      ghost var unsold := Unsold(net, cpu);
      ProcessedOk(orders, net, cpu, now, 2, decayNet, decayCpu);
      var available := ProcessQueue(now, 2, decayNet, decayCpu);
      id := NextKey(orders);
      fee, order := 0, Order(receiver, NOTHING, now);
      ok := id < NO_KEY;
      if ok {
        ok, fee, order := SellResources(receiver, netFrac, cpuFrac, maxPayment, id, now, available, unsold);
      }
    }

    /** The fee goes to eosio.fees; what eosio.stake pays itself is drawn on its own account. */
    method PayFee(payer: Name, fee: int) returns (ok: bool)
      requires token.Valid()
      modifies `drawn, token
      ensures token.Valid() && token.supply == old(token.supply) && StakeHeld() == old(StakeHeld())
      ensures drawn == old(drawn) + if ok && payer == STAKE_ACCOUNT then fee else 0
      ensures token.Elsewhere({payer, FEES_ACCOUNT})
      ensures ok <==> CanMove(old(token.balances), payer, FEES_ACCOUNT, fee)
      ensures token.balances == if ok then Moved(old(token.balances), payer, FEES_ACCOUNT, fee) else old(token.balances)
    {
      ok := token.Transfer(payer, FEES_ACCOUNT, fee);
      if ok && payer == STAKE_ACCOUNT {
        drawn := drawn + fee;
      }
    }

    /** What a powerup that goes through does. */
    twostate predicate PowerupDone(payer: Name, order: Order, id: int, netFrac: int, cpuFrac: int, maxPayment: int,
                                   now: int, decayNet: real, decayCpu: real, fee: int)
      requires old(LedgerValid() && configured && InOrder(now))
      reads this, token
    {
      var n, c := old(NetToSell(now, decayNet)), old(CpuToSell(now, decayCpu));
      && IsNextKey(Drain(old(orders), now, 2), id) && id < NO_KEY
      && order.expires == now + powerupDays * 86400 && order.owner !in managed
      && MayPowerup(n, c, netFrac, cpuFrac, minPowerupFee, maxPayment)
      && PoweredUp(n, c, Drain(old(orders), now, 2), id, order, netFrac, cpuFrac, fee, net, cpu, orders)
      && CanMove(old(token.balances), payer, FEES_ACCOUNT, fee)
      && token.balances == Moved(old(token.balances), payer, FEES_ACCOUNT, fee)
    }

    /** What a powerup needs: resources for sale at an acceptable fee, accounts that are not managed, and the fee. */
    ghost predicate CanPowerup(payer: Name, receiver: Name, netFrac: int, cpuFrac: int, maxPayment: int,
                               now: int, decayNet: real, decayCpu: real)
      requires LedgerValid() && configured && InOrder(now)
      reads this, token
    {
      var n, c := NetToSell(now, decayNet), CpuToSell(now, decayCpu);
      && MayPowerup(n, c, netFrac, cpuFrac, minPowerupFee, maxPayment)
      && KeyLeft(Drain(orders, now, 2)) && receiver !in managed && RESERVE_ACCOUNT !in managed
      && CanMove(token.balances, payer, FEES_ACCOUNT, FeeFor(n, netFrac) + FeeFor(c, cpuFrac))
    }

    method OrderAndPay(payer: Name, receiver: Name, netFrac: int, cpuFrac: int, maxPayment: int,
                       now: int, decayNet: real, decayCpu: real) returns (ok: bool, fee: int, order: Order, id: int)
      requires LedgerValid() && configured && token.Valid() && InOrder(now)
      modifies `userres, `orders, `net, `cpu, `drawn, token
      ensures token.Valid() && token.supply == old(token.supply) && StakeHeld() == old(StakeHeld())
      ensures drawn == old(drawn) + if ok && payer == STAKE_ACCOUNT then fee else 0
      ensures token.Elsewhere({payer, FEES_ACCOUNT})
      ensures ok ==> LedgerValid() && order.owner == receiver
      ensures ok ==> PowerupDone(payer, order, id, netFrac, cpuFrac, maxPayment, now, decayNet, decayCpu, fee)
      ensures old(CanPowerup(payer, receiver, netFrac, cpuFrac, maxPayment, now, decayNet, decayCpu)) ==> ok
      ensures !ok ==> token.balances == old(token.balances)
    {
      ok, fee, order, id := PlaceOrder(receiver, netFrac, cpuFrac, maxPayment, now, decayNet, decayCpu);
      if ok {
        ok := PayFee(payer, fee);
      }
    }

    /** powerup: an order is placed, and its fee is paid. */
    method Powerup(payer: Name, receiver: Name, days: int, netFrac: int, cpuFrac: int, maxPayment: int,
                   now: int, decayNet: real, decayCpu: real) returns (ok: bool, fee: int, order: Order, id: int)
      requires LedgerValid() && token.Valid() && InOrder(now)
      modifies `userres, `orders, `net, `cpu, `drawn, token
      ensures LedgerValid() && token.Valid()
      ensures token.supply == old(token.supply) && StakeHeld() == old(StakeHeld())
      ensures drawn == old(drawn) + if ok && payer == STAKE_ACCOUNT then fee else 0
      ensures token.Elsewhere({payer, FEES_ACCOUNT})
      ensures ok ==> old(configured) && days == powerupDays && order.owner == receiver
      ensures ok ==> PowerupDone(payer, order, id, netFrac, cpuFrac, maxPayment, now, decayNet, decayCpu, fee)
      ensures ok ==> && 0 <= netFrac <= 1_000_000_000_000_000 && 0 <= cpuFrac <= 1_000_000_000_000_000
                     && minPowerupFee <= fee <= maxPayment
      ensures ok ==> forall n, c :: n == old(NetToSell(now, decayNet)) && c == old(CpuToSell(now, decayCpu)) ==>
                       FairlyPriced(n, c, netFrac, cpuFrac, order.weights, fee)
      ensures old(configured) && days == powerupDays ==>
                old(CanPowerup(payer, receiver, netFrac, cpuFrac, maxPayment, now, decayNet, decayCpu)) ==> ok
      ensures InOrder(now)
      ensures !ok ==> MarketsRolledBack() && token.balances == old(token.balances)
    {
      if !configured || days != powerupDays {
        return false, 0, Order(receiver, NOTHING, now), 0;
      }
      var ts, os, m, c := userres, orders, net, cpu;
      ghost var n, k := NetToSell(now, decayNet), CpuToSell(now, decayCpu);
      ToSellOk(now, decayNet, decayCpu);
      ok, fee, order, id := OrderAndPay(payer, receiver, netFrac, cpuFrac, maxPayment, now, decayNet, decayCpu);
      if ok {
        PowerupIsFair(n, k, netFrac, cpuFrac, order.weights, fee);
      } else {
        RestoreMarkets(ts, os, m, c);
      }
    }

    /** One market's part of cfgpowerup, up to the adjustment of the reserve account. */
    static method ConfigureMarket(m: Market, args: MarketConfig, known: bool, now: int) returns (ok: bool, c: Market)
      requires m.utilizationTimestamp == now && 0 <= m.utilization && 0 <= m.adjustedUtilization
      ensures ok <==> Reconfigurable(m, args, known, now)
      ensures ok ==> ConfigTaken(m, args, known, now, c)
      ensures ok ==> MarketOk(c) && c.utilization == m.utilization && c.utilizationTimestamp == now
    {
      c := m;
      if !Configurable(m, args, known, now) {
        return false, c;
      }
      ConfiguredIsScheduled(m, args, known, now);
      ReconfiguredOk(m, args, known, now);
      c := Reweighed(Configured(m, args, known, now), now);
      if !(c.weight >= c.utilization) {
        return false, c;
      }
      c := c.(adjustedUtilization := Min(c.adjustedUtilization, c.weight));
      ConfiguredTakes(m, args, known, now, c);
      ok := true;
    }

    /** Both markets' parts, from the time passed to the check of what was sold. */
    method ConfigureMarkets(netArgs: MarketConfig, cpuArgs: MarketConfig, now: int, decayNet: real, decayCpu: real)
      returns (ok: bool, n: Market, c: Market)
      requires LedgerValid() && InOrder(now)
      ensures ok <==> Accepting(netArgs, cpuArgs, now, decayNet, decayCpu)
      ensures ok ==> && ConfigTaken(Current(net, configured, now, decayNet), netArgs, configured, now, n)
                     && ConfigTaken(Current(cpu, configured, now, decayCpu), cpuArgs, configured, now, c)
      ensures ok ==> && MarketsOk(true, n, c, orders) && OrdersSold(orders, n, c) && Nonneg(Unsold(n, c))
                     && n.utilization == net.utilization && c.utilization == cpu.utilization
    {
      CurrentOk(net, configured, now, decayNet);
      CurrentOk(cpu, configured, now, decayCpu);
      n, c := Current(net, configured, now, decayNet), Current(cpu, configured, now, decayCpu);
      ok, n := ConfigureMarket(n, netArgs, configured, now);
      if ok {
        ok, c := ConfigureMarket(c, cpuArgs, configured, now);
      }
    }

    /** Both markets have taken their configuration, each in the state time has brought it to. */
    twostate predicate ConfigsTaken(netArgs: MarketConfig, cpuArgs: MarketConfig, now: int, decayNet: real, decayCpu: real)
      requires old(LedgerValid() && InOrder(now))
      reads `net, `cpu
    {
      && ConfigTaken(Current(old(net), old(configured), now, decayNet), netArgs, old(configured), now, net)
      && ConfigTaken(Current(old(cpu), old(configured), now, decayCpu), cpuArgs, old(configured), now, cpu)
    }

    /** Both accept it, and still hold what was sold. */
    predicate Accepting(netArgs: MarketConfig, cpuArgs: MarketConfig, now: int, decayNet: real, decayCpu: real)
      requires configured ==> Scheduled(net) && Scheduled(cpu) && net.initialTimestamp <= now && cpu.initialTimestamp <= now
      reads `net, `cpu, `configured
    {
      && Reconfigurable(Current(net, configured, now, decayNet), netArgs, configured, now)
      && Reconfigurable(Current(cpu, configured, now, decayCpu), cpuArgs, configured, now)
    }

    /** cfgpowerup.  After it, or between configurations, no market has sold more than its weight. */
    method CfgPowerup(netArgs: MarketConfig, cpuArgs: MarketConfig, days: Option<int>, minFee: Option<int>, now: int,
                      decayNet: real, decayCpu: real) returns (ok: bool)
      requires LedgerValid() && InOrder(now)
      modifies `userres, `net, `cpu, `configured, `powerupDays, `minPowerupFee
      ensures LedgerValid()
      ensures ok ==> old(Accepting(netArgs, cpuArgs, now, decayNet, decayCpu)) && configured
                     && ConfigsTaken(netArgs, cpuArgs, now, decayNet, decayCpu)
      ensures ok ==> && Taken(days, old(powerupDays), powerupDays) && powerupDays > 0
                     && Taken(minFee, old(minPowerupFee), minPowerupFee) && minPowerupFee > 0
                     && (minFee == None ==> old(configured))
      ensures && old(Accepting(netArgs, cpuArgs, now, decayNet, decayCpu)) && RESERVE_ACCOUNT !in managed
              && Default(days, old(powerupDays)) > 0 && Default(minFee, old(minPowerupFee)) > 0
              && (minFee == None ==> old(configured))
              ==> ok
      ensures InOrder(now)
      ensures !ok ==> && userres == old(userres) && net == old(net) && cpu == old(cpu) && configured == old(configured)
                      && powerupDays == old(powerupDays) && minPowerupFee == old(minPowerupFee)
    {
      var newDays, newFee := Default(days, powerupDays), Default(minFee, minPowerupFee);
      if (minFee == None && !configured) || !(newDays > 0) || !(newFee > 0) {
        return false;
      }
      ok := Configure(netArgs, cpuArgs, newDays, newFee, now, decayNet, decayCpu);
    }

    method Configure(netArgs: MarketConfig, cpuArgs: MarketConfig, days: int, minFee: int, now: int, decayNet: real, decayCpu: real)
      returns (ok: bool)
      requires LedgerValid() && InOrder(now) && days > 0 && minFee > 0
      modifies `userres, `net, `cpu, `configured, `powerupDays, `minPowerupFee
      ensures LedgerValid() && InOrder(now)
      ensures ok ==> old(Accepting(netArgs, cpuArgs, now, decayNet, decayCpu)) && configured
                     && ConfigsTaken(netArgs, cpuArgs, now, decayNet, decayCpu)
      ensures ok ==> powerupDays == days && minPowerupFee == minFee
      ensures old(Accepting(netArgs, cpuArgs, now, decayNet, decayCpu)) && RESERVE_ACCOUNT !in managed ==> ok
      ensures !ok ==> && userres == old(userres) && net == old(net) && cpu == old(cpu) && configured == old(configured)
                      && powerupDays == old(powerupDays) && minPowerupFee == old(minPowerupFee)
    {
      ghost var unsold := Unsold(net, cpu);
      var n, c;
      ok, n, c := ConfigureMarkets(netArgs, cpuArgs, now, decayNet, decayCpu);
      if ok {
        ok := GiveToReserve(Weights(n.weight - net.weight, c.weight - cpu.weight), unsold, Unsold(n, c));
      }
      if ok {
        net, cpu, configured, powerupDays, minPowerupFee := n, c, true, days, minFee;
      }
    }

    // Staking

    /** The delegation and the receiver's row of userres move together; the check on the latter cannot fail. */
    method MoveDelegation(from: Name, receiver: Name, w: Weights) returns (ok: bool)
      requires LedgerValid() && w != NOTHING
      modifies `delegations, `userres
      ensures LedgerValid()
      ensures var was := DelegatedFrom(old(delegations), from, receiver);
              ok <==> was.net + w.net >= 0 && was.cpu + w.cpu >= 0
      ensures ok ==> && delegations == Delegated(old(delegations), from, receiver, w)
                     && userres == Adjusted(old(userres), receiver, w)
      ensures !ok ==> delegations == old(delegations) && userres == old(userres)
    {
      var row := w;
      if (from, receiver) in delegations {
        var was := delegations[(from, receiver)];
        row := Weights(was.net + w.net, was.cpu + w.cpu);
      }
      if !(0 <= row.net) || !(0 <= row.cpu) {
        return false;
      }
      StakingKeepsLedger(userres, delegations, orders, Unsold(net, cpu), from, receiver, w);
      if row.net == 0 && row.cpu == 0 {
        delegations := delegations - {(from, receiver)};
      } else {
        delegations := delegations[(from, receiver) := row];
      }
      ok := AdjustResources(receiver, w, false);
      assert ok;
    }

    /** The part of changebw about the pending refund. */
    method UpdateRefund(from: Name, w: Weights, now: int) returns (rest: Weights)
      requires RefundsPositive(refunds) && SameSign(w) && w != NOTHING
      modifies `refunds
      ensures refunds == RefundAfter(old(refunds), from, w, now) && rest == StillToPay(old(refunds), from, w)
    {
      var netBalance, cpuBalance := w.net, w.cpu;
      if from in refunds {
        var r := refunds[from];
        if netBalance < 0 || cpuBalance < 0 {
          r := r.(requestTime := now);
        }
        r := r.(weights := Weights(r.weights.net - netBalance, r.weights.cpu));
        if r.weights.net < 0 {
          netBalance := -r.weights.net;
          r := r.(weights := Weights(0, r.weights.cpu));
        } else {
          netBalance := 0;
        }
        r := r.(weights := Weights(r.weights.net, r.weights.cpu - cpuBalance));
        if r.weights.cpu < 0 {
          cpuBalance := -r.weights.cpu;
          r := r.(weights := Weights(r.weights.net, 0));
        } else {
          cpuBalance := 0;
        }
        assert 0 <= r.weights.net && 0 <= r.weights.cpu;
        if r.weights.net == 0 && r.weights.cpu == 0 {
          refunds := refunds - {from};
        } else {
          refunds := refunds[from := r];
        }
      } else if netBalance < 0 || cpuBalance < 0 {
        var r := Refund(NOTHING, now);
        if netBalance < 0 {
          r := r.(weights := Weights(-netBalance, r.weights.cpu));
          netBalance := 0;
        }
        if cpuBalance < 0 {
          r := r.(weights := Weights(r.weights.net, -cpuBalance));
          cpuBalance := 0;
        }
        refunds := refunds[from := r];
      }
      rest := Weights(netBalance, cpuBalance);
    }

    /** The refund and the payment of a change of stake. */
    method FundStake(signer: Name, from: Name, receiver: Name, w: Weights, transfer: bool, now: int) returns (ok: bool)
      requires token.Valid() && RefundsPositive(refunds) && SameSign(w) && w != NOTHING
      modifies `refunds, `drawn, token
      ensures token.Valid() && token.supply == old(token.supply)
      ensures refunds == RefundsNext(old(refunds), signer, from, receiver, w, transfer, now)
      ensures var amount := StakePayment(old(refunds), signer, from, receiver, w, transfer);
              && (ok <==> amount <= 0 || CanMove(old(token.balances), signer, STAKE_ACCOUNT, amount))
              && token.balances == (if ok && amount > 0 then Moved(old(token.balances), signer, STAKE_ACCOUNT, amount)
                                    else old(token.balances))
              && drawn == old(drawn) + if signer == STAKE_ACCOUNT then (w.net + w.cpu) else 0
      ensures token.Elsewhere({signer, STAKE_ACCOUNT})
    {
      ok := true;
      if signer == STAKE_ACCOUNT {
        drawn := drawn + (w.net + w.cpu);
        return;
      }
      var rest := w;
      if (!transfer && from == receiver) || w.net + w.cpu < 0 {
        rest := UpdateRefund(from, w, now);
      }
      if 0 < rest.net + rest.cpu {
        ok := token.Transfer(signer, STAKE_ACCOUNT, rest.net + rest.cpu);
      }
    }

    /** What a change of stake that goes through does; the stake for voting follows, by Valid. */
    twostate predicate StakingDone(signer: Name, receiver: Name, w: Weights, transfer: bool, now: int)
      reads `delegations, `userres, `refunds, `totalStake, `drawn, token
    {
      var from := if transfer then receiver else signer;
      var amount := StakePayment(old(refunds), signer, from, receiver, w, transfer);
      && delegations == Delegated(old(delegations), from, receiver, w)
      && userres == Adjusted(old(userres), receiver, w)
      && refunds == RefundsNext(old(refunds), signer, from, receiver, w, transfer, now)
      && token.balances == StakePaid(old(token.balances), signer, amount)
      && drawn == old(drawn) + (if signer == STAKE_ACCOUNT then (w.net + w.cpu) else 0)
      && totalStake == old(totalStake) + (w.net + w.cpu) as real
      && token.supply == old(token.supply)
    }

    /** What is then on record, row by row. */
    twostate predicate StakeRecorded(signer: Name, receiver: Name, w: Weights, transfer: bool, now: int)
      reads `delegations, `userres, `refunds
    {
      var from := if transfer then receiver else signer;
      && RefundRecorded(old(refunds), signer, from, receiver, w, transfer, now, refunds)
      && RowsMoved(old(delegations), old(userres), from, receiver, w, delegations, userres)
    }

    /** The votes follow a change of stake. */
    twostate predicate VotesFollowed(from: Name, delta: int, factor: real, now: int)
      reads voting
    {
      StepsTo(old(voting.TheBooks()), old(voting.g), old(voting.h), from, delta, factor, now,
                voting.TheBooks(), voting.g, voting.h)
    }

    /** A change of stake, with the votes. */
    twostate predicate StakeChanged(signer: Name, receiver: Name, w: Weights, transfer: bool, factor: real, now: int)
      reads `delegations, `userres, `refunds, `totalStake, `drawn, token, voting
    {
      && old(CanStake(delegations, refunds, token.balances, signer, receiver, w, transfer))
      && StakingDone(signer, receiver, w, transfer, now)
      && VotesFollowed(if transfer then receiver else signer, Both(w), factor, now)
    }

    /** What a change of stake is refused for: what is wrong with it, or a vote that cannot follow. */
    ghost predicate StakeRefused(signer: Name, receiver: Name, w: Weights, transfer: bool, wpsAccepts: bool,
                                 factor: real, now: int)
      reads `delegations, `refunds, token, voting
    {
      || !wpsAccepts || !CanStake(delegations, refunds, token.balances, signer, receiver, w, transfer)
      || NoStep(voting.TheBooks(), voting.g, voting.h, if transfer then receiver else signer, Both(w), factor, now)
    }

    /** Whatever happens, only the signer and eosio.stake pay or are paid, and only eosio.stake draws on its own. */
    twostate predicate StakeSettled(signer: Name)
      reads `drawn, token
    {
      && token.Elsewhere({signer, STAKE_ACCOUNT}) && token.supply == old(token.supply)
      && (signer != STAKE_ACCOUNT ==> drawn == old(drawn))
    }

    twostate predicate StakingRolledBack()
      reads this, token, voting
    {
      && userres == old(userres) && delegations == old(delegations) && refunds == old(refunds)
      && totalStake == old(totalStake) && drawn == old(drawn)
      && token.balances == old(token.balances) && token.supply == old(token.supply) && voting.RolledBack()
    }

    /** changebw, up to the votes. */
    method MoveStake(signer: Name, from: Name, receiver: Name, w: Weights, transfer: bool, now: int) returns (ok: bool)
      requires LedgerValid() && token.Valid() && RefundsPositive(refunds)
      requires from == (if transfer then receiver else signer) && w != NOTHING && SameSign(w)
      modifies `delegations, `userres, `refunds, `totalStake, `drawn, token
      ensures LedgerValid() && token.Valid() && token.supply == old(token.supply) && RefundsPositive(refunds)
      ensures ok <==> CanStake(old(delegations), old(refunds), old(token.balances), signer, receiver, w, transfer)
      ensures StakeSettled(signer)
      ensures ok ==> StakingDone(signer, receiver, w, transfer, now)
    {
      FundingConserves(refunds, signer, from, receiver, w, transfer, now);
      ok := MoveDelegation(from, receiver, w);
      if ok {
        ok := FundStake(signer, from, receiver, w, transfer, now);
        totalStake := totalStake + (w.net + w.cpu) as real;
      }
    }

    /** The delegations, refunds and tokens have moved by a change of stake, and the votes have not. */
    ghost predicate StakeMoved(ds: Delegations, rs: Refunds, b: Balances, signer: Name, from: Name, receiver: Name, w: Weights,
                               transfer: bool, now: int)
      reads `delegations, `refunds, `totalStake, `removed, `drawn, voting, token
    {
      var amount := StakePayment(rs, signer, from, receiver, w, transfer);
      && StakesMatch(ds, voting.voters) && DelegationsNonneg(delegations)
      && RefundsPositive(rs) && RefundsPositive(refunds) && SameSign(w) && token.Valid()
      && delegations == Delegated(ds, from, receiver, w)
      && refunds == RefundsNext(rs, signer, from, receiver, w, transfer, now)
      && token.balances == (if amount > 0 then Moved(b, signer, STAKE_ACCOUNT, amount) else b)
      && totalStake == AllStakes(voting.voters) as real + (w.net + w.cpu) as real
      && BalanceOf(b, STAKE_ACCOUNT) + drawn - (if signer == STAKE_ACCOUNT then w.net + w.cpu else 0)
         == AllStakes(voting.voters) + AllRefunds(rs) + removed
    }

    method StepVotes(from: Name, delta: int, factor: real, now: int, ghost b: Books, ghost g: GlobalState, ghost h: History)
      returns (ok: bool)
      requires b == voting.TheBooks() && g == voting.g && h == voting.h
      requires voting.TablesValid() && now >= voting.h.latest && factor > 0.0 && from != NO_NAME
      modifies voting
      ensures voting.TablesValid() && voting.h.latest <= now
      ensures ok ==> StepsTo(b, g, h, from, delta, factor, now, voting.TheBooks(), voting.g, voting.h)
      ensures ok ==> forall v: Name :: StakeOf(voting.voters, v) == StakeOf(old(voting.voters), v) + if v == from then delta else 0
      ensures !ok ==> voting.RolledBack() && NoStep(b, g, h, from, delta, factor, now)
    {
      ok := voting.UpdateVotingPower(from, delta, factor, now);
    }

    /** The votes follow the stake. */
    method FollowStake(from: Name, delta: int, wpsAccepts: bool, factor: real, now: int,
                       ghost books: Books, ghost g: GlobalState, ghost h: History, ghost ds: Delegations, ghost rs: Refunds, ghost b: Balances, ghost signer: Name, ghost receiver: Name,
                       ghost w: Weights, ghost transfer: bool)
      returns (ok: bool)
      requires voting.TablesValid() && now >= voting.h.latest && factor > 0.0 && from != NO_NAME
      requires books == voting.TheBooks() && g == voting.g && h == voting.h
      requires StakeMoved(ds, rs, b, signer, from, receiver, w, transfer, now) && delta == w.net + w.cpu
      modifies voting
      ensures ok ==> wpsAccepts && StakesValid()
      ensures ok ==> StepsTo(books, g, h, from, delta, factor, now, voting.TheBooks(), voting.g, voting.h)
      ensures !ok ==> !wpsAccepts || NoStep(books, g, h, from, delta, factor, now)
      ensures voting.TablesValid() && voting.h.latest <= now && (!ok ==> voting.RolledBack())
    {
      ghost var vs := voting.voters;
      ok := wpsAccepts;
      if ok {
        ok := StepVotes(from, delta, factor, now, books, g, h);
      }
      if ok {
        StakeStaysBacked(ds, vs, voting.voters, rs, refunds, b, token.balances, signer, from, receiver, w, transfer, now);
      }
    }

    method RestoreStaking(ts: Totals, ds: Delegations, rs: Refunds, total: real, balances: Balances, supply: int,
                          ghost drew: int)
      modifies `delegations, `userres, `refunds, `totalStake, `drawn, token
      ensures userres == ts && delegations == ds && refunds == rs && totalStake == total && drawn == drew
      ensures token.balances == balances && token.supply == supply
    {
      userres, delegations, refunds, totalStake := ts, ds, rs, total;
      token.balances, token.supply := balances, supply;
      drawn := drew;
    }

    /** The tables, the tokens and the votes, moving together. */
    method Restake(signer: Name, from: Name, receiver: Name, w: Weights, transfer: bool, wpsAccepts: bool,
                   factor: real, now: int, ghost books: Books, ghost g: GlobalState, ghost h: History) returns (ok: bool)
      requires books == voting.TheBooks() && g == voting.g && h == voting.h
      requires Valid() && now >= voting.h.latest && factor > 0.0 && from != NO_NAME
      requires from == (if transfer then receiver else signer) && w != NOTHING && SameSign(w)
      modifies `delegations, `userres, `refunds, `totalStake, `drawn, token, voting
      ensures StakeSettled(signer)
      ensures ok ==> && wpsAccepts && old(CanStake(delegations, refunds, token.balances, signer, receiver, w, transfer))
                     && StakingDone(signer, receiver, w, transfer, now)
      ensures ok ==> StepsTo(books, g, h, from, Both(w), factor, now, voting.TheBooks(), voting.g, voting.h)
      ensures ok ==> Valid()
      ensures !ok ==> || !wpsAccepts || !old(CanStake(delegations, refunds, token.balances, signer, receiver, w, transfer))
                      || NoStep(books, g, h, from, Both(w), factor, now)
      ensures voting.TablesValid() && voting.h.latest <= now && (!ok ==> voting.RolledBack())
    {
      ghost var ds, rs, b := delegations, refunds, token.balances;
      ok := MoveStake(signer, from, receiver, w, transfer, now);
      if ok {
        assert voting.TheBooks() == books;
        ok := FollowStake(from, Both(w), wpsAccepts, factor, now, books, g, h, ds, rs, b, signer, receiver, w, transfer);
      }
    }

    method StakeOrRollBack(signer: Name, from: Name, receiver: Name, w: Weights, transfer: bool, wpsAccepts: bool,
                           factor: real, now: int) returns (ok: bool)
      requires Valid() && now >= voting.h.latest && factor > 0.0 && from != NO_NAME
      requires from == (if transfer then receiver else signer) && w != NOTHING && SameSign(w)
      modifies `delegations, `userres, `refunds, `totalStake, `drawn, token, voting
      ensures Valid() && voting.h.latest <= now
      ensures StakeSettled(signer)
      ensures ok ==> wpsAccepts && StakeChanged(signer, receiver, w, transfer, factor, now)
      ensures !ok ==> StakingRolledBack() && old(StakeRefused(signer, receiver, w, transfer, wpsAccepts, factor, now))
    {
      var ts, ds, rs, total, balances, supply := userres, delegations, refunds, totalStake, token.balances, token.supply;
      ghost var drew := drawn;
      ok := Restake(signer, from, receiver, w, transfer, wpsAccepts, factor, now, voting.TheBooks(), voting.g, voting.h);
      if !ok {
        RestoreStaking(ts, ds, rs, total, balances, supply, drew);
      }
    }

    /**
     * changebw.  It is refused exactly for what is wrong with the change of stake, or for a vote that cannot follow;
     * no check on the ledger refuses it.
     */
    method ChangeBandwidth(signer: Name, receiver: Name, w: Weights, transfer: bool, wpsAccepts: bool, factor: real, now: int)
      returns (ok: bool)
      requires Valid() && now >= voting.h.latest && factor > 0.0 && signer != NO_NAME && receiver != NO_NAME
      modifies `delegations, `userres, `refunds, `totalStake, `drawn, token, voting
      ensures Valid() && voting.h.latest <= now
      ensures StakeSettled(signer)
      ensures ok ==> wpsAccepts && StakeChanged(signer, receiver, w, transfer, factor, now)
      ensures ok ==> StakeRecorded(signer, receiver, w, transfer, now)
      ensures ok && w.net + w.cpu < 0 && signer != STAKE_ACCOUNT ==>
                var from := if transfer then receiver else signer;
                from in refunds && refunds[from].requestTime == now
      ensures ok && w.net + w.cpu > 0 ==>
                forall a :: a in refunds ==> a in old(refunds) && refunds[a].requestTime == old(refunds)[a].requestTime
      ensures !ok ==> StakingRolledBack() && old(StakeRefused(signer, receiver, w, transfer, wpsAccepts, factor, now))
    {
      if w.net == 0 && w.cpu == 0 {
        return false;
      }
      var sum := w.net + w.cpu;
      var magnitude := if sum < 0 then -sum else sum;
      if magnitude < (if w.net < 0 then -w.net else w.net) || magnitude < (if w.cpu < 0 then -w.cpu else w.cpu) {
        return false;
      }
      var from := if transfer then receiver else signer;
      StakeRowsMoved(delegations, userres, from, receiver, w);
      RefundsRecorded(refunds, signer, from, receiver, w, transfer, now);
      StakingKeepsTimes(refunds, signer, from, receiver, w, transfer, now);
      ok := StakeOrRollBack(signer, from, receiver, w, transfer, wpsAccepts, factor, now);
    }

    /** delegatebw: only staking may pass the stake on to the receiver, and not to oneself. */
    method DelegateBandwidth(signer: Name, receiver: Name, w: Weights, transfer: bool, wpsAccepts: bool, factor: real, now: int)
      returns (ok: bool)
      requires Valid() && now >= voting.h.latest && factor > 0.0 && signer != NO_NAME && receiver != NO_NAME
      modifies `delegations, `userres, `refunds, `totalStake, `drawn, token, voting
      ensures Valid() && voting.h.latest <= now
      ensures StakeSettled(signer)
      ensures ok ==> && w.net >= 0 && w.cpu >= 0 && (transfer ==> signer != receiver)
                     && wpsAccepts && StakeChanged(signer, receiver, w, transfer, factor, now)
      ensures ok ==> StakeRecorded(signer, receiver, w, transfer, now)
      ensures !ok ==> StakingRolledBack()
      ensures !ok ==> || w.net < 0 || w.cpu < 0 || (transfer && signer == receiver)
                      || old(StakeRefused(signer, receiver, w, transfer, wpsAccepts, factor, now))
    {
      if !(w.cpu >= 0) || !(w.net >= 0) || !(w.net + w.cpu > 0) || (transfer && signer == receiver) {
        return false;
      }
      ok := ChangeBandwidth(signer, receiver, w, transfer, wpsAccepts, factor, now);
    }

    /** undelegatebw, up to the genesis balance: nothing is unstaked before the chain is activated. */
    method UndelegateBandwidth(signer: Name, receiver: Name, w: Weights, wpsAccepts: bool, factor: real, now: int)
      returns (ok: bool)
      requires Valid() && now >= voting.h.latest && factor > 0.0 && signer != NO_NAME && receiver != NO_NAME
      modifies `delegations, `userres, `refunds, `totalStake, `drawn, token, voting
      ensures Valid() && voting.h.latest <= now
      ensures StakeSettled(signer)
      ensures ok ==> && w.net >= 0 && w.cpu >= 0 && old(voting.g).threshActivatedStakeTime != 0
                     && wpsAccepts && StakeChanged(signer, receiver, Negated(w), false, factor, now)
      ensures ok ==> StakeRecorded(signer, receiver, Negated(w), false, now)
      ensures ok && signer != STAKE_ACCOUNT ==> signer in refunds && refunds[signer].requestTime == now
      ensures ok && signer != STAKE_ACCOUNT ==> forall t :: t < now + REFUND_DELAY ==> !RefundDue(signer, t)
      ensures !ok ==> StakingRolledBack()
      ensures !ok ==> || w.net < 0 || w.cpu < 0 || old(voting.g).threshActivatedStakeTime == 0
                      || old(StakeRefused(signer, receiver, Negated(w), false, wpsAccepts, factor, now))
    {
      if !(w.cpu >= 0) || !(w.net >= 0) || !(w.net + w.cpu > 0) || voting.g.threshActivatedStakeTime == 0 {
        return false;
      }
      ok := ChangeBandwidth(signer, receiver, Negated(w), false, wpsAccepts, factor, now);
    }

    predicate RefundDue(owner: Name, now: int)
      reads `refunds
    {
      owner in refunds && refunds[owner].requestTime + REFUND_DELAY <= now
    }

    /** refund.  Unless eosio.stake has drawn on the tokens it holds for others, they always suffice. */
    method ClaimRefund(owner: Name, now: int) returns (ok: bool)
      requires LedgerValid() && StakesValid()
      modifies `refunds, token
      ensures StakesValid()
      ensures ok <==> && owner in old(refunds) && old(refunds)[owner].requestTime + 3 * 24 * 3600 * 1_000_000 <= now
                      && CanMove(old(token.balances), STAKE_ACCOUNT, owner, RefundOf(old(refunds), owner))
      ensures ok ==> && refunds == old(refunds) - {owner}
                     && token.balances == Moved(old(token.balances), STAKE_ACCOUNT, owner, RefundOf(old(refunds), owner))
      ensures old(RefundDue(owner, now)) && owner != STAKE_ACCOUNT ==> drawn <= 0 <= removed ==> ok
      ensures token.supply == old(token.supply) && token.Elsewhere({owner, STAKE_ACCOUNT})
      ensures !ok ==> refunds == old(refunds) && token.balances == old(token.balances)
    {
      if owner !in refunds || !(refunds[owner].requestTime + REFUND_DELAY <= now) {
        return false;
      }
      if drawn <= 0 <= removed {
        RefundCovered(delegations, voting.voters, BalanceOf(token.balances, STAKE_ACCOUNT), refunds, removed, owner);
      }
      ok := PayRefund(owner);
    }

    method PayRefund(owner: Name) returns (ok: bool)
      requires token.Valid() && RefundsPositive(refunds) && owner in refunds
      modifies `refunds, token
      ensures token.Valid() && RefundsPositive(refunds) && token.supply == old(token.supply)
      ensures ok <==> CanMove(old(token.balances), STAKE_ACCOUNT, owner, RefundOf(old(refunds), owner))
      ensures ok ==> && refunds == old(refunds) - {owner}
                     && token.balances == Moved(old(token.balances), STAKE_ACCOUNT, owner, RefundOf(old(refunds), owner))
      ensures !ok ==> refunds == old(refunds) && token.balances == old(token.balances)
      ensures BalanceOf(token.balances, STAKE_ACCOUNT) - AllRefunds(refunds)
              == old(BalanceOf(token.balances, STAKE_ACCOUNT) - AllRefunds(refunds))
    {
      if owner != STAKE_ACCOUNT {
        RefundPaid(refunds, token.balances, owner);
      }
      ok := token.Transfer(STAKE_ACCOUNT, owner, refunds[owner].weights.net + refunds[owner].weights.cpu);
      if ok {
        refunds := refunds - {owner};
      }
    }

    /** removerefund: part of a pending refund is taken away, and stays with eosio.stake. */
    method RemoveRefund(account: Name, tokens: int) returns (ok: bool)
      requires StakesValid()
      modifies `refunds, `removed
      ensures StakesValid()
      ensures ok <==> account in old(refunds) && RefundOf(old(refunds), account) >= tokens
      ensures ok ==> && RefundOf(refunds, account) == RefundOf(old(refunds), account) - tokens
                     && removed == old(removed) + tokens
                     && forall a: Name :: a != account ==> RefundOf(refunds, a) == RefundOf(old(refunds), a)
      ensures ok ==> RefundTaken(old(refunds), account, tokens, refunds)
      ensures !ok ==> refunds == old(refunds) && removed == old(removed)
    {
      ok := TakeRefund(account, tokens);
      if ok {
        removed := removed + tokens;
      }
    }

    method TakeRefund(account: Name, tokens: int) returns (ok: bool)
      requires RefundsPositive(refunds)
      modifies `refunds
      ensures RefundsPositive(refunds)
      ensures ok <==> account in old(refunds) && RefundOf(old(refunds), account) >= tokens
      ensures ok ==> && RefundOf(refunds, account) == RefundOf(old(refunds), account) - tokens
                     && forall a: Name :: a != account ==> RefundOf(refunds, a) == RefundOf(old(refunds), a)
      ensures ok ==> RefundTaken(old(refunds), account, tokens, refunds)
      ensures AllRefunds(refunds) == AllRefunds(old(refunds)) - if ok then tokens else 0
      ensures !ok ==> refunds == old(refunds)
    {
      if account !in refunds || !(refunds[account].weights.net + refunds[account].weights.cpu >= tokens) {
        return false;
      }
      ghost var rs := refunds;
      var r := refunds[account];
      if r.weights.net + r.weights.cpu == tokens {
        refunds := refunds - {account};
      } else if r.weights.net >= tokens {
        refunds := refunds[account := r.(weights := Weights(r.weights.net - tokens, r.weights.cpu))];
      } else {
        refunds := refunds[account := r.(weights := Weights(0, r.weights.cpu - (tokens - r.weights.net)))];
      }
      RefundRemoved(rs, account, tokens, refunds);
      ok := true;
    }
  }
}
