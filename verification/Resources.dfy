/** Staking and powering up: changebw, refund, removerefund, cfgpowerup, powerupexec and powerup, on their tables. */
module Resources {
  import opened Names
  import opened TokenLedger
  import opened FeeCurve
  import opened PowerupMarket
  import opened ResourceLedger
  import opened VotingState
  import opened ProducerState
  import opened Voting
  import V = VoteTables
  import IntSums

  const REFUND_DELAY: int := 3 * 86400 * 1_000_000

  const SECONDS_PER_DAY: int := 86400

  ghost function AllStakes(vs: V.Voters): int {
    IntSums.Total((v: Name) => StakeOf(vs, v))
  }

  ghost predicate RefundsPositive(rs: Refunds) {
    forall a :: a in rs ==> Nonneg(rs[a].weights) && rs[a].weights.net + rs[a].weights.cpu > 0
  }

  ghost function StakeGap(ds: Delegations, vs: V.Voters, v: Name): int {
    StakeOf(vs, v) - DelegatedBy(ds, v)
  }

  /** Each account's stake for voting is what it has delegated. */
  ghost predicate StakesMatch(ds: Delegations, vs: V.Voters) {
    forall v: Name {:trigger StakeGap(ds, vs, v)} :: StakeGap(ds, vs, v) == 0
  }

  lemma DelegatedByNonneg(ds: Delegations, v: Name)
    requires DelegationsNonneg(ds)
    ensures DelegatedBy(ds, v) >= 0
  {
    IntSums.TotalNonneg((t: Name) => DelegatedBoth(ds, v, t));
  }

  lemma StakesNonneg(ds: Delegations, vs: V.Voters)
    requires DelegationsNonneg(ds) && StakesMatch(ds, vs)
    ensures AllStakes(vs) >= 0
  {
    forall v: Name
      ensures StakeOf(vs, v) >= 0
    {
      DelegatedByNonneg(ds, v);
      assert StakeGap(ds, vs, v) == 0;
    }
    IntSums.TotalNonneg((v: Name) => StakeOf(vs, v));
  }

  lemma StakeMoves(vs: V.Voters, ws: V.Voters, v: Name, delta: int)
    requires forall u: Name :: StakeOf(ws, u) == StakeOf(vs, u) + if u == v then delta else 0
    ensures AllStakes(ws) == AllStakes(vs) + delta
  {
    IntSums.TotalPoint((u: Name) => StakeOf(vs, u), (u: Name) => StakeOf(ws, u), v);
  }

  /** Actions of the voting engine that leave stakes alone leave the staking ledger in order. */
  lemma SameStakesKeepLedger(ds: Delegations, vs: V.Voters, ws: V.Voters)
    requires SameStakes(vs, ws) && StakesMatch(ds, vs)
    ensures StakesMatch(ds, ws) && AllStakes(ws) == AllStakes(vs)
  {
    StakeMoves(vs, ws, NO_NAME, 0);
    forall v: Name
      ensures StakeGap(ds, ws, v) == 0
    {
      assert StakeGap(ds, vs, v) == 0;
    }
  }

  /** Unless eosio.stake has drawn on it for itself, or a refund was taken away twice, every pending refund is covered. */
  lemma RefundCovered(ds: Delegations, vs: V.Voters, held: int, rs: Refunds, removed: int, a: Name)
    requires DelegationsNonneg(ds) && StakesMatch(ds, vs) && RefundsPositive(rs) && removed >= 0
    requires held >= AllStakes(vs) + AllRefunds(rs) + removed
    ensures RefundOf(rs, a) <= held
  {
    StakesNonneg(ds, vs);
    IntSums.TotalAtLeast((b: Name) => RefundOf(rs, b), a);
  }

  // Refunds

  function PendingOf(rs: Refunds, a: Name): Weights {
    if a in rs then rs[a].weights else NOTHING
  }

  /** The pending refund after a change of stake: staking uses it up first, unstaking adds to it. */
  function RefundAfter(rs: Refunds, a: Name, w: Weights, now: int): Refunds {
    var was := PendingOf(rs, a);
    var left := Weights(if was.net < w.net then 0 else was.net - w.net, if was.cpu < w.cpu then 0 else was.cpu - w.cpu);
    if left == NOTHING then rs - {a}
    else rs[a := Refund(left, if a in rs && w.net >= 0 && w.cpu >= 0 then rs[a].requestTime else now)]
  }

  /** What staking still has to pay for after that. */
  function StillToPay(rs: Refunds, a: Name, w: Weights): Weights {
    var was := PendingOf(rs, a);
    Weights(if w.net < was.net then 0 else w.net - was.net, if w.cpu < was.cpu then 0 else w.cpu - was.cpu)
  }

  /** Nothing is lost: what is staked is what is paid and what the pending refund gives up. */
  lemma RefundConserves(rs: Refunds, a: Name, w: Weights, now: int)
    requires RefundsPositive(rs)
    ensures var ss := RefundAfter(rs, a, w, now);
            && RefundsPositive(ss)
            && StillToPay(rs, a, w).net + StillToPay(rs, a, w).cpu - w.net - w.cpu == AllRefunds(ss) - AllRefunds(rs)
  {
    RefundChanged(rs, RefundAfter(rs, a, w, now), a);
  }

  predicate SameSign(w: Weights) {
    (w.net >= 0 && w.cpu >= 0) || (w.net <= 0 && w.cpu <= 0)
  }

  /** Changes of one's own stake, and reductions, go through the pending refund. */
  predicate ThroughRefund(from: Name, receiver: Name, w: Weights, transfer: bool) {
    (!transfer && from == receiver) || (w.net + w.cpu) < 0
  }

  function RefundsNext(rs: Refunds, signer: Name, from: Name, receiver: Name, w: Weights, transfer: bool, now: int): Refunds {
    if signer != STAKE_ACCOUNT && ThroughRefund(from, receiver, w, transfer) then RefundAfter(rs, from, w, now) else rs
  }

  /** What is left of one part of a pending refund once some is staked again. */
  predicate UsedUp(pending: int, staked: int, left: int) {
    left == if pending > staked then pending - staked else 0
  }

  /**
   * What a change of stake leaves of the pending refunds.  Unstaking adds to the refund of the account whose stake it is,
   * and all of it then has to wait from now on; staking for oneself uses the refund up, and leaves its time; staking for
   * another, or by eosio.stake, leaves all refunds.
   */
  ghost predicate RefundRecorded(rs: Refunds, signer: Name, from: Name, receiver: Name, w: Weights, transfer: bool, now: int,
                                 ss: Refunds)
  {
    && ss - {from} == rs - {from}
    && if signer == STAKE_ACCOUNT then ss == rs
       else if w.net + w.cpu < 0 then
         && from in ss && ss[from].requestTime == now
         && ss[from].weights.net == (if from in rs then rs[from].weights.net else 0) - w.net
         && ss[from].weights.cpu == (if from in rs then rs[from].weights.cpu else 0) - w.cpu
       else if !transfer && from == receiver && from in rs then
         && (from in ss <==> rs[from].weights.net > w.net || rs[from].weights.cpu > w.cpu)
         && (from in ss ==> && ss[from].requestTime == rs[from].requestTime
                            && UsedUp(rs[from].weights.net, w.net, ss[from].weights.net)
                            && UsedUp(rs[from].weights.cpu, w.cpu, ss[from].weights.cpu))
       else ss == rs
  }

  lemma RefundsRecorded(rs: Refunds, signer: Name, from: Name, receiver: Name, w: Weights, transfer: bool, now: int)
    requires RefundsPositive(rs) && SameSign(w) && w != NOTHING
    ensures RefundRecorded(rs, signer, from, receiver, w, transfer, now,
                           RefundsNext(rs, signer, from, receiver, w, transfer, now))
  {
    if from !in rs {
      assert rs - {from} == rs;
    }
  }

  /** Staking starts no refund, and restarts none. */
  lemma StakingKeepsTimes(rs: Refunds, signer: Name, from: Name, receiver: Name, w: Weights, transfer: bool, now: int)
    requires RefundsPositive(rs) && SameSign(w) && w != NOTHING
    ensures var ss := RefundsNext(rs, signer, from, receiver, w, transfer, now);
            w.net + w.cpu > 0 ==> forall a :: a in ss ==> a in rs && ss[a].requestTime == rs[a].requestTime
  {
  }

  /** And of one row of the delegations and one of userres: each part moves, and a row worth nothing is left out. */
  predicate RowsMoved(ds: Delegations, ts: Totals, from: Name, receiver: Name, w: Weights, es: Delegations, us: Totals) {
    && DelegationMoved(ds, (from, receiver), w, es) && TotalMoved(ts, receiver, w, us)
  }

  predicate DelegationMoved(ds: Delegations, key: (Name, Name), w: Weights, es: Delegations) {
    && es - {key} == ds - {key}
    && (if key in es then es[key].net else 0) == (if key in ds then ds[key].net else 0) + w.net
    && (if key in es then es[key].cpu else 0) == (if key in ds then ds[key].cpu else 0) + w.cpu
    && (key in es ==> es[key].net != 0 || es[key].cpu != 0)
  }

  predicate TotalMoved(ts: Totals, a: Name, w: Weights, us: Totals) {
    && us - {a} == ts - {a}
    && (if a in us then us[a].net else 0) == (if a in ts then ts[a].net else 0) + w.net
    && (if a in us then us[a].cpu else 0) == (if a in ts then ts[a].cpu else 0) + w.cpu
    && (a in us ==> us[a].net != 0 || us[a].cpu != 0)
  }

  lemma StakeRowsMoved(ds: Delegations, ts: Totals, from: Name, receiver: Name, w: Weights)
    ensures RowsMoved(ds, ts, from, receiver, w, Delegated(ds, from, receiver, w), Adjusted(ts, receiver, w))
  {
  }

  /** The tokens that go to eosio.stake. */
  function StakePayment(rs: Refunds, signer: Name, from: Name, receiver: Name, w: Weights, transfer: bool): int {
    if signer == STAKE_ACCOUNT then 0
    else if ThroughRefund(from, receiver, w, transfer) then StillToPay(rs, from, w).net + StillToPay(rs, from, w).cpu
    else (w.net + w.cpu)
  }

  function StakePaid(b: Balances, signer: Name, amount: int): Balances {
    if amount > 0 then Moved(b, signer, STAKE_ACCOUNT, amount) else b
  }

  /** Together, the payment and the change of refunds are worth what is staked. */
  lemma FundingConserves(rs: Refunds, signer: Name, from: Name, receiver: Name, w: Weights, transfer: bool, now: int)
    requires RefundsPositive(rs) && SameSign(w)
    ensures var ss := RefundsNext(rs, signer, from, receiver, w, transfer, now);
            && RefundsPositive(ss)
            && StakePayment(rs, signer, from, receiver, w, transfer) >= 0
            && (signer != STAKE_ACCOUNT ==>
                  StakePayment(rs, signer, from, receiver, w, transfer) - (w.net + w.cpu) == AllRefunds(ss) - AllRefunds(rs))
            && (signer == STAKE_ACCOUNT ==> ss == rs)
  {
    RefundConserves(rs, from, w, now);
  }

  // The powerup queue

  /** The order of the queue: by expiry, then by id. */
  predicate Before(os: Orders, i: Name, j: Name)
    requires i in os && j in os
  {
    os[i].expires < os[j].expires || (os[i].expires == os[j].expires && i <= j)
  }

  predicate IsFirst(os: Orders, i: Name) {
    i in os && forall j :: j in os ==> Before(os, i, j)
  }

  lemma OneLess(os: Orders, i: Name)
    requires i in os
    ensures |os - {i}| == |os| - 1
  {
    assert (os - {i}).Keys == os.Keys - {i};
  }

  lemma {:induction false} FindFirst(os: Orders) returns (first: Name)
    requires os != map[]
    ensures IsFirst(os, first)
    decreases |os|
  {
    first :| first in os;
    var rest := os - {first};
    OneLess(os, first);
    if rest != map[] {
      var r := FindFirst(rest);
      var least := if Before(os, first, r) then first else r;
      forall j | j in os
        ensures Before(os, least, j)
      {
        if j != first {
          assert Before(rest, r, j);
        }
      }
      first := least;
    }
  }

  lemma FirstExists(os: Orders)
    requires os != map[]
    ensures exists i :: IsFirst(os, i)
  {
    var i := FindFirst(os);
  }

  ghost function First(os: Orders): (i: Name)
    requires os != map[]
    ensures IsFirst(os, i)
  {
    FirstExists(os);
    var i :| IsFirst(os, i);
    i
  }

  lemma FirstIsUnique(os: Orders, i: Name)
    requires IsFirst(os, i)
    ensures First(os) == i
  {
    assert Before(os, i, First(os)) && Before(os, First(os), i);
  }

  /** The queue after at most n expired orders are taken off its head. */
  ghost function Drain(os: Orders, now: int, n: nat): Orders
    decreases n
  {
    if n == 0 || os == map[] || os[First(os)].expires > now then os else Drain(os - {First(os)}, now, n - 1)
  }

  /** What is taken off: expired orders only, in the order of the queue. */
  lemma {:induction false} DrainTakesExpired(os: Orders, now: int, n: nat)
    ensures var left := Drain(os, now, n);
            && left.Keys <= os.Keys && (forall i :: i in left ==> left[i] == os[i])
            && (forall i :: i in os && i !in left ==> os[i].expires <= now)
            && (forall i, j :: i in os && i !in left && j in left ==> Before(os, i, j))
    decreases n
  {
    if n > 0 && os != map[] && os[First(os)].expires <= now {
      DrainTakesExpired(os - {First(os)}, now, n - 1);
    }
  }

  ghost predicate NoneExpired(os: Orders, now: int) {
    forall i :: i in os ==> os[i].expires > now
  }

  lemma NoEarlier(os: Orders, i: Name, now: int)
    requires IsFirst(os, i) && os[i].expires > now
    ensures NoneExpired(os, now)
  {
    forall j | j in os
      ensures os[j].expires > now
    {
      assert Before(os, i, j);
    }
  }

  /** At most n of them. */
  lemma {:induction false} DrainTakesAtMost(os: Orders, now: int, n: nat)
    ensures |os| - n <= |Drain(os, now, n)|
    decreases n
  {
    if n > 0 && os != map[] && os[First(os)].expires <= now {
      OneLess(os, First(os));
      DrainTakesAtMost(os - {First(os)}, now, n - 1);
    }
  }

  /** And fewer only if no expired order is left: every one can be reclaimed. */
  lemma {:induction false} DrainLeavesNone(os: Orders, now: int, n: nat)
    requires |os| - n < |Drain(os, now, n)|
    ensures NoneExpired(Drain(os, now, n), now)
    decreases n
  {
    if os != map[] {
      if n > 0 && os[First(os)].expires <= now {
        OneLess(os, First(os));
        DrainLeavesNone(os - {First(os)}, now, n - 1);
      } else if n > 0 {
        NoEarlier(os, First(os), now);
      }
    }
  }

  /** Taking one order off the queue: its owner's row can be reduced, and the ledger stays balanced. */
  lemma OrderEnds(ts: Totals, ds: Delegations, os: Orders, unsold: Weights, it: Name)
    requires Balanced(ts, ds, os, unsold) && Nonneg(unsold)
    requires DelegationsNonneg(ds) && OrdersPositive(os) && it in os
    ensures var owner, w := os[it].owner, os[it].weights;
            && TotalPart(ts, owner, Net) >= w.net && TotalPart(ts, owner, Cpu) >= w.cpu
            && Balanced(Adjusted(ts, owner, Weights(-w.net, -w.cpu)), ds, os - {it}, unsold)
            && OrdersPositive(os - {it})
  {
    var owner, w := os[it].owner, Weights(-os[it].weights.net, -os[it].weights.cpu);
    EndingBalanced(ts, ds, os, unsold, it);
    BalancedIsNonneg(Adjusted(ts, owner, w), ds, os - {it}, unsold, owner);
    AdjustedTotals(ts, owner, w, owner, Net);
    AdjustedTotals(ts, owner, w, owner, Cpu);
  }

  // The markets

  /** What each market has left to sell. */
  function Unsold(net: Market, cpu: Market): Weights {
    Weights(net.weight - net.utilization, cpu.weight - cpu.utilization)
  }

  /** What the orders between two queues add up to. */
  ghost function Freed(before: Orders, after: Orders): Weights {
    Weights(AllOrdered(before, Net) - AllOrdered(after, Net), AllOrdered(before, Cpu) - AllOrdered(after, Cpu))
  }

  /** What taking at most n expired orders off the queue frees. */
  ghost function Expiring(os: Orders, now: int, n: nat): Weights
    decreases n
  {
    if n == 0 || os == map[] || os[First(os)].expires > now then NOTHING
    else
      var w, rest := os[First(os)].weights, Expiring(os - {First(os)}, now, n - 1);
      Weights(w.net + rest.net, w.cpu + rest.cpu)
  }

  lemma {:induction false} ExpiringIsFreed(os: Orders, now: int, n: nat)
    ensures Expiring(os, now, n) == Freed(os, Drain(os, now, n))
    decreases n
  {
    if n > 0 && os != map[] && os[First(os)].expires <= now {
      OrderFreed(os, First(os));
      ExpiringIsFreed(os - {First(os)}, now, n - 1);
    }
  }

  lemma OrderFreed(os: Orders, it: Name)
    requires it in os
    ensures Freed(os, os - {it}) == os[it].weights
  {
    OrderRemoved(os, it);
  }

  ghost predicate OrdersSold(os: Orders, net: Market, cpu: Market) {
    OrdersPositive(os) && AllOrdered(os, Net) == net.utilization && AllOrdered(os, Cpu) == cpu.utilization
  }

  /** The key the table gives the next order: one more than the last, or zero. */
  predicate IsNextKey(os: Orders, id: int) {
    && (forall k :: k in os ==> k < id)
    && (if os == map[] then id == 0 else id > 0 && id - 1 in os.Keys)
  }

  /** The keys the table does not give out. */
  const NO_KEY: int := 0xffff_ffff_ffff_fffe

  predicate KeyLeft(os: Orders) {
    forall k :: k in os ==> k + 1 < NO_KEY
  }

  method NextKey(os: Orders) returns (id: int)
    ensures IsNextKey(os, id)
  {
    id := 0;
    var rest := os.Keys;
    while rest != {}
      invariant rest <= os.Keys && id >= 0
      invariant forall k :: k in os && k !in rest ==> k < id
      invariant id > 0 ==> id - 1 in os.Keys
      invariant id == 0 ==> rest == os.Keys
    {
      var k :| k in rest;
      if k >= id {
        id := k + 1;
      }
      rest := rest - {k};
    }
    assert id == 0 ==> os.Keys == {};
  }

  ghost predicate MarketsOk(configured: bool, net: Market, cpu: Market, os: Orders) {
    if configured then MarketOk(net) && MarketOk(cpu) && net.utilizationTimestamp == cpu.utilizationTimestamp
    else net == UNCONFIGURED && cpu == UNCONFIGURED && os == map[]
  }

  /** Orders taken off the queue free no more than was sold. */
  lemma FreedBounds(os: Orders, net: Market, cpu: Market, now: int, n: nat)
    requires OrdersSold(os, net, cpu)
    ensures var left := Drain(os, now, n);
            && OrdersPositive(left)
            && 0 <= Freed(os, left).net <= net.utilization && 0 <= Freed(os, left).cpu <= cpu.utilization
  {
    var left := Drain(os, now, n);
    DrainTakesExpired(os, now, n);
    forall k: Kind
      ensures 0 <= AllOrdered(left, k) <= AllOrdered(os, k)
    {
      var kept := (i: Name) => OrderPart(left, i, k);
      var taken := (i: Name) => if i !in left then OrderPart(os, i, k) else 0;
      var all := (i: Name) => OrderPart(os, i, k);
      IntSums.TotalNonneg(kept);
      IntSums.TotalNonneg(taken);
      IntSums.TotalAdd(kept, taken, all);
    }
    assert 0 <= AllOrdered(left, Net) <= AllOrdered(os, Net) && 0 <= AllOrdered(left, Cpu) <= AllOrdered(os, Cpu);
  }

  lemma NoDelegations(ds: Delegations, a: Name)
    requires ds == map[]
    ensures forall k: Kind :: DelegatedTo(ds, a, k) == 0
    ensures DelegatedBy(ds, a) == 0
  {
    forall k: Kind
      ensures DelegatedTo(ds, a, k) == 0
    {
      IntSums.TotalZero((f: Name) => DelegatedPart(ds, f, a, k));
    }
    IntSums.TotalZero((t: Name) => DelegatedBoth(ds, a, t));
  }

  lemma NoOrders(os: Orders, a: Name, k: Kind)
    requires os == map[]
    ensures OrderedBy(os, a, k) == 0 && AllOrdered(os, k) == 0
  {
    IntSums.TotalZero((id: Name) => OwnedPart(os, id, a, k));
    IntSums.TotalZero((id: Name) => OrderPart(os, id, k));
  }

  /** Empty tables are in order. */
  lemma EmptyLedger(ts: Totals, ds: Delegations, os: Orders)
    requires ts == map[] && ds == map[] && os == map[]
    ensures Balanced(ts, ds, os, NOTHING) && OrdersSold(os, UNCONFIGURED, UNCONFIGURED)
  {
    forall a: Name, k: Kind
      ensures LedgerGap(ts, ds, os, NOTHING, a, k) == 0
    {
      NoDelegations(ds, a);
      NoOrders(os, a, k);
    }
    NoOrders(os, NO_NAME, Net);
    NoOrders(os, NO_NAME, Cpu);
  }

  lemma EmptyStakes(ds: Delegations, vs: V.Voters, rs: Refunds)
    requires ds == map[] && vs == map[] && rs == map[]
    ensures StakesMatch(ds, vs) && AllStakes(vs) == 0 && AllRefunds(rs) == 0
  {
    forall v: Name
      ensures StakeGap(ds, vs, v) == 0
    {
      NoDelegations(ds, v);
    }
    IntSums.TotalZero((v: Name) => StakeOf(vs, v));
    IntSums.TotalZero((a: Name) => RefundOf(rs, a));
  }

  /** What a processed queue leaves of two markets in order. */
  lemma ProcessedOk(os: Orders, net: Market, cpu: Market, now: int, n: nat, decayNet: real, decayCpu: real)
    requires MarketsOk(true, net, cpu, os) && OrdersSold(os, net, cpu) && net.utilizationTimestamp <= now
    ensures var left := Drain(os, now, n);
            var freed := Freed(os, left);
            var net', cpu' := Advanced(net, now, decayNet, freed.net), Advanced(cpu, now, decayCpu, freed.cpu);
            && MarketsOk(true, net', cpu', left) && OrdersSold(left, net', cpu') && net'.utilizationTimestamp == now
            && Nonneg(Unsold(net, cpu))
            && Unsold(net', cpu').net >= Unsold(net, cpu).net && Unsold(net', cpu').cpu >= Unsold(net, cpu).cpu
  {
    FreedBounds(os, net, cpu, now, n);
    var freed := Freed(os, Drain(os, now, n));
    AdvancedOk(net, now, decayNet, freed.net);
    AdvancedOk(cpu, now, decayCpu, freed.cpu);
  }

  /** What the reserve account is given or gives up: its row can take it, and the ledger stays balanced. */
  lemma ReserveMoves(ts: Totals, ds: Delegations, os: Orders, before: Weights, after: Weights, w: Weights)
    requires Balanced(ts, ds, os, before) && after == Weights(before.net + w.net, before.cpu + w.cpu)
    requires DelegationsNonneg(ds) && OrdersPositive(os) && Nonneg(after)
    ensures TotalPart(ts, RESERVE_ACCOUNT, Net) + w.net >= 0 && TotalPart(ts, RESERVE_ACCOUNT, Cpu) + w.cpu >= 0
    ensures w != NOTHING ==> Balanced(Adjusted(ts, RESERVE_ACCOUNT, w), ds, os, after)
    ensures w == NOTHING ==> Balanced(ts, ds, os, after)
  {
    ReserveBalanced(ts, ds, os, before, after, w);
    BalancedIsNonneg(Adjusted(ts, RESERVE_ACCOUNT, w), ds, os, after, RESERVE_ACCOUNT);
    AdjustedTotals(ts, RESERVE_ACCOUNT, w, RESERVE_ACCOUNT, Net);
    AdjustedTotals(ts, RESERVE_ACCOUNT, w, RESERVE_ACCOUNT, Cpu);
    if w == NOTHING {
      assert before == after;
    }
  }

  /** A new order: its owner's row can take it, and the ledger stays balanced. */
  lemma OrderBegins(ts: Totals, ds: Delegations, os: Orders, unsold: Weights, id: Name, o: Order)
    requires Balanced(ts, ds, os, unsold) && Nonneg(unsold) && id !in os
    requires DelegationsNonneg(ds) && OrdersPositive(os) && Nonneg(o.weights) && o.weights != NOTHING
    ensures TotalPart(ts, o.owner, Net) >= 0 && TotalPart(ts, o.owner, Cpu) >= 0
    ensures Balanced(Adjusted(ts, o.owner, o.weights), ds, os[id := o], unsold)
    ensures OrdersPositive(os[id := o])
  {
    OrderingBalanced(ts, ds, os, unsold, id, o);
    BalancedIsNonneg(ts, ds, os, unsold, o.owner);
  }

  /** The checks on a powerup, once time has passed for both markets. */
  predicate MayPowerup(net: Market, cpu: Market, netFrac: int, cpuFrac: int, minFee: int, maxPayment: int) {
    && 0 <= netFrac <= POWERUP_FRAC && 0 <= cpuFrac <= POWERUP_FRAC
    && Sellable(net, netFrac) && Sellable(cpu, cpuFrac)
    && minFee <= FeeFor(net, netFrac) + FeeFor(cpu, cpuFrac) <= maxPayment
  }

  function OrderFor(receiver: Name, net: Market, cpu: Market, netFrac: int, cpuFrac: int, expires: int): Order {
    Order(receiver, Weights(AmountFor(net, netFrac), AmountFor(cpu, cpuFrac)), expires)
  }

  /** A powerup takes the markets and the queue to a state with one more order, for a fee. */
  predicate PoweredUp(net: Market, cpu: Market, os: Orders, id: Name, order: Order, netFrac: int, cpuFrac: int, fee: int,
                      netAfter: Market, cpuAfter: Market, osAfter: Orders) {
    && netAfter == Sold(net, netFrac) && cpuAfter == Sold(cpu, cpuFrac)
    && fee == FeeFor(net, netFrac) + FeeFor(cpu, cpuFrac)
    && order == OrderFor(order.owner, net, cpu, netFrac, cpuFrac, order.expires)
    && osAfter == os[id := order]
  }

  /** The fee of a powerup is the sum of what its two parts cost at the two markets' prices. */
  ghost predicate FairlyPriced(net: Market, cpu: Market, netFrac: int, cpuFrac: int, w: Weights, fee: int) {
    exists f :: SoldFairly(net, netFrac, w.net, f) && SoldFairly(cpu, cpuFrac, w.cpu, fee - f)
  }

  lemma PowerupIsFair(net: Market, cpu: Market, netFrac: int, cpuFrac: int, w: Weights, fee: int)
    requires MarketOk(net) && MarketOk(cpu) && netFrac >= 0 && cpuFrac >= 0 && Sellable(net, netFrac) && Sellable(cpu, cpuFrac)
    requires w == Weights(AmountFor(net, netFrac), AmountFor(cpu, cpuFrac)) && fee == FeeFor(net, netFrac) + FeeFor(cpu, cpuFrac)
    ensures FairlyPriced(net, cpu, netFrac, cpuFrac, w, fee)
  {
    SaleIsFair(net, netFrac);
    SaleIsFair(cpu, cpuFrac);
    assert fee - FeeFor(net, netFrac) == FeeFor(cpu, cpuFrac);
    assert SoldFairly(cpu, cpuFrac, w.cpu, fee - FeeFor(net, netFrac));
  }

  /** Both markets after a sale, and the order for it. */
  lemma SaleOk(os: Orders, net: Market, cpu: Market, netFrac: int, cpuFrac: int, minFee: int, maxPayment: int,
               id: Name, o: Order)
    requires MarketsOk(true, net, cpu, os) && OrdersSold(os, net, cpu) && id !in os && minFee > 0
    requires MayPowerup(net, cpu, netFrac, cpuFrac, minFee, maxPayment)
    requires o == OrderFor(o.owner, net, cpu, netFrac, cpuFrac, o.expires)
    ensures var n, c := Sold(net, netFrac), Sold(cpu, cpuFrac);
            && Nonneg(o.weights) && o.weights != NOTHING
            && MarketsOk(true, n, c, os[id := o]) && OrdersSold(os[id := o], n, c) && Nonneg(Unsold(n, c))
            && Unsold(n, c) == Weights(Unsold(net, cpu).net - o.weights.net, Unsold(net, cpu).cpu - o.weights.cpu)
  {
    SoldOk(net, netFrac);
    SoldOk(cpu, cpuFrac);
    OrderAdded(os, id, o);
  }

  /** Moving a delegation: the receiver's row can follow it, and the ledger stays balanced. */
  lemma DelegatedNonneg(ds: Delegations, from: Name, to: Name, w: Weights)
    requires DelegationsNonneg(ds)
    requires DelegatedFrom(ds, from, to).net + w.net >= 0 && DelegatedFrom(ds, from, to).cpu + w.cpu >= 0
    ensures DelegationsNonneg(Delegated(ds, from, to, w))
  {
  }

  lemma StakingKeepsLedger(ts: Totals, ds: Delegations, os: Orders, unsold: Weights, from: Name, to: Name, w: Weights)
    requires Balanced(ts, ds, os, unsold) && DelegationsNonneg(ds) && OrdersPositive(os) && Nonneg(unsold)
    requires DelegatedFrom(ds, from, to).net + w.net >= 0 && DelegatedFrom(ds, from, to).cpu + w.cpu >= 0
    ensures Balanced(Adjusted(ts, to, w), Delegated(ds, from, to, w), os, unsold)
    ensures DelegationsNonneg(Delegated(ds, from, to, w))
    ensures TotalPart(ts, to, Net) + w.net >= 0 && TotalPart(ts, to, Cpu) + w.cpu >= 0
  {
    StakingBalanced(ts, ds, os, unsold, from, to, w);
    BalancedIsNonneg(Adjusted(ts, to, w), Delegated(ds, from, to, w), os, unsold, to);
    AdjustedTotals(ts, to, w, to, Net);
    AdjustedTotals(ts, to, w, to, Cpu);
  }

  /** The stake for voting follows the delegation. */
  lemma StakesFollow(ds: Delegations, vs: V.Voters, from: Name, to: Name, w: Weights, ws: V.Voters)
    requires StakesMatch(ds, vs)
    requires forall u: Name :: StakeOf(ws, u) == StakeOf(vs, u) + if u == from then (w.net + w.cpu) else 0
    ensures StakesMatch(Delegated(ds, from, to, w), ws) && AllStakes(ws) == AllStakes(vs) + (w.net + w.cpu)
  {
    DelegatedMoves(ds, from, to, w);
    StakeMoves(vs, ws, from, (w.net + w.cpu));
    var es := Delegated(ds, from, to, w);
    forall u: Name
      ensures StakeGap(es, ws, u) == 0
    {
      assert StakeGap(ds, vs, u) == 0;
    }
  }

  /** A stake that is delegated is never negative, so a change of delegation that is accepted never is refused for it. */
  lemma StakeStaysNonneg(ds: Delegations, vs: V.Voters, from: Name, to: Name, w: Weights)
    requires StakesMatch(ds, vs) && DelegationsNonneg(Delegated(ds, from, to, w))
    ensures StakeOf(vs, from) + (w.net + w.cpu) >= 0
  {
    DelegatedMoves(ds, from, to, w);
    DelegatedByNonneg(Delegated(ds, from, to, w), from);
    assert StakeGap(ds, vs, from) == 0;
  }

  /** What a change of stake needs, apart from the votes. */
  predicate CanStake(ds: Delegations, rs: Refunds, b: Balances, signer: Name, receiver: Name, w: Weights, transfer: bool) {
    var from := if transfer then receiver else signer;
    var was, amount := DelegatedFrom(ds, from, receiver), StakePayment(rs, signer, from, receiver, w, transfer);
    && w != NOTHING && SameSign(w)
    && was.net + w.net >= 0 && was.cpu + w.cpu >= 0
    && (amount <= 0 || CanMove(b, signer, STAKE_ACCOUNT, amount))
  }

  /** What eosio.stake holds after a change of stake. */
  lemma HeldAfterFunding(b: Balances, signer: Name, amount: int)
    requires amount >= 0
    ensures var c := if amount > 0 then Moved(b, signer, STAKE_ACCOUNT, amount) else b;
            BalanceOf(c, STAKE_ACCOUNT) == BalanceOf(b, STAKE_ACCOUNT) + if signer == STAKE_ACCOUNT then 0 else amount
  {
  }

  /** A change of stake, seen from the tokens held: they still are all stakes, all refunds and what was taken away. */
  lemma StakeStaysBacked(ds: Delegations, vs: V.Voters, ws: V.Voters, rs: Refunds, ss: Refunds, b: Balances, c: Balances,
                         signer: Name, from: Name, receiver: Name, w: Weights, transfer: bool, now: int)
    requires StakesMatch(ds, vs) && RefundsPositive(rs) && SameSign(w)
    requires ss == RefundsNext(rs, signer, from, receiver, w, transfer, now)
    requires var amount := StakePayment(rs, signer, from, receiver, w, transfer);
             c == (if amount > 0 then Moved(b, signer, STAKE_ACCOUNT, amount) else b)
    requires forall u: Name :: StakeOf(ws, u) == StakeOf(vs, u) + if u == from then (w.net + w.cpu) else 0
    ensures StakesMatch(Delegated(ds, from, receiver, w), ws)
    ensures AllStakes(ws) == AllStakes(vs) + (w.net + w.cpu)
    ensures BalanceOf(c, STAKE_ACCOUNT) - BalanceOf(b, STAKE_ACCOUNT) + (if signer == STAKE_ACCOUNT then (w.net + w.cpu) else 0)
            == AllStakes(ws) - AllStakes(vs) + AllRefunds(ss) - AllRefunds(rs)
  {
    FundingConserves(rs, signer, from, receiver, w, transfer, now);
    HeldAfterFunding(b, signer, StakePayment(rs, signer, from, receiver, w, transfer));
    StakesFollow(ds, vs, from, receiver, w, ws);
  }

  /** What is left of a pending refund after some of it is taken away, the net part first. */
  function RefundLess(r: Refund, tokens: int): Refund {
    if r.weights.net >= tokens then r.(weights := Weights(r.weights.net - tokens, r.weights.cpu))
    else r.(weights := Weights(0, r.weights.cpu - (tokens - r.weights.net)))
  }

  /** In full: other refunds stay, an empty one goes, and one that is left keeps its time and gives up its net part first. */
  predicate RefundTaken(rs: Refunds, a: Name, tokens: int, ss: Refunds) {
    && a in rs && ss - {a} == rs - {a}
    && (a in ss <==> rs[a].weights.net + rs[a].weights.cpu != tokens)
    && (a in ss ==>
          && ss[a].requestTime == rs[a].requestTime
          && ss[a].weights.net == (if tokens <= rs[a].weights.net then rs[a].weights.net - tokens else 0)
          && ss[a].weights.net + ss[a].weights.cpu == rs[a].weights.net + rs[a].weights.cpu - tokens)
  }

  lemma RefundRemoved(rs: Refunds, a: Name, tokens: int, ss: Refunds)
    requires RefundsPositive(rs) && a in rs && RefundOf(rs, a) >= tokens
    requires ss == if RefundOf(rs, a) == tokens then rs - {a} else rs[a := RefundLess(rs[a], tokens)]
    ensures RefundsPositive(ss) && AllRefunds(ss) == AllRefunds(rs) - tokens
  {
    RefundChanged(rs, ss, a);
  }

  /** A refund that is paid out leaves the tables and the tokens by the same amount. */
  lemma RefundPaid(rs: Refunds, b: Balances, owner: Name)
    requires RefundsPositive(rs) && owner in rs && owner != STAKE_ACCOUNT
    ensures RefundsPositive(rs - {owner}) && AllRefunds(rs - {owner}) == AllRefunds(rs) - RefundOf(rs, owner)
    ensures BalanceOf(Moved(b, STAKE_ACCOUNT, owner, RefundOf(rs, owner)), STAKE_ACCOUNT)
            == BalanceOf(b, STAKE_ACCOUNT) - RefundOf(rs, owner)
  {
    RefundChanged(rs, rs - {owner}, owner);
  }
}
