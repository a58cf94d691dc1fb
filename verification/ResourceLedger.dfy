/**
 * The weights of staked and powered-up resources, and the sums that tie the tables together
 * (contracts/eosio.system/src/delegate_bandwidth.cpp and powerup.cpp).
 */
module ResourceLedger {
  import opened Names
  import opened TokenLedger
  import IntSums

  datatype Kind = Net | Cpu

  datatype Weights = Weights(net: int, cpu: int)

  const NOTHING: Weights := Weights(0, 0)

  predicate Nonneg(a: Weights) {
    a.net >= 0 && a.cpu >= 0
  }

  function Both(w: Weights): int {
    w.net + w.cpu
  }

  function Negated(w: Weights): Weights {
    Weights(-w.net, -w.cpu)
  }

  datatype Order = Order(owner: Name, weights: Weights, expires: int)

  datatype Refund = Refund(weights: Weights, requestTime: int)

  /** One row of userres an account; an absent row is worth nothing. */
  type Totals = map<Name, Weights>

  /** What an account has delegated to another. */
  type Delegations = map<(Name, Name), Weights>

  type Orders = map<Name, Order>

  type Refunds = map<Name, Refund>

  function DelegatedFrom(ds: Delegations, from: Name, to: Name): Weights {
    if (from, to) in ds then ds[(from, to)] else NOTHING
  }

  function TotalPart(ts: Totals, a: Name, k: Kind): int {
    if a !in ts then 0 else if k == Net then ts[a].net else ts[a].cpu
  }

  function DelegatedPart(ds: Delegations, from: Name, to: Name, k: Kind): int {
    if (from, to) !in ds then 0 else if k == Net then ds[(from, to)].net else ds[(from, to)].cpu
  }

  function DelegatedBoth(ds: Delegations, from: Name, to: Name): int {
    if (from, to) in ds then ds[(from, to)].net + ds[(from, to)].cpu else 0
  }

  function OrderPart(os: Orders, id: Name, k: Kind): int {
    if id !in os then 0 else if k == Net then os[id].weights.net else os[id].weights.cpu
  }

  function OwnedPart(os: Orders, id: Name, owner: Name, k: Kind): int {
    if id in os && os[id].owner == owner then OrderPart(os, id, k) else 0
  }

  function RefundOf(rs: Refunds, a: Name): int {
    if a in rs then rs[a].weights.net + rs[a].weights.cpu else 0
  }

  ghost function DelegatedTo(ds: Delegations, to: Name, k: Kind): int {
    IntSums.Total((f: Name) => DelegatedPart(ds, f, to, k))
  }

  ghost function DelegatedBy(ds: Delegations, from: Name): int {
    IntSums.Total((t: Name) => DelegatedBoth(ds, from, t))
  }

  ghost function OrderedBy(os: Orders, owner: Name, k: Kind): int {
    IntSums.Total((id: Name) => OwnedPart(os, id, owner, k))
  }

  ghost function AllOrdered(os: Orders, k: Kind): int {
    IntSums.Total((id: Name) => OrderPart(os, id, k))
  }

  ghost function AllRefunds(rs: Refunds): int {
    IntSums.Total((a: Name) => RefundOf(rs, a))
  }

  // Changing one row

  lemma DelegationMoves(ds: Delegations, es: Delegations, from: Name, to: Name, w: Weights)
    requires forall f: Name, t: Name, k: Kind ::
               DelegatedPart(es, f, t, k)
               == DelegatedPart(ds, f, t, k) + if f != from || t != to then 0 else if k == Net then w.net else w.cpu
    ensures forall t: Name, k: Kind ::
              DelegatedTo(es, t, k) == DelegatedTo(ds, t, k) + if t != to then 0 else if k == Net then w.net else w.cpu
    ensures forall f: Name :: DelegatedBy(es, f) == DelegatedBy(ds, f) + if f == from then w.net + w.cpu else 0
  {
    forall f: Name, t: Name
      ensures DelegatedBoth(es, f, t) == DelegatedBoth(ds, f, t) + if f == from && t == to then w.net + w.cpu else 0
    {
      assert DelegatedBoth(es, f, t) == DelegatedPart(es, f, t, Net) + DelegatedPart(es, f, t, Cpu);
      assert DelegatedBoth(ds, f, t) == DelegatedPart(ds, f, t, Net) + DelegatedPart(ds, f, t, Cpu);
    }
    forall t: Name, k: Kind
      ensures DelegatedTo(es, t, k) == DelegatedTo(ds, t, k) + if t != to then 0 else if k == Net then w.net else w.cpu
    {
      IntSums.TotalPoint((f: Name) => DelegatedPart(ds, f, t, k), (f: Name) => DelegatedPart(es, f, t, k), from);
    }
    forall f: Name
      ensures DelegatedBy(es, f) == DelegatedBy(ds, f) + if f == from then w.net + w.cpu else 0
    {
      IntSums.TotalPoint((t: Name) => DelegatedBoth(ds, f, t), (t: Name) => DelegatedBoth(es, f, t), to);
    }
  }

  lemma OrderAdded(os: Orders, id: Name, o: Order)
    requires id !in os
    ensures forall a: Name, k: Kind ::
              OrderedBy(os[id := o], a, k)
              == OrderedBy(os, a, k) + if a != o.owner then 0 else if k == Net then o.weights.net else o.weights.cpu
    ensures forall k: Kind ::
              AllOrdered(os[id := o], k) == AllOrdered(os, k) + if k == Net then o.weights.net else o.weights.cpu
  {
    var qs := os[id := o];
    forall a: Name, k: Kind
      ensures OrderedBy(qs, a, k)
              == OrderedBy(os, a, k) + if a != o.owner then 0 else if k == Net then o.weights.net else o.weights.cpu
    {
      IntSums.TotalPoint((i: Name) => OwnedPart(os, i, a, k), (i: Name) => OwnedPart(qs, i, a, k), id);
    }
    forall k: Kind
      ensures AllOrdered(qs, k) == AllOrdered(os, k) + if k == Net then o.weights.net else o.weights.cpu
    {
      IntSums.TotalPoint((i: Name) => OrderPart(os, i, k), (i: Name) => OrderPart(qs, i, k), id);
    }
  }

  lemma OrderRemoved(os: Orders, id: Name)
    requires id in os
    ensures var o := os[id];
            && (forall a: Name, k: Kind :: OrderedBy(os - {id}, a, k)
                  == OrderedBy(os, a, k) - if a != o.owner then 0 else if k == Net then o.weights.net else o.weights.cpu)
            && (forall k: Kind :: AllOrdered(os - {id}, k)
                  == AllOrdered(os, k) - if k == Net then o.weights.net else o.weights.cpu)
  {
    OrderAdded(os - {id}, id, os[id]);
    assert (os - {id})[id := os[id]] == os;
  }

  lemma RefundChanged(rs: Refunds, ss: Refunds, a: Name)
    requires forall b: Name :: b != a ==> RefundOf(ss, b) == RefundOf(rs, b)
    ensures AllRefunds(ss) == AllRefunds(rs) + RefundOf(ss, a) - RefundOf(rs, a)
  {
    IntSums.TotalPoint((b: Name) => RefundOf(rs, b), (b: Name) => RefundOf(ss, b), a);
  }

  // The ledger

  ghost predicate DelegationsNonneg(ds: Delegations) {
    forall d :: d in ds ==> Nonneg(ds[d])
  }

  /** An order is never for less than nothing, nor for nothing at all. */
  ghost predicate OrdersPositive(os: Orders) {
    forall id :: id in os ==> Nonneg(os[id].weights) && os[id].weights != NOTHING
  }

  /** What the reserve account holds besides: the part of each market that is not sold. */
  function ReservePart(a: Name, reserve: Weights, k: Kind): int {
    if a != RESERVE_ACCOUNT then 0 else if k == Net then reserve.net else reserve.cpu
  }

  /** How far an account's row of userres is from what the other tables say it holds. */
  ghost function LedgerGap(ts: Totals, ds: Delegations, os: Orders, reserve: Weights, a: Name, k: Kind): int {
    TotalPart(ts, a, k) - DelegatedTo(ds, a, k) - OrderedBy(os, a, k) - ReservePart(a, reserve, k)
  }

  /** Each account holds the delegations to it, its open powerups, and, the reserve, what is not sold. */
  ghost predicate Balanced(ts: Totals, ds: Delegations, os: Orders, reserve: Weights) {
    forall a: Name, k: Kind {:trigger LedgerGap(ts, ds, os, reserve, a, k)} :: LedgerGap(ts, ds, os, reserve, a, k) == 0
  }

  lemma SumsNonneg(ds: Delegations, os: Orders, a: Name, k: Kind)
    requires DelegationsNonneg(ds) && OrdersPositive(os)
    ensures DelegatedTo(ds, a, k) >= 0 && OrderedBy(os, a, k) >= 0
  {
    IntSums.TotalNonneg((f: Name) => DelegatedPart(ds, f, a, k));
    IntSums.TotalNonneg((id: Name) => OwnedPart(os, id, a, k));
  }

  /** So a row is never negative: the checks on it cannot fail where the other tables are in order. */
  lemma BalancedIsNonneg(ts: Totals, ds: Delegations, os: Orders, reserve: Weights, a: Name)
    requires Balanced(ts, ds, os, reserve) && DelegationsNonneg(ds) && OrdersPositive(os) && Nonneg(reserve)
    ensures TotalPart(ts, a, Net) >= 0 && TotalPart(ts, a, Cpu) >= 0
  {
    forall k: Kind
      ensures TotalPart(ts, a, k) >= 0
    {
      SumsNonneg(ds, os, a, k);
      assert LedgerGap(ts, ds, os, reserve, a, k) == 0;
    }
  }

  /** A row of userres with a change; a row that is left empty is erased. */
  function Adjusted(ts: Totals, a: Name, w: Weights): Totals {
    var row := Weights(TotalPart(ts, a, Net) + w.net, TotalPart(ts, a, Cpu) + w.cpu);
    if row == NOTHING then ts - {a} else ts[a := row]
  }

  lemma AdjustedTotals(ts: Totals, a: Name, w: Weights, b: Name, k: Kind)
    ensures TotalPart(Adjusted(ts, a, w), b, k)
            == TotalPart(ts, b, k) + if b != a then 0 else if k == Net then w.net else w.cpu
  {
  }

  /** A row of delegations with a change, likewise. */
  function Delegated(ds: Delegations, from: Name, to: Name, w: Weights): Delegations {
    var was := DelegatedFrom(ds, from, to);
    var row := Weights(was.net + w.net, was.cpu + w.cpu);
    if row == NOTHING then ds - {(from, to)} else ds[(from, to) := row]
  }

  lemma DelegatedOne(ds: Delegations, from: Name, to: Name, w: Weights, f: Name, t: Name, k: Kind)
    ensures DelegatedPart(Delegated(ds, from, to, w), f, t, k)
            == DelegatedPart(ds, f, t, k) + if f != from || t != to then 0 else if k == Net then w.net else w.cpu
  {
  }

  lemma DelegatedMoves(ds: Delegations, from: Name, to: Name, w: Weights)
    ensures var es := Delegated(ds, from, to, w);
            && (forall t: Name, k: Kind :: DelegatedTo(es, t, k)
                  == DelegatedTo(ds, t, k) + if t != to then 0 else if k == Net then w.net else w.cpu)
            && (forall f: Name :: DelegatedBy(es, f) == DelegatedBy(ds, f) + if f == from then w.net + w.cpu else 0)
  {
    var es := Delegated(ds, from, to, w);
    forall f: Name, t: Name, k: Kind
      ensures DelegatedPart(es, f, t, k)
              == DelegatedPart(ds, f, t, k) + if f != from || t != to then 0 else if k == Net then w.net else w.cpu
    {
      DelegatedOne(ds, from, to, w, f, t, k);
    }
    DelegationMoves(ds, es, from, to, w);
  }

  /** Staking: the delegation and the receiver's row move together. */
  lemma StakingBalanced(ts: Totals, ds: Delegations, os: Orders, reserve: Weights, from: Name, to: Name, w: Weights)
    requires Balanced(ts, ds, os, reserve)
    ensures Balanced(Adjusted(ts, to, w), Delegated(ds, from, to, w), os, reserve)
  {
    var us, es := Adjusted(ts, to, w), Delegated(ds, from, to, w);
    DelegatedMoves(ds, from, to, w);
    forall a: Name, k: Kind
      ensures LedgerGap(us, es, os, reserve, a, k) == 0
    {
      AdjustedTotals(ts, to, w, a, k);
      assert LedgerGap(ts, ds, os, reserve, a, k) == 0;
    }
  }

  /** A powerup: the order and its owner's row come together. */
  lemma OrderingBalanced(ts: Totals, ds: Delegations, os: Orders, reserve: Weights, id: Name, o: Order)
    requires Balanced(ts, ds, os, reserve) && id !in os
    ensures Balanced(Adjusted(ts, o.owner, o.weights), ds, os[id := o], reserve)
  {
    var us, qs := Adjusted(ts, o.owner, o.weights), os[id := o];
    OrderAdded(os, id, o);
    forall a: Name, k: Kind
      ensures LedgerGap(us, ds, qs, reserve, a, k) == 0
    {
      AdjustedTotals(ts, o.owner, o.weights, a, k);
      assert LedgerGap(ts, ds, os, reserve, a, k) == 0;
    }
  }

  /** An order that ends takes its weight off its owner's row. */
  lemma EndingBalanced(ts: Totals, ds: Delegations, os: Orders, reserve: Weights, id: Name)
    requires Balanced(ts, ds, os, reserve) && id in os
    ensures var w := os[id].weights; Balanced(Adjusted(ts, os[id].owner, Weights(-w.net, -w.cpu)), ds, os - {id}, reserve)
  {
    var w := Weights(-os[id].weights.net, -os[id].weights.cpu);
    var us, qs := Adjusted(ts, os[id].owner, w), os - {id};
    OrderRemoved(os, id);
    forall a: Name, k: Kind
      ensures LedgerGap(us, ds, qs, reserve, a, k) == 0
    {
      AdjustedTotals(ts, os[id].owner, w, a, k);
      assert LedgerGap(ts, ds, os, reserve, a, k) == 0;
    }
  }

  /** What becomes available, or is sold, goes to or from the reserve account's row. */
  lemma ReserveBalanced(ts: Totals, ds: Delegations, os: Orders, before: Weights, after: Weights, w: Weights)
    requires Balanced(ts, ds, os, before) && after == Weights(before.net + w.net, before.cpu + w.cpu)
    ensures Balanced(Adjusted(ts, RESERVE_ACCOUNT, w), ds, os, after)
  {
    var us := Adjusted(ts, RESERVE_ACCOUNT, w);
    forall a: Name, k: Kind
      ensures LedgerGap(us, ds, os, after, a, k) == 0
    {
      AdjustedTotals(ts, RESERVE_ACCOUNT, w, a, k);
      assert LedgerGap(ts, ds, os, before, a, k) == 0;
    }
  }
}
