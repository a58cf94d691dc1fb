/** What the voting actions do to the tables, as functions, and what that keeps. */
module VoteSpec {
  import opened Names
  import opened VoteTables
  import opened ProxyForest
  import opened VotePay
  import RealSums

  /** The vote-pay accumulator: its value, its rate, and when it was last brought up to date. */
  datatype PayState = PayState(total: real, rate: real, updated: int)

  /** Everything a change of vote weight can reach. */
  datatype Books = Books(voters: Voters, producers: Producers, rows: Producers2, weight: real, pay: PayState)

  /**
   * An action either goes through or is rolled back; it is exact if it suppressed no change but zero, and
   * nonnegative if no tally was to go below zero, whether or not it was then cut off.
   */
  datatype Outcome = Outcome(books: Books, ok: bool, exact: bool, nonneg: bool)

  // Sweeping over producers

  /** The state of a loop over producers, with what it has collected for the accumulator. */
  datatype Sweep = Sweep(producers: Producers, rows: Producers2, weight: real, rateDelta: real, forfeited: real)

  /** A producer's row with a change added to its tally, which may be cut off at zero. */
  function Voted(p: Producer, delta: real, cutOff: bool): Producer {
    p.(totalVotes := if cutOff && p.totalVotes + delta < 0.0 then 0.0 else p.totalVotes + delta)
  }

  function SweepOne(s: Sweep, q: Name, delta: real, cutOff: bool, now: int): Sweep
    requires q in s.producers
  {
    var p := s.producers[q];
    var ps := s.producers[q := Voted(p, delta, cutOff)];
    if q in s.rows then
      Sweep(ps, s.rows[q := TouchedRow(p, s.rows[q], now)], s.weight + delta,
            s.rateDelta + RateDelta(p, s.rows[q], delta, now), s.forfeited + Forfeit(p, s.rows[q], now))
    else
      s.(producers := ps, weight := s.weight + delta)
  }

  function ChangeOf(changes: map<Name, real>, q: Name): real {
    if q in changes then changes[q] else 0.0
  }

  /** Producers that are not registered are passed over. */
  function SweepAll(s: Sweep, names: seq<Name>, changes: map<Name, real>, cutOff: bool, now: int): Sweep
    decreases |names|
  {
    if names == [] then s
    else
      var next := if names[0] in s.producers then SweepOne(s, names[0], ChangeOf(changes, names[0]), cutOff, now) else s;
      SweepAll(next, names[1..], changes, cutOff, now)
  }

  predicate Distinct(names: seq<Name>) {
    forall i, j :: 0 <= i < j < |names| ==> names[i] != names[j]
  }

  /** Two producer tables that differ in votes alone. */
  ghost predicate SameButVotes(ps: Producers, qs: Producers) {
    && ps.Keys == qs.Keys
    && forall q :: q in ps ==> qs[q] == ps[q].(totalVotes := qs[q].totalVotes)
  }

  lemma SameButVotesTwice(ps: Producers, qs: Producers, rs: Producers)
    requires SameButVotes(ps, qs) && SameButVotes(qs, rs)
    ensures SameButVotes(ps, rs)
  {
    forall q | q in ps
      ensures rs[q] == ps[q].(totalVotes := rs[q].totalVotes)
    {
      assert rs[q] == qs[q].(totalVotes := rs[q].totalVotes);
    }
  }

  /** No change takes a tally below zero, so nothing is cut off. */
  ghost predicate StaysNonneg(ps: Producers, names: seq<Name>, changes: map<Name, real>) {
    forall q :: q in names && q in ps ==> ps[q].totalVotes + ChangeOf(changes, q) >= 0.0
  }

  ghost predicate TalliesNonneg(ps: Producers) {
    forall q :: q in ps ==> ps[q].totalVotes >= 0.0
  }

  function Reaches(ps: Producers, names: seq<Name>, changes: map<Name, real>, q: Name): real {
    if q in names && q in ps then ChangeOf(changes, q) else 0.0
  }

  lemma SweepOneTally(s: Sweep, q: Name, delta: real, cutOff: bool, now: int)
    requires q in s.producers && (cutOff ==> s.producers[q].totalVotes + delta >= 0.0)
    ensures var t := SweepOne(s, q, delta, cutOff, now);
            && SameButVotes(s.producers, t.producers)
            && (forall x: Name :: VotesOf(t.producers, x) == VotesOf(s.producers, x) + if x == q then delta else 0.0)
            && t.weight - AllVotes(t.producers) == s.weight - AllVotes(s.producers)
  {
    SetVotes(s.producers, q, Voted(s.producers[q], delta, cutOff));
  }

  /** A sweep adds to each named producer's tally its change, once, and to the overall weight the sum. */
  lemma {:induction false} SweepVotes(s: Sweep, names: seq<Name>, changes: map<Name, real>, cutOff: bool, now: int)
    requires Distinct(names)
    requires cutOff ==> StaysNonneg(s.producers, names, changes)
    ensures var t := SweepAll(s, names, changes, cutOff, now);
            && SameButVotes(s.producers, t.producers)
            && (forall q: Name :: VotesOf(t.producers, q) == VotesOf(s.producers, q) + Reaches(s.producers, names, changes, q))
            && t.weight - AllVotes(t.producers) == s.weight - AllVotes(s.producers)
    decreases |names|
  {
    if names != [] {
      var q := names[0];
      assert names == [q] + names[1..];
      assert q !in names[1..];
      if q in s.producers {
        assert q in names;
        SweepOneTally(s, q, ChangeOf(changes, q), cutOff, now);
        SweepVotes(SweepOne(s, q, ChangeOf(changes, q), cutOff, now), names[1..], changes, cutOff, now);
      } else {
        SweepVotes(s, names[1..], changes, cutOff, now);
      }
    }
  }

  /** Where a tally would go below zero, it is cut off there, if the sweep cuts off, and moves by its change otherwise. */
  lemma {:induction false} SweepCutsOff(s: Sweep, names: seq<Name>, changes: map<Name, real>, cutOff: bool, now: int)
    requires Distinct(names)
    ensures var t := SweepAll(s, names, changes, cutOff, now);
            && t.producers.Keys == s.producers.Keys
            && forall q :: q in s.producers ==>
                 var moved := s.producers[q].totalVotes + ChangeOf(changes, q);
                 t.producers[q].totalVotes == if q !in names then s.producers[q].totalVotes
                                              else if cutOff && moved < 0.0 then 0.0 else moved
    decreases |names|
  {
    if names != [] {
      var q := names[0];
      assert names == [q] + names[1..];
      assert q !in names[1..];
      var next := if q in s.producers then SweepOne(s, q, ChangeOf(changes, q), cutOff, now) else s;
      SweepCutsOff(next, names[1..], changes, cutOff, now);
    }
  }

  /** A sweep brings exactly the named producers' vote-pay rows up to date, each on the votes it had before. */
  lemma {:induction false} SweepRows(s: Sweep, names: seq<Name>, changes: map<Name, real>, cutOff: bool, now: int)
    requires Distinct(names) && s.rows.Keys <= s.producers.Keys
    ensures var t := SweepAll(s, names, changes, cutOff, now);
            && t.rows.Keys == s.rows.Keys && t.producers.Keys == s.producers.Keys
            && (forall q :: q in s.producers ==> t.producers[q].lastClaimTime == s.producers[q].lastClaimTime)
            && forall q :: q in s.rows ==>
                 t.rows[q] == if q in names then TouchedRow(s.producers[q], s.rows[q], now) else s.rows[q]
    decreases |names|
  {
    if names != [] {
      var q := names[0];
      assert names == [q] + names[1..];
      assert q !in names[1..];
      var next := if q in s.producers then SweepOne(s, q, ChangeOf(changes, q), cutOff, now) else s;
      SweepRows(next, names[1..], changes, cutOff, now);
    }
  }

  /** Pay is settled for the touched producers, up to what is still to be added to the accumulators. */
  ghost predicate PayInTransit(s: Sweep, slope: real, share: real, now: int) {
    && RowsSettled(s.producers, s.rows, now)
    && SlopeSum(s.producers, s.rows) == slope + s.rateDelta
    && ShareSum(s.producers, s.rows, now) == share - s.forfeited
  }

  lemma SweepOnePay(s: Sweep, q: Name, delta: real, cutOff: bool, now: int, slope: real, share: real)
    requires PayInTransit(s, slope, share, now) && q in s.producers && s.producers[q].totalVotes + delta >= 0.0
    ensures PayInTransit(SweepOne(s, q, delta, cutOff, now), slope, share, now)
  {
    if q in s.rows {
      TouchSums(s.producers, s.rows, q, delta, now);
    } else {
      TouchUnpaid(s.producers, s.rows, q, delta, now);
    }
  }

  lemma {:induction false} SweepPay(s: Sweep, names: seq<Name>, changes: map<Name, real>, cutOff: bool, now: int,
                                    slope: real, share: real)
    requires Distinct(names) && StaysNonneg(s.producers, names, changes)
    requires PayInTransit(s, slope, share, now)
    ensures PayInTransit(SweepAll(s, names, changes, cutOff, now), slope, share, now)
    decreases |names|
  {
    if names != [] {
      var q := names[0];
      assert names == [q] + names[1..];
      assert q !in names[1..];
      if q in s.producers {
        assert q in names;
        SweepOnePay(s, q, ChangeOf(changes, q), cutOff, now, slope, share);
        SweepPay(SweepOne(s, q, ChangeOf(changes, q), cutOff, now), names[1..], changes, cutOff, now, slope, share);
      } else {
        SweepPay(s, names[1..], changes, cutOff, now, slope, share);
      }
    }
  }

  function PaidUp(pay: PayState, now: int, extra: real, rateDelta: real): PayState {
    PayState(NewTotal(pay.rate, pay.total, pay.updated, now, extra), NewRate(pay.rate, rateDelta), now)
  }

  /** A whole loop over producers, and the update of the accumulator that follows it. */
  function Swept(b: Books, names: seq<Name>, changes: map<Name, real>, cutOff: bool, now: int): Books {
    var t := SweepAll(Sweep(b.producers, b.rows, b.weight, 0.0, 0.0), names, changes, cutOff, now);
    Books(b.voters, t.producers, t.rows, t.weight, PaidUp(b.pay, now, -t.forfeited, t.rateDelta))
  }

  /** Vote-pay rows belong to producers that have claimed or registered, and were written in the past. */
  ghost predicate Dated(b: Books, now: int) {
    && b.pay.updated <= now
    && forall q :: q in b.rows ==>
         q in b.producers && b.rows[q].lastVotepayShareUpdate <= now && b.producers[q].lastClaimTime != 0
  }

  /** The accumulator stands for the sum of the producers' shares, at its time and ever after. */
  ghost predicate PayMatches(b: Books, now: int) {
    && b.pay.updated <= now
    && RowsSettled(b.producers, b.rows, now)
    && Accumulates(b.producers, b.rows, b.pay.rate, b.pay.total, b.pay.updated)
  }

  lemma SweptPay(b: Books, names: seq<Name>, changes: map<Name, real>, cutOff: bool, now: int)
    requires Distinct(names) && StaysNonneg(b.producers, names, changes) && PayMatches(b, now)
    ensures PayMatches(Swept(b, names, changes, cutOff, now), now)
  {
    var s := Sweep(b.producers, b.rows, b.weight, 0.0, 0.0);
    var slope, share := SlopeSum(b.producers, b.rows), ShareSum(b.producers, b.rows, now);
    SweepPay(s, names, changes, cutOff, now, slope, share);
    var t := SweepAll(s, names, changes, cutOff, now);
    SettleTotal(b.producers, b.rows, b.pay.rate, b.pay.total, b.pay.updated, t.producers, t.rows, now,
                t.forfeited, t.rateDelta);
  }

  lemma SweptDated(b: Books, names: seq<Name>, changes: map<Name, real>, cutOff: bool, now: int)
    requires Distinct(names) && Dated(b, now)
    ensures Dated(Swept(b, names, changes, cutOff, now), now)
  {
    SweepRows(Sweep(b.producers, b.rows, b.weight, 0.0, 0.0), names, changes, cutOff, now);
  }

  lemma SweptVotes(b: Books, names: seq<Name>, changes: map<Name, real>, cutOff: bool, now: int)
    requires Distinct(names) && (cutOff ==> StaysNonneg(b.producers, names, changes))
    ensures var c := Swept(b, names, changes, cutOff, now);
            && c.voters == b.voters
            && SameButVotes(b.producers, c.producers)
            && (forall q: Name :: VotesOf(c.producers, q) == VotesOf(b.producers, q) + Reaches(b.producers, names, changes, q))
            && c.weight - AllVotes(c.producers) == b.weight - AllVotes(b.producers)
  {
    SweepVotes(Sweep(b.producers, b.rows, b.weight, 0.0, 0.0), names, changes, cutOff, now);
  }

  lemma SortedIsDistinct(names: seq<Name>)
    requires StrictlySorted(names)
    ensures Distinct(names)
  {
  }

  // Propagating a change of vote weight

  function AddProxied(vs: Voters, p: Name, delta: real): Voters
    requires p in vs
  {
    vs[p := vs[p].(proxiedVoteWeight := vs[p].proxiedVoteWeight + delta)]
  }

  function SetWeight(vs: Voters, v: Name, weight: real): Voters
    requires v in vs
  {
    vs[v := vs[v].(lastVoteWeight := weight)]
  }

  function Uniform(names: seq<Name>, delta: real): map<Name, real> {
    map q | q in names :: delta
  }

  /** The changes too small to be passed on. */
  predicate Quiet(delta: real) {
    -1.0 <= delta <= 1.0
  }

  ghost predicate AllRegistered(names: seq<Name>, ps: Producers) {
    forall q :: q in names ==> q in ps
  }

  lemma SameStructure(vs: Voters, ws: Voters, ages: Ages, clock: nat)
    requires SameButWeights(vs, ws) && RowsOk(vs) && Forest(vs, ages, clock)
    ensures RowsOk(ws) && Forest(ws, ages, clock)
    ensures forall v :: Rank(ws, ages, clock, v) == Rank(vs, ages, clock, v)
  {
    forall v | v in ws
      ensures RowOk(ws, v) && EdgeOk(ws, ages, clock, v)
    {
      assert RowOk(vs, v) && EdgeOk(vs, ages, clock, v);
    }
  }

  /** The change propagating at v has to pass on. */
  function ChangeAt(vs: Voters, v: Name, factor: real): real
    requires v in vs
  {
    CurrentWeight(vs[v], factor) - vs[v].lastVoteWeight
  }

  /** v's own row, brought up to date at the end. */
  function Finish(out: Outcome, v: Name, weight: real): Outcome
    requires v in out.books.voters
  {
    out.(books := out.books.(voters := SetWeight(out.books.voters, v, weight)))
  }

  /** The part of propagate_weight_change that ends the recursion, for an account without a proxy. */
  ghost function PassToProducers(b: Books, v: Name, delta: real, now: int): (out: Outcome)
    requires v in b.voters
    ensures out.books.voters == b.voters
  {
    var names := b.voters[v].producers;
    if AllRegistered(names, b.producers)
    then Outcome(Swept(b, names, Uniform(names, delta), false, now), true, true,
                 StaysNonneg(b.producers, names, Uniform(names, delta)))
    else Outcome(b, false, true, true)
  }

  function Lent(b: Books, v: Name, delta: real): Books
    requires v in b.voters && b.voters[v].proxy in b.voters
  {
    b.(voters := AddProxied(b.voters, b.voters[v].proxy, delta))
  }

  lemma LentStructure(b: Books, ages: Ages, clock: nat, v: Name, delta: real)
    requires RowsOk(b.voters) && Forest(b.voters, ages, clock) && v in b.voters && b.voters[v].proxy != NO_NAME
    ensures b.voters[v].proxy in b.voters && b.voters[v].proxy != v
    ensures var c := Lent(b, v, delta);
            && SameButWeights(b.voters, c.voters) && RowsOk(c.voters) && Forest(c.voters, ages, clock)
            && (forall u :: Rank(c.voters, ages, clock, u) == Rank(b.voters, ages, clock, u))
    ensures Rank(b.voters, ages, clock, v) > Rank(b.voters, ages, clock, b.voters[v].proxy) >= 0
  {
    assert RowOk(b.voters, v);
    RankFalls(b.voters, ages, clock, v);
    SameStructure(b.voters, Lent(b, v, delta).voters, ages, clock);
  }

  /** propagate_weight_change, as a function; the ages only show that it ends. */
  ghost function Propagate(b: Books, ages: Ages, clock: nat, v: Name, factor: real, now: int): (out: Outcome)
    requires RowsOk(b.voters) && Forest(b.voters, ages, clock) && v in b.voters
    ensures SameButWeights(b.voters, out.books.voters)
    decreases Rank(b.voters, ages, clock, v)
  {
    var delta := ChangeAt(b.voters, v, factor);
    var passed :=
      if Quiet(delta) then Outcome(b, true, delta == 0.0, true)
      else if b.voters[v].proxy != NO_NAME then
        LentStructure(b, ages, clock, v, delta);
        Propagate(Lent(b, v, delta), ages, clock, b.voters[v].proxy, factor, now)
      else PassToProducers(b, v, delta, now);
    Finish(passed, v, CurrentWeight(b.voters[v], factor))
  }

  ghost predicate Framed(vs: Voters, ws: Voters, ages: Ages, clock: nat, v: Name)
    requires vs.Keys == ws.Keys
  {
    forall u :: u in vs && u != v && Rank(vs, ages, clock, u) >= Rank(vs, ages, clock, v) ==> ws[u] == vs[u]
  }

  lemma FrameStep(b: Books, ages: Ages, clock: nat, v: Name, delta: real, ws: Voters, weight: real)
    requires RowsOk(b.voters) && Forest(b.voters, ages, clock) && v in b.voters && b.voters[v].proxy != NO_NAME
    requires b.voters[v].proxy in b.voters && ws.Keys == b.voters.Keys
    requires Framed(Lent(b, v, delta).voters, ws, ages, clock, b.voters[v].proxy)
    ensures ws[v] == b.voters[v]
    ensures Framed(b.voters, SetWeight(ws, v, weight), ages, clock, v)
  {
    LentStructure(b, ages, clock, v, delta);
  }

  /** It brings v's own row up to date, and reaches nothing ranked as high as v. */
  lemma {:induction false} PropagateFrame(b: Books, ages: Ages, clock: nat, v: Name, factor: real, now: int,
                                          out: Outcome)
    requires RowsOk(b.voters) && Forest(b.voters, ages, clock) && v in b.voters
    requires out == Propagate(b, ages, clock, v, factor, now)
    ensures SameButWeights(b.voters, out.books.voters)
    ensures out.books.voters[v] == b.voters[v].(lastVoteWeight := CurrentWeight(b.voters[v], factor))
    ensures Framed(b.voters, out.books.voters, ages, clock, v)
    decreases Rank(b.voters, ages, clock, v)
  {
    var delta := ChangeAt(b.voters, v, factor);
    if !Quiet(delta) && b.voters[v].proxy != NO_NAME {
      LentStructure(b, ages, clock, v, delta);
      var lent := Lent(b, v, delta);
      var mid := Propagate(lent, ages, clock, b.voters[v].proxy, factor, now);
      PropagateFrame(lent, ages, clock, b.voters[v].proxy, factor, now, mid);
      FrameStep(b, ages, clock, v, delta, mid.books.voters, CurrentWeight(b.voters[v], factor));
    }
  }

  /**
   * What propagating passes on.  A change of the weight by more than one goes to the proxy's total, or to the tally of
   * every producer voted for; a smaller one goes nowhere.
   */
  lemma ChangePassedOn(b: Books, ages: Ages, clock: nat, v: Name, factor: real, now: int, out: Outcome)
    requires RowsOk(b.voters) && Forest(b.voters, ages, clock) && v in b.voters
    requires out == Propagate(b, ages, clock, v, factor, now) && out.ok
    ensures var row, proxy := b.voters[v], b.voters[v].proxy;
            var delta := row.staked as real * factor + (if row.isProxy then row.proxiedVoteWeight else 0.0) - row.lastVoteWeight;
            if -1.0 <= delta <= 1.0 then out.books == b.(voters := out.books.voters) && LentBy(b.voters, out.books.voters, v, 0.0)
            else if proxy != NO_NAME then LentBy(b.voters, out.books.voters, v, delta)
            else && LentBy(b.voters, out.books.voters, v, 0.0)
                 && MovedBy(b.producers, out.books.producers, row.producers, delta)
  {
    var row, delta := b.voters[v], ChangeAt(b.voters, v, factor);
    assert RowOk(b.voters, v);
    if !Quiet(delta) {
      if row.proxy != NO_NAME {
        LentStructure(b, ages, clock, v, delta);
        var mid := Propagate(Lent(b, v, delta), ages, clock, row.proxy, factor, now);
        PropagateFrame(Lent(b, v, delta), ages, clock, row.proxy, factor, now, mid);
      } else {
        SortedIsDistinct(row.producers);
        SweptVotes(b, row.producers, Uniform(row.producers, delta), false, now);
        ReachedUniformly(b.producers, row.producers, delta);
      }
    }
  }

  /** What others have lent to an account's proxy has moved by an amount. */
  predicate LentBy(vs: Voters, ws: Voters, v: Name, amount: real) {
    v in vs && vs[v].proxy in vs && vs[v].proxy in ws ==>
      ws[vs[v].proxy].proxiedVoteWeight == vs[vs[v].proxy].proxiedVoteWeight + amount
  }

  /** The tallies of some producers have moved by an amount, and no others. */
  ghost predicate MovedBy(ps: Producers, qs: Producers, names: seq<Name>, amount: real) {
    && qs.Keys == ps.Keys
    && forall q :: q in ps ==> qs[q].totalVotes == ps[q].totalVotes + if q in names then amount else 0.0
  }

  lemma ReachedUniformly(ps: Producers, names: seq<Name>, delta: real)
    ensures forall q :: q in ps ==> Reaches(ps, names, Uniform(names, delta), q) == if q in names then delta else 0.0
  {
  }

  /** Its check on the proxy cannot fail, and it succeeds when every producer voted for is registered. */
  lemma {:induction false} PropagateSucceeds(b: Books, ages: Ages, clock: nat, v: Name, factor: real, now: int,
                                             out: Outcome)
    requires RowsOk(b.voters) && Forest(b.voters, ages, clock) && v in b.voters
    requires out == Propagate(b, ages, clock, v, factor, now)
    requires ListedRegistered(b.voters, b.producers)
    ensures out.ok
    decreases Rank(b.voters, ages, clock, v)
  {
    var delta := ChangeAt(b.voters, v, factor);
    if !Quiet(delta) && b.voters[v].proxy != NO_NAME {
      LentStructure(b, ages, clock, v, delta);
      var lent := Lent(b, v, delta);
      PropagateSucceeds(lent, ages, clock, b.voters[v].proxy, factor, now,
                        Propagate(lent, ages, clock, b.voters[v].proxy, factor, now));
    }
  }

  /** Tallies change, and only tallies, in step with the overall weight; dates stay in order. */
  ghost predicate InStep(b: Books, c: Books, now: int) {
    && SameButVotes(b.producers, c.producers)
    && c.weight - AllVotes(c.producers) == b.weight - AllVotes(b.producers)
    && (Dated(b, now) ==> Dated(c, now))
  }

  lemma SameStep(b: Books, lent: Books, mid: Books, c: Books, now: int)
    requires lent == b.(voters := lent.voters) && c == mid.(voters := c.voters) && InStep(lent, mid, now)
    ensures InStep(b, c, now)
  {
  }

  lemma PassInStep(b: Books, v: Name, delta: real, now: int)
    requires v in b.voters && StrictlySorted(b.voters[v].producers)
    ensures InStep(b, PassToProducers(b, v, delta, now).books, now)
  {
    var names := b.voters[v].producers;
    SortedIsDistinct(names);
    if AllRegistered(names, b.producers) {
      SweptVotes(b, names, Uniform(names, delta), false, now);
      if Dated(b, now) {
        SweptDated(b, names, Uniform(names, delta), false, now);
      }
    }
  }

  lemma {:induction false} PropagateProducers(b: Books, ages: Ages, clock: nat, v: Name, factor: real, now: int,
                                              out: Outcome)
    requires RowsOk(b.voters) && Forest(b.voters, ages, clock) && v in b.voters
    requires out == Propagate(b, ages, clock, v, factor, now)
    ensures InStep(b, out.books, now)
    decreases Rank(b.voters, ages, clock, v)
  {
    var delta := ChangeAt(b.voters, v, factor);
    if !Quiet(delta) {
      if b.voters[v].proxy != NO_NAME {
        LentStructure(b, ages, clock, v, delta);
        var lent := Lent(b, v, delta);
        var mid := Propagate(lent, ages, clock, b.voters[v].proxy, factor, now);
        PropagateProducers(lent, ages, clock, b.voters[v].proxy, factor, now, mid);
        SameStep(b, lent, mid.books, out.books, now);
      } else {
        assert RowOk(b.voters, v);
        PassInStep(b, v, delta, now);
      }
    }
  }

  /** What must hold for a change at v to be propagated: all is in order, except perhaps v's own total. */
  ghost predicate Propagatable(b: Books, ages: Ages, clock: nat, v: Name) {
    && v in b.voters && b.voters[v].proxiedVoteWeight >= 0.0
    && WeightsNonneg(b.voters)
    && ListedRegistered(b.voters, b.producers)
    && VotesMatch(b.voters, b.producers)
    && (forall p {:trigger ProxyGap(b.voters, p)} :: p in b.voters && Rank(b.voters, ages, clock, p) < Rank(b.voters, ages, clock, v)
          ==> ProxyGap(b.voters, p) == 0.0)
  }

  lemma MatchingIsPropagatable(b: Books, ages: Ages, clock: nat, v: Name)
    requires v in b.voters && WeightsNonneg(b.voters) && ListedRegistered(b.voters, b.producers)
    requires VotesMatch(b.voters, b.producers) && ProxiesMatch(b.voters)
    ensures Propagatable(b, ages, clock, v)
  {
    assert ProxyGap(b.voters, v) == 0.0;
    ProxiedAtLeast(b.voters, v, v);
  }

  /** The voter's row carrying a change instead of its weight. */
  function Carrying(v: Voter, delta: real): Voter {
    v.(lastVoteWeight := delta)
  }

  /** A change at v has reached v's proxy or producers, but is not yet in v's own row. */
  ghost predicate InTransit(vs0: Voters, vs: Voters, ps: Producers, v: Name, delta: real)
    requires v in vs0 && vs.Keys == vs0.Keys
  {
    && WeightsNonneg(vs)
    && (forall p {:trigger ProxyGap(vs, p)} :: p in vs ==> ProxyGap(vs, p) == ProxyGap(vs0, p) + WeightToProxy(Carrying(vs0[v], delta), p))
    && (forall q: Name :: VoteGap(vs, ps, q) == WeightToProducer(Carrying(vs0[v], delta), q))
  }

  /** Totals as far from their folds as before, and tallies that equal theirs. */
  ghost predicate KeepsGaps(vs: Voters, ws: Voters, ps: Producers) {
    && vs.Keys == ws.Keys
    && WeightsNonneg(ws)
    && VotesMatch(ws, ps)
    && forall p {:trigger ProxyGap(ws, p)} :: p in ws ==> ProxyGap(ws, p) == ProxyGap(vs, p)
  }

  /** Once v's row has it, every total is as far from its fold as it was before. */
  lemma Arrive(vs0: Voters, vs: Voters, ps: Producers, v: Name, delta: real)
    requires v in vs0 && SameButWeights(vs0, vs) && vs[v].lastVoteWeight == vs0[v].lastVoteWeight
    requires InTransit(vs0, vs, ps, v, delta) && vs0[v].lastVoteWeight + delta >= 0.0
    ensures KeepsGaps(vs0, SetWeight(vs, v, vs0[v].lastVoteWeight + delta), ps)
  {
    var ws := SetWeight(vs, v, vs0[v].lastVoteWeight + delta);
    ReplaceRow(vs, v, ws[v]);
    forall q: Name
      ensures VoteGap(ws, ps, q) == 0.0
    {
      assert VoteGap(vs, ps, q) == WeightToProducer(Carrying(vs0[v], delta), q);
    }
    forall p | p in ws
      ensures ProxyGap(ws, p) == ProxyGap(vs0, p)
    {
      assert ProxyGap(vs, p) == ProxyGap(vs0, p) + WeightToProxy(Carrying(vs0[v], delta), p);
    }
  }

  /** Adding a change to the proxy's total puts the change in transit there. */
  lemma Depart(b: Books, ages: Ages, clock: nat, v: Name, delta: real)
    requires RowsOk(b.voters) && Forest(b.voters, ages, clock) && Propagatable(b, ages, clock, v)
    requires b.voters[v].proxy != NO_NAME && b.voters[v].lastVoteWeight + delta >= 0.0
    requires RowOk(b.voters, v)
    ensures var p := b.voters[v].proxy;
            var c := Lent(b, v, delta);
            && SameButWeights(b.voters, c.voters) && Propagatable(c, ages, clock, p)
            && (forall u {:trigger ProxyGap(c.voters, u)} :: u in c.voters ==>
                  ProxyGap(c.voters, u) == ProxyGap(b.voters, u) + WeightToProxy(Carrying(b.voters[v], delta), u))
  {
    var vs := b.voters;
    var p := vs[v].proxy;
    var ws := AddProxied(vs, p, delta);
    RankFalls(vs, ages, clock, v);
    ReplaceRow(vs, p, ws[p]);
    assert ProxyGap(vs, p) == 0.0;
    ProxiedAtLeast(vs, v, p);
    forall q: Name
      ensures VoteGap(ws, b.producers, q) == 0.0
    {
      assert VoteGap(vs, b.producers, q) == 0.0;
    }
    forall u | u in ws && Rank(ws, ages, clock, u) < Rank(ws, ages, clock, p)
      ensures ProxyGap(ws, u) == 0.0
    {
      assert Rank(vs, ages, clock, u) < Rank(vs, ages, clock, v);
      assert ProxyGap(vs, u) == 0.0;
    }
  }

  lemma ReachedProducers(b: Books, v: Name, delta: real, now: int)
    requires v in b.voters && b.voters[v].proxy == NO_NAME && RowsOk(b.voters) && RowOk(b.voters, v)
    requires VotesMatch(b.voters, b.producers) && WeightsNonneg(b.voters)
    requires AllRegistered(b.voters[v].producers, b.producers)
    ensures var names := b.voters[v].producers;
            InTransit(b.voters, b.voters, Swept(b, names, Uniform(names, delta), false, now).producers, v, delta)
  {
    var vs, names := b.voters, b.voters[v].producers;
    SortedIsDistinct(names);
    SweptVotes(b, names, Uniform(names, delta), false, now);
    var ps := Swept(b, names, Uniform(names, delta), false, now).producers;
    forall p | p in vs
      ensures WeightToProxy(Carrying(vs[v], delta), p) == 0.0
    {
      assert RowOk(vs, p);
    }
    forall q: Name
      ensures VoteGap(vs, ps, q) == WeightToProducer(Carrying(vs[v], delta), q)
    {
      assert VoteGap(vs, b.producers, q) == 0.0;
    }
  }

  lemma CurrentWeightNonneg(v: Voter, factor: real)
    requires v.staked >= 0 && factor > 0.0 && v.proxiedVoteWeight >= 0.0
    ensures CurrentWeight(v, factor) >= 0.0
  {
    assert v.staked as real * factor >= 0.0;
  }

  lemma TransitThroughProxy(b: Books, lent: Books, mid: Books, v: Name, delta: real)
    requires v in b.voters && b.voters.Keys == lent.voters.Keys && KeepsGaps(lent.voters, mid.voters, mid.producers)
    requires forall u {:trigger ProxyGap(lent.voters, u)} :: u in lent.voters ==>
               ProxyGap(lent.voters, u) == ProxyGap(b.voters, u) + WeightToProxy(Carrying(b.voters[v], delta), u)
    requires b.voters[v].proxy != NO_NAME
    ensures InTransit(b.voters, mid.voters, mid.producers, v, delta)
  {
    forall q: Name
      ensures VoteGap(mid.voters, mid.producers, q) == WeightToProducer(Carrying(b.voters[v], delta), q)
    {
      assert VoteGap(mid.voters, mid.producers, q) == 0.0;
    }
    forall p | p in mid.voters
      ensures ProxyGap(mid.voters, p) == ProxyGap(b.voters, p) + WeightToProxy(Carrying(b.voters[v], delta), p)
    {
      assert ProxyGap(mid.voters, p) == ProxyGap(lent.voters, p);
    }
  }

  lemma KeepsThroughProxy(b: Books, lent: Books, mid: Books, v: Name, delta: real, weight: real)
    requires v in b.voters && b.voters[v].proxy != NO_NAME
    requires weight == b.voters[v].lastVoteWeight + delta >= 0.0
    requires SameButWeights(b.voters, mid.voters) && mid.voters[v] == b.voters[v]
    requires b.voters.Keys == lent.voters.Keys && KeepsGaps(lent.voters, mid.voters, mid.producers)
    requires forall u {:trigger ProxyGap(lent.voters, u)} :: u in lent.voters ==>
               ProxyGap(lent.voters, u) == ProxyGap(b.voters, u) + WeightToProxy(Carrying(b.voters[v], delta), u)
    ensures KeepsGaps(b.voters, SetWeight(mid.voters, v, weight), mid.producers)
  {
    TransitThroughProxy(b, lent, mid, v, delta);
    Arrive(b.voters, mid.voters, mid.producers, v, delta);
  }

  /**
   * The heart of the matter: as long as nothing but zero is suppressed, propagation leaves every proxy's
   * total exactly as far from its fold as it was, and every producer's tally equal to its fold.
   */
  lemma {:induction false} PropagateWeights(b: Books, ages: Ages, clock: nat, v: Name, factor: real, now: int,
                                            out: Outcome)
    requires RowsOk(b.voters) && Forest(b.voters, ages, clock) && factor > 0.0
    requires Propagatable(b, ages, clock, v)
    requires out == Propagate(b, ages, clock, v, factor, now) && out.exact
    ensures KeepsGaps(b.voters, out.books.voters, out.books.producers)
    decreases Rank(b.voters, ages, clock, v)
  {
    var delta := ChangeAt(b.voters, v, factor);
    assert RowOk(b.voters, v);
    CurrentWeightNonneg(b.voters[v], factor);
    if Quiet(delta) {
      assert out.books.voters == b.voters;
    } else if b.voters[v].proxy != NO_NAME {
      LentStructure(b, ages, clock, v, delta);
      Depart(b, ages, clock, v, delta);
      var lent := Lent(b, v, delta);
      var mid := Propagate(lent, ages, clock, b.voters[v].proxy, factor, now);
      PropagateWeights(lent, ages, clock, b.voters[v].proxy, factor, now, mid);
      UntouchedBelow(b, ages, clock, v, delta, factor, now, lent, mid);
      KeepsThroughProxy(b, lent, mid.books, v, delta, CurrentWeight(b.voters[v], factor));
    } else {
      KeepsThroughProducers(b, v, delta, CurrentWeight(b.voters[v], factor), now);
    }
  }

  /** While a change travels up from its proxy, an account's own row stays as it was. */
  lemma UntouchedBelow(b: Books, ages: Ages, clock: nat, v: Name, delta: real, factor: real, now: int,
                       lent: Books, mid: Outcome)
    requires RowsOk(b.voters) && Forest(b.voters, ages, clock) && v in b.voters && b.voters[v].proxy != NO_NAME
    requires b.voters[v].proxy in b.voters && lent == Lent(b, v, delta)
    requires RowsOk(lent.voters) && Forest(lent.voters, ages, clock)
    requires mid == Propagate(lent, ages, clock, b.voters[v].proxy, factor, now)
    ensures SameButWeights(b.voters, mid.books.voters) && mid.books.voters[v] == b.voters[v]
  {
    LentStructure(b, ages, clock, v, delta);
    PropagateFrame(lent, ages, clock, b.voters[v].proxy, factor, now, mid);
    FrameStep(b, ages, clock, v, delta, mid.books.voters, 0.0);
  }

  lemma KeepsThroughProducers(b: Books, v: Name, delta: real, weight: real, now: int)
    requires v in b.voters && b.voters[v].proxy == NO_NAME && RowsOk(b.voters) && RowOk(b.voters, v)
    requires VotesMatch(b.voters, b.producers) && WeightsNonneg(b.voters) && ListedRegistered(b.voters, b.producers)
    requires weight == b.voters[v].lastVoteWeight + delta >= 0.0
    ensures KeepsGaps(b.voters, SetWeight(b.voters, v, weight), PassToProducers(b, v, delta, now).books.producers)
  {
    assert AllRegistered(b.voters[v].producers, b.producers);
    ReachedProducers(b, v, delta, now);
    Arrive(b.voters, b.voters, PassToProducers(b, v, delta, now).books.producers, v, delta);
  }

  /** Propagation never takes a tally below zero when every total equals its fold. */
  lemma {:induction false} PropagateNonneg(b: Books, ages: Ages, clock: nat, v: Name, factor: real, now: int,
                                           out: Outcome)
    requires RowsOk(b.voters) && Forest(b.voters, ages, clock) && factor > 0.0
    requires Propagatable(b, ages, clock, v)
    requires out == Propagate(b, ages, clock, v, factor, now)
    ensures out.nonneg
    decreases Rank(b.voters, ages, clock, v)
  {
    var delta := ChangeAt(b.voters, v, factor);
    assert RowOk(b.voters, v);
    CurrentWeightNonneg(b.voters[v], factor);
    if !Quiet(delta) {
      if b.voters[v].proxy != NO_NAME {
        LentStructure(b, ages, clock, v, delta);
        Depart(b, ages, clock, v, delta);
        var lent := Lent(b, v, delta);
        PropagateNonneg(lent, ages, clock, b.voters[v].proxy, factor, now,
                        Propagate(lent, ages, clock, b.voters[v].proxy, factor, now));
      } else {
        PassNonneg(b, v, delta, now);
      }
    }
  }

  lemma PassNonneg(b: Books, v: Name, delta: real, now: int)
    requires v in b.voters && b.voters[v].proxy == NO_NAME && WeightsNonneg(b.voters)
    requires VotesMatch(b.voters, b.producers) && b.voters[v].lastVoteWeight + delta >= 0.0
    ensures PassToProducers(b, v, delta, now).nonneg
  {
    var names := b.voters[v].producers;
    forall q | q in names && q in b.producers
      ensures b.producers[q].totalVotes + ChangeOf(Uniform(names, delta), q) >= 0.0
    {
      TallyAtLeast(b.voters, v, q);
      assert VoteGap(b.voters, b.producers, q) == 0.0;
    }
  }

  /** Pay is settled, and no tally is negative: what lasts while no tally is to go below zero. */
  ghost predicate KeepsPay(b: Books, c: Books, now: int) {
    && (TalliesNonneg(b.producers) ==> TalliesNonneg(c.producers))
    && (PayMatches(b, now) ==> PayMatches(c, now))
  }

  lemma SweptKeepsPay(b: Books, names: seq<Name>, changes: map<Name, real>, cutOff: bool, now: int)
    requires Distinct(names) && StaysNonneg(b.producers, names, changes)
    ensures KeepsPay(b, Swept(b, names, changes, cutOff, now), now)
  {
    SweptVotes(b, names, changes, cutOff, now);
    var c := Swept(b, names, changes, cutOff, now);
    if TalliesNonneg(b.producers) {
      forall q | q in c.producers
        ensures c.producers[q].totalVotes >= 0.0
      {
        assert VotesOf(c.producers, q) == VotesOf(b.producers, q) + Reaches(b.producers, names, changes, q);
      }
    }
    if PayMatches(b, now) {
      SweptPay(b, names, changes, cutOff, now);
    }
  }

  /**
   * While no tally is to go below zero, whatever is suppressed, the vote-pay accumulator still stands for the sum
   * of the producers' shares after a propagation.
   */
  lemma {:induction false} PropagatePay(b: Books, ages: Ages, clock: nat, v: Name, factor: real, now: int,
                                        out: Outcome)
    requires RowsOk(b.voters) && Forest(b.voters, ages, clock) && v in b.voters
    requires out == Propagate(b, ages, clock, v, factor, now) && out.nonneg
    ensures KeepsPay(b, out.books, now)
    decreases Rank(b.voters, ages, clock, v)
  {
    var delta := ChangeAt(b.voters, v, factor);
    assert RowOk(b.voters, v);
    if !Quiet(delta) {
      if b.voters[v].proxy != NO_NAME {
        LentStructure(b, ages, clock, v, delta);
        var lent := Lent(b, v, delta);
        var mid := Propagate(lent, ages, clock, b.voters[v].proxy, factor, now);
        PropagatePay(lent, ages, clock, b.voters[v].proxy, factor, now, mid);
        assert out.books == mid.books.(voters := out.books.voters);
      } else {
        PassPay(b, v, delta, now);
      }
    }
  }

  lemma PassPay(b: Books, v: Name, delta: real, now: int)
    requires v in b.voters && StrictlySorted(b.voters[v].producers) && PassToProducers(b, v, delta, now).nonneg
    ensures KeepsPay(b, PassToProducers(b, v, delta, now).books, now)
  {
    var names := b.voters[v].producers;
    SortedIsDistinct(names);
    if AllRegistered(names, b.producers) {
      SweptKeepsPay(b, names, Uniform(names, delta), false, now);
    }
  }
}
