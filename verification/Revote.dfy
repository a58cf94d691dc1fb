/** update_votes of contracts/eosio.system/src/voting.cpp as a function of the tables, and what it keeps. */
module Revoting {
  import opened Names
  import opened VoteTables
  import opened ProxyForest
  import opened VotePay
  import opened VoteSpec
  import RealSums

  /** A ballot: a proxy, or a list of producers. */
  datatype Ballot = Ballot(proxy: Name, producers: seq<Name>)

  predicate BallotOk(voter: Name, ballot: Ballot) {
    if ballot.proxy != NO_NAME then ballot.producers == [] && voter != ballot.proxy
    else |ballot.producers| <= 30 && StrictlySorted(ballot.producers)
  }

  function SetOf(names: seq<Name>): set<Name> {
    set i | 0 <= i < |names| :: names[i]
  }

  lemma InSetOf(names: seq<Name>)
    ensures forall q :: q in SetOf(names) <==> q in names
  {
  }

  /** The producers the voter's present weight is taken from. */
  function Left(row: Voter): set<Name> {
    if row.lastVoteWeight > 0.0 && row.proxy == NO_NAME then SetOf(row.producers) else {}
  }

  /** The producers the voter's new weight is given to. */
  function Joined(ballot: Ballot, weight: real): set<Name> {
    if weight >= 0.0 && ballot.proxy == NO_NAME then SetOf(ballot.producers) else {}
  }

  /** The map of producer deltas. */
  function Deltas(row: Voter, ballot: Ballot, weight: real): map<Name, real> {
    map q | q in Left(row) + Joined(ballot, weight) ::
      (if q in Left(row) then -row.lastVoteWeight else 0.0) + (if q in Joined(ballot, weight) then weight else 0.0)
  }

  predicate Least(names: set<Name>, q: Name) {
    q in names && forall x :: x in names ==> q <= x
  }

  lemma {:induction false} SomeLeast(names: set<Name>) returns (least: Name)
    requires names != {}
    ensures Least(names, least)
    decreases names
  {
    least :| least in names;
    var rest := names - {least};
    assert names == rest + {least};
    if rest != {} {
      var r := SomeLeast(rest);
      least := if least <= r then least else r;
    }
  }

  lemma LeastExists(names: set<Name>)
    requires names != {}
    ensures exists q :: Least(names, q)
  {
    var q := SomeLeast(names);
  }

  /** The names of a set in ascending order. */
  ghost function InOrder(names: set<Name>): (order: seq<Name>)
    ensures Distinct(order) && forall q :: q in order <==> q in names
    decreases names
  {
    if names == {} then []
    else
      LeastExists(names);
      var q :| Least(names, q);
      [q] + InOrder(names - {q})
  }

  lemma InOrderStep(names: set<Name>, q: Name)
    requires Least(names, q)
    ensures InOrder(names) == [q] + InOrder(names - {q})
  {
  }

  /** A sweep over a set of producers, in ascending order; a tally that would go below zero is cut off. */
  ghost function SweepSet(s: Sweep, names: set<Name>, changes: map<Name, real>, now: int): Sweep {
    SweepAll(s, InOrder(names), changes, true, now)
  }

  lemma SweepLeast(s: Sweep, names: set<Name>, q: Name, changes: map<Name, real>, now: int)
    requires Least(names, q)
    ensures SweepSet(s, names, changes, now)
            == SweepSet(if q in s.producers then SweepOne(s, q, ChangeOf(changes, q), true, now) else s,
                        names - {q}, changes, now)
  {
    InOrderStep(names, q);
  }

  /** Adding to a proxy's total, and propagating that. */
  ghost function Relend(b: Books, ages: Ages, clock: nat, p: Name, amount: real, factor: real, now: int): (out: Outcome)
    requires RowsOk(b.voters) && Forest(b.voters, ages, clock) && p in b.voters
    ensures SameButWeights(b.voters, out.books.voters)
    ensures RowsOk(out.books.voters) && Forest(out.books.voters, ages, clock)
  {
    var lent := b.(voters := AddProxied(b.voters, p, amount));
    SameStructure(b.voters, lent.voters, ages, clock);
    var out := Propagate(lent, ages, clock, p, factor, now);
    SameStructure(b.voters, out.books.voters, ages, clock);
    out
  }

  /** Undoing the last vote for a proxy. */
  ghost function Withdraw(b: Books, ages: Ages, clock: nat, voter: Name, factor: real, now: int): (out: Outcome)
    requires RowsOk(b.voters) && Forest(b.voters, ages, clock) && voter in b.voters
    ensures SameButWeights(b.voters, out.books.voters)
    ensures RowsOk(out.books.voters) && Forest(out.books.voters, ages, clock)
  {
    var row := b.voters[voter];
    assert RowOk(b.voters, voter);
    if row.lastVoteWeight > 0.0 && row.proxy != NO_NAME
    then Relend(b, ages, clock, row.proxy, -row.lastVoteWeight, factor, now)
    else Outcome(b, true, true, true)
  }

  /** Casting the new weight for a proxy. */
  ghost function Lend(b: Books, ages: Ages, clock: nat, p: Name, weight: real, factor: real, now: int): (out: Outcome)
    requires RowsOk(b.voters) && Forest(b.voters, ages, clock) && (p != NO_NAME ==> p in b.voters)
    ensures SameButWeights(b.voters, out.books.voters)
    ensures RowsOk(out.books.voters) && Forest(out.books.voters, ages, clock)
  {
    if p != NO_NAME && weight >= 0.0
    then Relend(b, ages, clock, p, weight, factor, now)
    else Outcome(b, true, true, true)
  }

  /** The checks on a newly chosen producer, in the loop over the deltas. */
  predicate Votable(ps: Producers, q: Name, voting: bool) {
    q in ps && (voting ==> ps[q].isActive)
  }

  ghost predicate AllVotable(ps: Producers, joined: set<Name>, voting: bool) {
    forall q :: q in joined ==> Votable(ps, q, voting)
  }

  lemma SameStanding(ps: Producers, qs: Producers, joined: set<Name>, voting: bool)
    requires SameButVotes(ps, qs)
    ensures AllVotable(ps, joined, voting) == AllVotable(qs, joined, voting)
  {
    if AllVotable(qs, joined, voting) {
      forall q | q in joined
        ensures Votable(ps, q, voting)
      {
        assert Votable(qs, q, voting);
      }
    }
    if AllVotable(ps, joined, voting) {
      forall q | q in joined
        ensures Votable(qs, q, voting)
      {
        assert Votable(ps, q, voting);
      }
    }
  }

  /** The checks on the proxy voted for. */
  predicate ProxyChosen(vs: Voters, p: Name, voting: bool) {
    p != NO_NAME ==> p in vs && (voting ==> vs[p].isProxy)
  }

  /** The old vote taken back does not change who may be chosen. */
  lemma SameChoice(vs: Voters, ws: Voters, p: Name, voting: bool)
    requires SameButWeights(vs, ws)
    ensures ProxyChosen(vs, p, voting) == ProxyChosen(ws, p, voting)
  {
    if p in vs {
      assert Reweighed(vs[p], ws[p]);
    }
  }

  function CastRow(row: Voter, ballot: Ballot, weight: real): Voter {
    row.(lastVoteWeight := weight, producers := ballot.producers, proxy := ballot.proxy)
  }

  predicate MayVote(vs: Voters, voter: Name, ballot: Ballot) {
    BallotOk(voter, ballot) && voter in vs && !(ballot.proxy != NO_NAME && vs[voter].isProxy)
  }

  /** The tables once every part of update_votes but the last has gone through. */
  ghost function Cast(b: Books, c: Books, voter: Name, ballot: Ballot, weight: real, now: int): Books
    requires voter in b.voters && voter in c.voters
  {
    var deltas := Deltas(b.voters[voter], ballot, weight);
    var swept := Swept(c, InOrder(deltas.Keys), deltas, true, now);
    swept.(voters := swept.voters[voter := CastRow(swept.voters[voter], ballot, weight)])
  }

  /** The tables and the accumulators after update_votes, up to the voter's own unpaid share. */
  ghost function Revote(b: Books, ages: Ages, clock: nat, voter: Name, ballot: Ballot, voting: bool,
                        factor: real, now: int): (out: Outcome)
    requires RowsOk(b.voters) && Forest(b.voters, ages, clock) && MayVote(b.voters, voter, ballot)
    ensures voter in out.books.voters
  {
    var row := b.voters[voter];
    var weight := CurrentWeight(row, factor);
    var first := Withdraw(b, ages, clock, voter, factor, now);
    if !first.ok || !ProxyChosen(b.voters, ballot.proxy, voting) then Outcome(b, false, true, true)
    else
      var second := Lend(first.books, ages, clock, ballot.proxy, weight, factor, now);
      if !second.ok || !AllVotable(b.producers, Joined(ballot, weight), voting) then Outcome(b, false, true, true)
      else
        var deltas := Deltas(row, ballot, weight);
        Outcome(Cast(b, second.books, voter, ballot, weight, now), true, first.exact && second.exact,
                first.nonneg && second.nonneg && StaysNonneg(second.books.producers, InOrder(deltas.Keys), deltas))
  }

  // What it keeps

  /** Every running total of the vote weights equals the fold it stands for. */
  ghost predicate WeightsMatch(b: Books) {
    && WeightsNonneg(b.voters)
    && ListedRegistered(b.voters, b.producers)
    && ProxiesMatch(b.voters)
    && VotesMatch(b.voters, b.producers)
    && b.weight == AllVotes(b.producers)
  }

  /** Weights that match, but for what is on its way to one proxy and from another. */
  ghost predicate MatchesBut(b: Books, vs: Voters, p: Name, taken: real, q: Name, given: real) {
    && b.voters.Keys == vs.Keys
    && WeightsNonneg(b.voters)
    && ListedRegistered(b.voters, b.producers)
    && VotesMatch(b.voters, b.producers)
    && b.weight == AllVotes(b.producers)
    && forall u {:trigger ProxyGap(b.voters, u)} :: u in b.voters ==>
         ProxyGap(b.voters, u) == (if u == q then given else 0.0) - (if u == p then taken else 0.0)
  }

  lemma AddGap(vs: Voters, p: Name, amount: real)
    requires p in vs
    ensures var ws := AddProxied(vs, p, amount);
            && (forall u {:trigger ProxyGap(ws, u)} :: u in ws ==>
                  ProxyGap(ws, u) == ProxyGap(vs, u) + if u == p then amount else 0.0)
            && (forall q: Name :: Tally(ws, q) == Tally(vs, q))
  {
    ReplaceRow(vs, p, AddProxied(vs, p, amount)[p]);
  }

  lemma AddedVotesMatch(vs: Voters, ps: Producers, p: Name, amount: real)
    requires p in vs && VotesMatch(vs, ps)
    ensures VotesMatch(AddProxied(vs, p, amount), ps)
  {
    AddGap(vs, p, amount);
    var ws := AddProxied(vs, p, amount);
    forall q: Name
      ensures VoteGap(ws, ps, q) == 0.0
    {
      assert VoteGap(vs, ps, q) == 0.0;
    }
  }

  /** Lending is propagatable when all is in order below the proxy and its total stays nonnegative. */
  lemma RelendReady(b: Books, ages: Ages, clock: nat, p: Name, amount: real)
    requires RowsOk(b.voters) && Forest(b.voters, ages, clock) && p in b.voters
    requires WeightsNonneg(b.voters) && ListedRegistered(b.voters, b.producers) && VotesMatch(b.voters, b.producers)
    requires b.voters[p].proxiedVoteWeight + amount >= 0.0
    requires forall u {:trigger ProxyGap(b.voters, u)} :: u in b.voters && Rank(b.voters, ages, clock, u) < Rank(b.voters, ages, clock, p)
               ==> ProxyGap(b.voters, u) == 0.0
    ensures Propagatable(b.(voters := AddProxied(b.voters, p, amount)), ages, clock, p)
    ensures RowsOk(AddProxied(b.voters, p, amount)) && Forest(AddProxied(b.voters, p, amount), ages, clock)
  {
    var ws := AddProxied(b.voters, p, amount);
    SameStructure(b.voters, ws, ages, clock);
    AddGap(b.voters, p, amount);
    AddedVotesMatch(b.voters, b.producers, p, amount);
    forall u | u in ws && Rank(ws, ages, clock, u) < Rank(ws, ages, clock, p)
      ensures ProxyGap(ws, u) == 0.0
    {
      assert ProxyGap(b.voters, u) == 0.0;
    }
  }

  lemma ListedAfter(vs: Voters, ps: Producers, ws: Voters, qs: Producers)
    requires SameButWeights(vs, ws) && SameButVotes(ps, qs) && ListedRegistered(vs, ps)
    ensures ListedRegistered(ws, qs)
  {
    forall v, q | v in ws && q in ws[v].producers
      ensures q in qs
    {
      assert Reweighed(vs[v], ws[v]);
    }
  }

  /** Whatever the weights, lending succeeds when every listed producer is registered, and touches only tallies. */
  lemma RelendSucceeds(b: Books, ages: Ages, clock: nat, p: Name, amount: real, factor: real, now: int, out: Outcome)
    requires RowsOk(b.voters) && Forest(b.voters, ages, clock) && p in b.voters
    requires out == Relend(b, ages, clock, p, amount, factor, now)
    ensures InStep(b, out.books, now)
    ensures ListedRegistered(b.voters, b.producers) ==> out.ok && ListedRegistered(out.books.voters, out.books.producers)
  {
    var lent := b.(voters := AddProxied(b.voters, p, amount));
    SameStructure(b.voters, lent.voters, ages, clock);
    PropagateProducers(lent, ages, clock, p, factor, now, out);
    if ListedRegistered(b.voters, b.producers) {
      ListedAfter(b.voters, b.producers, lent.voters, lent.producers);
      PropagateSucceeds(lent, ages, clock, p, factor, now, out);
      ListedAfter(b.voters, b.producers, out.books.voters, out.books.producers);
    }
  }

  lemma RelendKeeps(b: Books, ages: Ages, clock: nat, p: Name, amount: real, factor: real, now: int, out: Outcome)
    requires RowsOk(b.voters) && Forest(b.voters, ages, clock) && p in b.voters && factor > 0.0
    requires out == Relend(b, ages, clock, p, amount, factor, now)
    requires RowsOk(AddProxied(b.voters, p, amount)) && Forest(AddProxied(b.voters, p, amount), ages, clock)
    requires Propagatable(b.(voters := AddProxied(b.voters, p, amount)), ages, clock, p)
    ensures out.exact ==> KeepsGaps(AddProxied(b.voters, p, amount), out.books.voters, out.books.producers)
    ensures out.nonneg
  {
    var lent := b.(voters := AddProxied(b.voters, p, amount));
    PropagateNonneg(lent, ages, clock, p, factor, now, out);
    if out.exact {
      PropagateWeights(lent, ages, clock, p, factor, now, out);
    }
  }

  lemma WithdrawReady(b: Books, ages: Ages, clock: nat, voter: Name)
    requires RowsOk(b.voters) && Forest(b.voters, ages, clock) && voter in b.voters && WeightsMatch(b)
    requires b.voters[voter].proxy != NO_NAME && b.voters[voter].proxy in b.voters
    ensures var p, amount := b.voters[voter].proxy, -b.voters[voter].lastVoteWeight;
            && Propagatable(b.(voters := AddProxied(b.voters, p, amount)), ages, clock, p)
            && RowsOk(AddProxied(b.voters, p, amount)) && Forest(AddProxied(b.voters, p, amount), ages, clock)
  {
    var p := b.voters[voter].proxy;
    assert ProxyGap(b.voters, p) == 0.0;
    ProxiedAtLeast(b.voters, voter, p);
    RelendReady(b, ages, clock, p, -b.voters[voter].lastVoteWeight);
  }

  /** After the old vote is withdrawn, only the old proxy's total is off, by the weight withdrawn. */
  lemma WithdrawKeeps(b: Books, ages: Ages, clock: nat, voter: Name, factor: real, now: int, out: Outcome)
    requires RowsOk(b.voters) && Forest(b.voters, ages, clock) && voter in b.voters && factor > 0.0
    requires out == Withdraw(b, ages, clock, voter, factor, now) && WeightsMatch(b)
    ensures out.books.voters[voter] == b.voters[voter]
    ensures out.exact ==> MatchesBut(out.books, b.voters, b.voters[voter].proxy, b.voters[voter].lastVoteWeight, NO_NAME, 0.0)
    ensures out.nonneg
  {
    assert RowOk(b.voters, voter);
    NoProxyRows(b.voters);
    var p, amount := b.voters[voter].proxy, -b.voters[voter].lastVoteWeight;
    if amount < 0.0 && p != NO_NAME {
      RankFalls(b.voters, ages, clock, voter);
      WithdrawReady(b, ages, clock, voter);
      RelendSucceeds(b, ages, clock, p, amount, factor, now, out);
      RelendKeeps(b, ages, clock, p, amount, factor, now, out);
      LendFrame(b, ages, clock, voter, p, amount, factor, now, out);
      if out.exact {
        GapsAfter(b, p, amount, out.books);
      }
    }
  }

  lemma NoProxyRows(vs: Voters)
    requires RowsOk(vs)
    ensures forall v :: v in vs ==> v != NO_NAME
  {
    forall v | v in vs
      ensures v != NO_NAME
    {
      assert RowOk(vs, v);
    }
  }

  lemma GapsAfter(b: Books, p: Name, amount: real, c: Books)
    requires p in b.voters && p != NO_NAME && WeightsMatch(b)
    requires KeepsGaps(AddProxied(b.voters, p, amount), c.voters, c.producers)
    requires ListedRegistered(c.voters, c.producers)
    requires c.weight - AllVotes(c.producers) == b.weight - AllVotes(b.producers)
    requires NO_NAME !in b.voters
    ensures MatchesBut(c, b.voters, p, -amount, NO_NAME, 0.0)
  {
    AddGap(b.voters, p, amount);
    var ws := AddProxied(b.voters, p, amount);
    forall u | u in c.voters
      ensures ProxyGap(c.voters, u) == if u == p then amount else 0.0
    {
      assert ProxyGap(c.voters, u) == ProxyGap(ws, u);
      assert ProxyGap(b.voters, u) == 0.0;
    }
  }

  lemma RankNonneg(vs: Voters, ages: Ages, clock: nat, v: Name)
    requires Forest(vs, ages, clock)
    ensures Rank(vs, ages, clock, v) >= 0
  {
    if v in vs {
      assert EdgeOk(vs, ages, clock, v);
    }
  }

  /** A chosen proxy uses none; an old one kept is ranked below its voter. */
  lemma ChosenRank(vs: Voters, ages: Ages, clock: nat, voter: Name, p: Name, voting: bool)
    requires RowsOk(vs) && Forest(vs, ages, clock) && voter in vs && p in vs && p != NO_NAME
    requires if voting then vs[p].isProxy else vs[voter].proxy == p
    ensures Rank(vs, ages, clock, voter) >= Rank(vs, ages, clock, p) >= 0
    ensures voting ==> Rank(vs, ages, clock, p) == 0
  {
    assert RowOk(vs, p);
    RankNonneg(vs, ages, clock, voter);
    if !voting {
      RankFalls(vs, ages, clock, voter);
    }
  }

  lemma LendFrame(b: Books, ages: Ages, clock: nat, voter: Name, p: Name, weight: real, factor: real, now: int,
                  out: Outcome)
    requires RowsOk(b.voters) && Forest(b.voters, ages, clock) && voter in b.voters && p in b.voters && p != voter
    requires Rank(b.voters, ages, clock, voter) >= Rank(b.voters, ages, clock, p)
    requires out == Relend(b, ages, clock, p, weight, factor, now)
    ensures out.books.voters[voter] == b.voters[voter]
  {
    SameStructure(b.voters, AddProxied(b.voters, p, weight), ages, clock);
    PropagateFrame(b.(voters := AddProxied(b.voters, p, weight)), ages, clock, p, factor, now, out);
  }

  /** What is left of a proxy's total after one voter's withdrawal is what the others lent it. */
  lemma StillNonneg(b: Books, vs: Voters, voter: Name, p: Name)
    requires voter in vs && p in vs
    requires MatchesBut(b, vs, vs[voter].proxy, vs[voter].lastVoteWeight, NO_NAME, 0.0)
    requires b.voters[voter] == vs[voter] && p != NO_NAME
    ensures b.voters[p].proxiedVoteWeight >= 0.0
  {
    assert ProxyGap(b.voters, p) == 0.0 - (if p == vs[voter].proxy then vs[voter].lastVoteWeight else 0.0);
    ProxiedAtLeast(b.voters, voter, p);
  }

  lemma LendKeeps(b: Books, vs: Voters, ages: Ages, clock: nat, voter: Name, p: Name, voting: bool, weight: real,
                  factor: real, now: int, out: Outcome)
    requires RowsOk(b.voters) && Forest(b.voters, ages, clock) && factor > 0.0 && weight >= 0.0
    requires voter in b.voters && voter in vs && b.voters[voter] == vs[voter] && voter != p
    requires ProxyChosen(b.voters, p, voting) && (!voting ==> vs[voter].proxy == p)
    requires MatchesBut(b, vs, vs[voter].proxy, vs[voter].lastVoteWeight, NO_NAME, 0.0)
    requires out == Lend(b, ages, clock, p, weight, factor, now)
    ensures out.books.voters[voter] == b.voters[voter]
    ensures out.exact ==> MatchesBut(out.books, vs, vs[voter].proxy, vs[voter].lastVoteWeight, p, weight)
    ensures out.nonneg
  {
    NoProxyRows(b.voters);
    if p != NO_NAME {
      ChosenRank(b.voters, ages, clock, voter, p, voting);
      StillNonneg(b, vs, voter, p);
      LowerGaps(b, vs, ages, clock, voter, p, voting);
      RelendReady(b, ages, clock, p, weight);
      RelendSucceeds(b, ages, clock, p, weight, factor, now, out);
      RelendKeeps(b, ages, clock, p, weight, factor, now, out);
      LendFrame(b, ages, clock, voter, p, weight, factor, now, out);
      if out.exact {
        GapsAfterLending(b, vs, vs[voter].proxy, vs[voter].lastVoteWeight, p, weight, out.books);
      }
    }
  }

  lemma LowerGaps(b: Books, vs: Voters, ages: Ages, clock: nat, voter: Name, p: Name, voting: bool)
    requires RowsOk(b.voters) && Forest(b.voters, ages, clock)
    requires p in b.voters && voter in vs && (voting ==> Rank(b.voters, ages, clock, p) == 0)
    requires !voting ==> vs[voter].proxy == p
    requires MatchesBut(b, vs, vs[voter].proxy, vs[voter].lastVoteWeight, NO_NAME, 0.0)
    ensures forall u {:trigger ProxyGap(b.voters, u)} ::
              u in b.voters && Rank(b.voters, ages, clock, u) < Rank(b.voters, ages, clock, p)
              ==> ProxyGap(b.voters, u) == 0.0
  {
    forall u | u in b.voters && Rank(b.voters, ages, clock, u) < Rank(b.voters, ages, clock, p)
      ensures ProxyGap(b.voters, u) == 0.0
    {
      RankNonneg(b.voters, ages, clock, u);
      assert u != vs[voter].proxy;
    }
  }

  lemma GapsAfterLending(b: Books, vs: Voters, p0: Name, taken: real, p: Name, weight: real, c: Books)
    requires p in b.voters && p != NO_NAME && MatchesBut(b, vs, p0, taken, NO_NAME, 0.0)
    requires KeepsGaps(AddProxied(b.voters, p, weight), c.voters, c.producers)
    requires ListedRegistered(c.voters, c.producers)
    requires c.weight - AllVotes(c.producers) == b.weight - AllVotes(b.producers)
    requires NO_NAME !in b.voters
    ensures MatchesBut(c, vs, p0, taken, p, weight)
  {
    AddGap(b.voters, p, weight);
    var ws := AddProxied(b.voters, p, weight);
    forall u | u in c.voters
      ensures ProxyGap(c.voters, u) == (if u == p then weight else 0.0) - (if u == p0 then taken else 0.0)
    {
      assert ProxyGap(c.voters, u) == ProxyGap(ws, u);
      assert ProxyGap(b.voters, u) == 0.0 - (if u == p0 then taken else 0.0);
    }
  }

  /** The map of deltas is exactly how the voter's contribution to each tally changes. */
  lemma DeltaIsDifference(row: Voter, ballot: Ballot, weight: real, q: Name)
    requires row.lastVoteWeight >= 0.0 && weight >= 0.0
    ensures ChangeOf(Deltas(row, ballot, weight), q)
            == WeightToProducer(CastRow(row, ballot, weight), q) - WeightToProducer(row, q)
  {
    assert q in SetOf(row.producers) <==> q in row.producers;
    assert q in SetOf(ballot.producers) <==> q in ballot.producers;
  }

  lemma DeltasStayNonneg(c: Books, voter: Name, ballot: Ballot, weight: real)
    requires voter in c.voters && weight >= 0.0 && WeightsNonneg(c.voters) && VotesMatch(c.voters, c.producers)
    ensures var deltas := Deltas(c.voters[voter], ballot, weight);
            StaysNonneg(c.producers, InOrder(deltas.Keys), deltas)
  {
    var row := c.voters[voter];
    var deltas := Deltas(row, ballot, weight);
    forall q | q in InOrder(deltas.Keys) && q in c.producers
      ensures c.producers[q].totalVotes + ChangeOf(deltas, q) >= 0.0
    {
      DeltaIsDifference(row, ballot, weight, q);
      TallyAtLeast(c.voters, voter, q);
      assert VoteGap(c.voters, c.producers, q) == 0.0;
    }
  }

  lemma DeltasRegistered(c: Books, voter: Name, ballot: Ballot, weight: real, voting: bool)
    requires voter in c.voters && ListedRegistered(c.voters, c.producers)
    requires AllVotable(c.producers, Joined(ballot, weight), voting)
    ensures forall q :: q in Deltas(c.voters[voter], ballot, weight) ==> q in c.producers
  {
    forall q | q in Deltas(c.voters[voter], ballot, weight)
      ensures q in c.producers
    {
      if q in Left(c.voters[voter]) {
        assert q in c.voters[voter].producers;
      } else {
        assert Votable(c.producers, q, voting);
      }
    }
  }

  /** The sweep over the deltas leaves each tally off by exactly what the voter's row is about to make up. */
  lemma SweepGaps(c: Books, voter: Name, ballot: Ballot, weight: real, voting: bool, now: int, d: Books)
    requires voter in c.voters && weight >= 0.0 && WeightsNonneg(c.voters) && VotesMatch(c.voters, c.producers)
    requires ListedRegistered(c.voters, c.producers) && AllVotable(c.producers, Joined(ballot, weight), voting)
    requires var deltas := Deltas(c.voters[voter], ballot, weight);
             d == Swept(c, InOrder(deltas.Keys), deltas, true, now)
    ensures d.voters == c.voters && SameButVotes(c.producers, d.producers)
    ensures forall q: Name :: VoteGap(c.voters, d.producers, q)
              == WeightToProducer(CastRow(c.voters[voter], ballot, weight), q) - WeightToProducer(c.voters[voter], q)
    ensures d.weight - AllVotes(d.producers) == c.weight - AllVotes(c.producers)
    ensures Dated(c, now) ==> Dated(d, now)
  {
    var row := c.voters[voter];
    var deltas := Deltas(row, ballot, weight);
    var names := InOrder(deltas.Keys);
    DeltasStayNonneg(c, voter, ballot, weight);
    DeltasRegistered(c, voter, ballot, weight, voting);
    SweptVotes(c, names, deltas, true, now);
    if Dated(c, now) {
      SweptDated(c, names, deltas, true, now);
    }
    forall q: Name
      ensures VoteGap(c.voters, d.producers, q)
              == WeightToProducer(CastRow(row, ballot, weight), q) - WeightToProducer(row, q)
    {
      DeltaIsDifference(row, ballot, weight, q);
      assert VoteGap(c.voters, c.producers, q) == 0.0;
    }
  }

  /** Writing the ballot into the voter's row closes every gap. */
  lemma CastCloses(vs: Voters, ps: Producers, voter: Name, ballot: Ballot, weight: real)
    requires voter in vs && weight >= 0.0 && WeightsNonneg(vs) && NO_NAME !in vs
    requires forall u {:trigger ProxyGap(vs, u)} :: u in vs ==>
               ProxyGap(vs, u) == (if u == ballot.proxy then weight else 0.0)
                                  - (if u == vs[voter].proxy then vs[voter].lastVoteWeight else 0.0)
    requires forall q: Name :: VoteGap(vs, ps, q)
               == WeightToProducer(CastRow(vs[voter], ballot, weight), q) - WeightToProducer(vs[voter], q)
    ensures var ws := vs[voter := CastRow(vs[voter], ballot, weight)];
            WeightsNonneg(ws) && ProxiesMatch(ws) && VotesMatch(ws, ps)
  {
    var row := CastRow(vs[voter], ballot, weight);
    var ws := vs[voter := row];
    ReplaceRow(vs, voter, row);
    forall p | p in ws
      ensures ProxyGap(ws, p) == 0.0
    {
      assert ProxyGap(vs, p) == (if p == ballot.proxy then weight else 0.0)
                                - (if p == vs[voter].proxy then vs[voter].lastVoteWeight else 0.0);
    }
    forall q: Name
      ensures VoteGap(ws, ps, q) == 0.0
    {
      assert VoteGap(vs, ps, q) == WeightToProducer(row, q) - WeightToProducer(vs[voter], q);
    }
  }

  lemma CastListed(vs: Voters, ps: Producers, qs: Producers, voter: Name, ballot: Ballot, weight: real, voting: bool)
    requires voter in vs && ListedRegistered(vs, ps) && SameButVotes(ps, qs) && weight >= 0.0
    requires BallotOk(voter, ballot) && AllVotable(ps, Joined(ballot, weight), voting)
    ensures ListedRegistered(vs[voter := CastRow(vs[voter], ballot, weight)], qs)
  {
    var ws := vs[voter := CastRow(vs[voter], ballot, weight)];
    forall v, q | v in ws && q in ws[v].producers
      ensures q in qs
    {
      if v == voter {
        assert q in Joined(ballot, weight);
        assert Votable(ps, q, voting);
      }
    }
  }

  /** The new row is well formed, and so is the forest with the voter's edge as its youngest. */
  lemma CastStructure(vs: Voters, ages: Ages, clock: nat, voter: Name, ballot: Ballot, weight: real, voting: bool)
    requires RowsOk(vs) && Forest(vs, ages, clock) && MayVote(vs, voter, ballot)
    requires ProxyChosen(vs, ballot.proxy, voting)
    requires !voting ==> ballot.proxy == vs[voter].proxy
    ensures var ws := vs[voter := CastRow(vs[voter], ballot, weight)];
            && RowsOk(ws)
            && if voting then Forest(ws, ages[voter := clock + 1], clock + 1) else Forest(ws, ages, clock)
  {
    var row := CastRow(vs[voter], ballot, weight);
    var ws := vs[voter := row];
    assert RowOk(vs, voter);
    forall v | v in ws
      ensures RowOk(ws, v)
    {
      assert RowOk(vs, v);
    }
    if voting {
      if ballot.proxy != NO_NAME {
        assert RowOk(vs, ballot.proxy);
      }
      NewestEdge(vs, ages, clock, voter, row);
    } else {
      SameEdge(vs, ages, clock, voter, row);
    }
  }

  // The three main results about update_votes

  lemma WithdrawSucceeds(b: Books, ages: Ages, clock: nat, voter: Name, factor: real, now: int, out: Outcome)
    requires RowsOk(b.voters) && Forest(b.voters, ages, clock) && voter in b.voters
    requires out == Withdraw(b, ages, clock, voter, factor, now)
    ensures InStep(b, out.books, now)
    ensures ListedRegistered(b.voters, b.producers) ==> out.ok && ListedRegistered(out.books.voters, out.books.producers)
  {
    assert RowOk(b.voters, voter);
    var row := b.voters[voter];
    if row.lastVoteWeight > 0.0 && row.proxy != NO_NAME {
      RelendSucceeds(b, ages, clock, row.proxy, -row.lastVoteWeight, factor, now, out);
    }
  }

  lemma LendSucceeds(b: Books, ages: Ages, clock: nat, p: Name, weight: real, factor: real, now: int, out: Outcome)
    requires RowsOk(b.voters) && Forest(b.voters, ages, clock) && (p != NO_NAME ==> p in b.voters)
    requires out == Lend(b, ages, clock, p, weight, factor, now)
    ensures InStep(b, out.books, now)
    ensures ListedRegistered(b.voters, b.producers) ==> out.ok && ListedRegistered(out.books.voters, out.books.producers)
  {
    if p != NO_NAME && weight >= 0.0 {
      RelendSucceeds(b, ages, clock, p, weight, factor, now, out);
    }
  }

  /** A valid ballot is refused exactly when the proxy or a newly chosen producer is not available. */
  lemma RevoteSucceeds(b: Books, ages: Ages, clock: nat, voter: Name, ballot: Ballot, voting: bool,
                       factor: real, now: int, out: Outcome)
    requires RowsOk(b.voters) && Forest(b.voters, ages, clock) && MayVote(b.voters, voter, ballot)
    requires ListedRegistered(b.voters, b.producers)
    requires out == Revote(b, ages, clock, voter, ballot, voting, factor, now)
    ensures out.ok <==> && ProxyChosen(b.voters, ballot.proxy, voting)
                        && AllVotable(b.producers, Joined(ballot, CurrentWeight(b.voters[voter], factor)), voting)
  {
    var first := Withdraw(b, ages, clock, voter, factor, now);
    WithdrawSucceeds(b, ages, clock, voter, factor, now, first);
    if ProxyChosen(b.voters, ballot.proxy, voting) {
      var weight := CurrentWeight(b.voters[voter], factor);
      LendSucceeds(first.books, ages, clock, ballot.proxy, weight, factor, now,
                   Lend(first.books, ages, clock, ballot.proxy, weight, factor, now));
    }
  }

  /** So a change of stake, which repeats the ballot on record, is never refused. */
  lemma RepeatSucceeds(b: Books, ages: Ages, clock: nat, voter: Name, factor: real, now: int, out: Outcome)
    requires RowsOk(b.voters) && Forest(b.voters, ages, clock) && voter in b.voters
    requires var row := b.voters[voter];
             && MayVote(b.voters, voter, Ballot(row.proxy, row.producers))
             && out == Revote(b, ages, clock, voter, Ballot(row.proxy, row.producers), false, factor, now)
    requires ListedRegistered(b.voters, b.producers)
    ensures out.ok
  {
    var row := b.voters[voter];
    assert RowOk(b.voters, voter);
    var ballot := Ballot(row.proxy, row.producers);
    RevoteSucceeds(b, ages, clock, voter, ballot, false, factor, now, out);
    forall q | q in Joined(ballot, CurrentWeight(row, factor))
      ensures Votable(b.producers, q, false)
    {
      assert q in b.voters[voter].producers;
    }
  }

  /** The voter's row holds the ballot; every other row keeps all but its weights. */
  lemma RevoteRows(b: Books, ages: Ages, clock: nat, voter: Name, ballot: Ballot, voting: bool,
                   factor: real, now: int, out: Outcome)
    requires RowsOk(b.voters) && Forest(b.voters, ages, clock) && MayVote(b.voters, voter, ballot)
    requires !voting ==> ballot.proxy == b.voters[voter].proxy
    requires out == Revote(b, ages, clock, voter, ballot, voting, factor, now) && out.ok
    ensures var vs := out.books.voters;
            && vs.Keys == b.voters.Keys && RowsOk(vs)
            && (if voting then Forest(vs, ages[voter := clock + 1], clock + 1) else Forest(vs, ages, clock))
            && (forall v {:trigger vs[v]} :: v in vs && v != voter ==> Reweighed(b.voters[v], vs[v]))
            && vs[voter] == CastRow(vs[voter], ballot, CurrentWeight(b.voters[voter], factor))
            && vs[voter].staked == b.voters[voter].staked && vs[voter].isProxy == b.voters[voter].isProxy
            && vs[voter].shares == b.voters[voter].shares
            && SameButVotes(b.producers, out.books.producers)
  {
    var weight := CurrentWeight(b.voters[voter], factor);
    var first := Withdraw(b, ages, clock, voter, factor, now);
    var second := Lend(first.books, ages, clock, ballot.proxy, weight, factor, now);
    RevoteProducers(b, ages, clock, voter, ballot, voting, factor, now, out);
    assert Reweighed(b.voters[voter], second.books.voters[voter]);
    if ballot.proxy != NO_NAME {
      assert Reweighed(b.voters[ballot.proxy], second.books.voters[ballot.proxy]);
    }
    CastStructure(second.books.voters, ages, clock, voter, ballot, weight, voting);
  }

  /** Nothing of the producers changes but votes. */
  lemma RevoteProducers(b: Books, ages: Ages, clock: nat, voter: Name, ballot: Ballot, voting: bool,
                        factor: real, now: int, out: Outcome)
    requires RowsOk(b.voters) && Forest(b.voters, ages, clock) && MayVote(b.voters, voter, ballot)
    requires out == Revote(b, ages, clock, voter, ballot, voting, factor, now) && out.ok
    ensures SameButVotes(b.producers, out.books.producers)
  {
    var weight := CurrentWeight(b.voters[voter], factor);
    var first := Withdraw(b, ages, clock, voter, factor, now);
    var second := Lend(first.books, ages, clock, ballot.proxy, weight, factor, now);
    WithdrawSucceeds(b, ages, clock, voter, factor, now, first);
    LendSucceeds(first.books, ages, clock, ballot.proxy, weight, factor, now, second);
    var deltas := Deltas(b.voters[voter], ballot, weight);
    SweepFields(Sweep(second.books.producers, second.books.rows, second.books.weight, 0.0, 0.0),
                InOrder(deltas.Keys), deltas, true, now);
  }

  /** Even where tallies are cut off, a sweep changes nothing but votes. */
  lemma {:induction false} SweepFields(s: Sweep, names: seq<Name>, changes: map<Name, real>, cutOff: bool, now: int)
    ensures SameButVotes(s.producers, SweepAll(s, names, changes, cutOff, now).producers)
    decreases |names|
  {
    if names != [] {
      var next := if names[0] in s.producers then SweepOne(s, names[0], ChangeOf(changes, names[0]), cutOff, now) else s;
      SweepFields(next, names[1..], changes, cutOff, now);
    }
  }

  /** Whatever was suppressed before, a vote leaves no tally it touches below zero. */
  lemma RevoteCutsOff(b: Books, ages: Ages, clock: nat, voter: Name, ballot: Ballot, voting: bool,
                      factor: real, now: int, out: Outcome)
    requires RowsOk(b.voters) && Forest(b.voters, ages, clock) && MayVote(b.voters, voter, ballot)
    requires out == Revote(b, ages, clock, voter, ballot, voting, factor, now) && out.ok
    ensures var row, weight := b.voters[voter], CurrentWeight(b.voters[voter], factor);
            forall q :: q in out.books.producers
                        && ((row.lastVoteWeight > 0.0 && row.proxy == NO_NAME && q in row.producers)
                            || (weight >= 0.0 && ballot.proxy == NO_NAME && q in ballot.producers))
              ==> out.books.producers[q].totalVotes >= 0.0
  {
    var row, weight := b.voters[voter], CurrentWeight(b.voters[voter], factor);
    var first := Withdraw(b, ages, clock, voter, factor, now);
    var second := Lend(first.books, ages, clock, ballot.proxy, weight, factor, now);
    var deltas := Deltas(row, ballot, weight);
    InSetOf(row.producers);
    InSetOf(ballot.producers);
    SweepCutsOff(Sweep(second.books.producers, second.books.rows, second.books.weight, 0.0, 0.0),
                 InOrder(deltas.Keys), deltas, true, now);
  }

  /** When nothing but zero was suppressed, every total equals its fold again, and no tally was to go below zero. */
  lemma RevoteKeeps(b: Books, ages: Ages, clock: nat, voter: Name, ballot: Ballot, voting: bool,
                    factor: real, now: int, out: Outcome)
    requires RowsOk(b.voters) && Forest(b.voters, ages, clock) && MayVote(b.voters, voter, ballot) && factor > 0.0
    requires !voting ==> ballot.proxy == b.voters[voter].proxy
    requires out == Revote(b, ages, clock, voter, ballot, voting, factor, now) && out.ok && out.exact
    requires WeightsMatch(b)
    ensures WeightsMatch(out.books) && out.nonneg
    ensures Dated(b, now) ==> Dated(out.books, now)
  {
    var row := b.voters[voter];
    var weight := CurrentWeight(row, factor);
    assert RowOk(b.voters, voter);
    NoProxyRows(b.voters);
    assert ProxyGap(b.voters, voter) == 0.0;
    ProxiedAtLeast(b.voters, voter, voter);
    CurrentWeightNonneg(row, factor);
    var first := Withdraw(b, ages, clock, voter, factor, now);
    WithdrawSucceeds(b, ages, clock, voter, factor, now, first);
    WithdrawKeeps(b, ages, clock, voter, factor, now, first);
    var second := Lend(first.books, ages, clock, ballot.proxy, weight, factor, now);
    LendSucceeds(first.books, ages, clock, ballot.proxy, weight, factor, now, second);
    LendChosen(b, first.books, ballot.proxy, voting);
    LendKeeps(first.books, b.voters, ages, clock, voter, ballot.proxy, voting, weight, factor, now, second);
    CastKeeps(b, second.books, voter, ballot, weight, voting, now, out.books);
  }

  lemma RelendPay(b: Books, ages: Ages, clock: nat, p: Name, amount: real, factor: real, now: int, out: Outcome)
    requires RowsOk(b.voters) && Forest(b.voters, ages, clock) && p in b.voters
    requires out == Relend(b, ages, clock, p, amount, factor, now) && out.nonneg
    ensures KeepsPay(b, out.books, now)
  {
    var lent := b.(voters := AddProxied(b.voters, p, amount));
    SameStructure(b.voters, lent.voters, ages, clock);
    PropagatePay(lent, ages, clock, p, factor, now, out);
  }

  lemma WithdrawPay(b: Books, ages: Ages, clock: nat, voter: Name, factor: real, now: int, out: Outcome)
    requires RowsOk(b.voters) && Forest(b.voters, ages, clock) && voter in b.voters
    requires out == Withdraw(b, ages, clock, voter, factor, now) && out.nonneg
    ensures KeepsPay(b, out.books, now)
  {
    var row := b.voters[voter];
    assert RowOk(b.voters, voter);
    if row.lastVoteWeight > 0.0 && row.proxy != NO_NAME {
      RelendPay(b, ages, clock, row.proxy, -row.lastVoteWeight, factor, now, out);
    }
  }

  lemma LendPay(b: Books, ages: Ages, clock: nat, p: Name, weight: real, factor: real, now: int, out: Outcome)
    requires RowsOk(b.voters) && Forest(b.voters, ages, clock) && (p != NO_NAME ==> p in b.voters)
    requires out == Lend(b, ages, clock, p, weight, factor, now) && out.nonneg
    ensures KeepsPay(b, out.books, now)
  {
    if p != NO_NAME && weight >= 0.0 {
      RelendPay(b, ages, clock, p, weight, factor, now, out);
    }
  }

  lemma CastPay(b: Books, c: Books, voter: Name, ballot: Ballot, weight: real, now: int, out: Books)
    requires voter in b.voters && voter in c.voters && out == Cast(b, c, voter, ballot, weight, now)
    requires var deltas := Deltas(b.voters[voter], ballot, weight); StaysNonneg(c.producers, InOrder(deltas.Keys), deltas)
    ensures KeepsPay(c, out, now)
  {
    var deltas := Deltas(b.voters[voter], ballot, weight);
    SweptKeepsPay(c, InOrder(deltas.Keys), deltas, true, now);
  }

  /** While no tally is to go below zero, whatever was suppressed, a vote leaves pay settled. */
  lemma RevotePay(b: Books, ages: Ages, clock: nat, voter: Name, ballot: Ballot, voting: bool,
                  factor: real, now: int, out: Outcome)
    requires RowsOk(b.voters) && Forest(b.voters, ages, clock) && MayVote(b.voters, voter, ballot)
    requires out == Revote(b, ages, clock, voter, ballot, voting, factor, now) && out.ok && out.nonneg
    ensures KeepsPay(b, out.books, now)
  {
    var weight := CurrentWeight(b.voters[voter], factor);
    var first := Withdraw(b, ages, clock, voter, factor, now);
    WithdrawPay(b, ages, clock, voter, factor, now, first);
    var second := Lend(first.books, ages, clock, ballot.proxy, weight, factor, now);
    LendPay(first.books, ages, clock, ballot.proxy, weight, factor, now, second);
    CastPay(b, second.books, voter, ballot, weight, now, out.books);
  }

  lemma LendChosen(b: Books, c: Books, p: Name, voting: bool)
    requires SameButWeights(b.voters, c.voters) && ProxyChosen(b.voters, p, voting)
    ensures ProxyChosen(c.voters, p, voting)
  {
    if p != NO_NAME {
      assert Reweighed(b.voters[p], c.voters[p]);
    }
  }

  lemma CastKeeps(b: Books, c: Books, voter: Name, ballot: Ballot, weight: real, voting: bool, now: int, out: Books)
    requires voter in b.voters && NO_NAME !in b.voters && weight >= 0.0 && BallotOk(voter, ballot)
    requires MatchesBut(c, b.voters, b.voters[voter].proxy, b.voters[voter].lastVoteWeight, ballot.proxy, weight)
    requires c.voters[voter] == b.voters[voter]
    requires SameButVotes(b.producers, c.producers) && AllVotable(b.producers, Joined(ballot, weight), voting)
    requires var deltas := Deltas(b.voters[voter], ballot, weight);
             var d := Swept(c, InOrder(deltas.Keys), deltas, true, now);
             out == d.(voters := d.voters[voter := CastRow(c.voters[voter], ballot, weight)])
    ensures WeightsMatch(out)
    ensures StaysNonneg(c.producers, InOrder(Deltas(b.voters[voter], ballot, weight).Keys), Deltas(b.voters[voter], ballot, weight))
    ensures Dated(c, now) ==> Dated(out, now)
  {
    var deltas := Deltas(b.voters[voter], ballot, weight);
    var d := Swept(c, InOrder(deltas.Keys), deltas, true, now);
    forall q | q in Joined(ballot, weight)
      ensures Votable(c.producers, q, voting)
    {
      assert Votable(b.producers, q, voting);
    }
    SweepGaps(c, voter, ballot, weight, voting, now, d);
    DeltasStayNonneg(c, voter, ballot, weight);
    CastCloses(c.voters, d.producers, voter, ballot, weight);
    CastListed(c.voters, c.producers, d.producers, voter, ballot, weight, voting);
  }
}
