/**
 * The voting, registration and claim actions of contracts/eosio.system/src/voting.cpp and producer_pay.cpp,
 * on the tables they update in place.  An action whose check fails is rolled back.
 */
module Voting {
  import opened Names
  import opened VoteTables
  import opened ProxyForest
  import opened VotePay
  import opened VoterShares
  import opened VoteSpec
  import opened Revoting
  import opened VotingState
  import opened ProducerState
  import opened TokenLedger
  import opened Inflation
  import opened RewardPools

  /** An entry of the map of producer deltas, and whether the producer is on the new ballot. */
  datatype Delta = Delta(amount: real, chosen: bool)

  class VotingEngine {
    var voters: Voters
    var producers: Producers
    var producers2: Producers2
    var totalProducerVoteWeight: real
    var pay: PayState
    var g: GlobalState
    var totalUnpaidBlocks: int
    const pool: RewardPool

    ghost var h: History
    /** What each voter's rate was set from when it was last credited. */
    ghost var credits: Credits

    ghost function TheBooks(): Books
      reads this
    {
      Books(voters, producers, producers2, totalProducerVoteWeight, pay)
    }

    /**
     * What holds of the tables between actions, in every run.  It is said of any books that are these tables, so
     * that a proof looks into it only where it speaks of their soundness.
     */
    ghost predicate TablesValid()
      reads this
    {
      && (forall b :: b == TheBooks() ==> Sound(b, g, h)) && (forall vs :: vs == voters ==> RatesCredited(vs, credits))
      && totalUnpaidBlocks == AllUnpaidBlocks(producers)
    }

    /** And of the reward buckets. */
    ghost predicate Valid()
      reads this, pool, pool.token
    {
      TablesValid() && pool.Valid()
    }

    /** Producers may have registered, and produced blocks, before there were votes and vote-pay rows. */
    constructor (pool: RewardPool, older: Producers, blocks: int, now: int)
      requires pool.Valid() && now > 0 && Unvoted(older) && blocks == AllUnpaidBlocks(older)
      ensures Valid() && this.pool == pool && TheBooks() == StartBooks(older) && g == AT_START
      ensures totalUnpaidBlocks == blocks && h == StartHistory(now) && credits == map[]
    {
      this.pool := pool;
      voters, producers, producers2, totalProducerVoteWeight := map[], older, map[], 0.0;
      pay, g, totalUnpaidBlocks := PayState(0.0, 0.0, 0), AT_START, blocks;
      h, credits := StartHistory(now), map[];
      StartSound(older, now);
    }

    // Parts of actions

    /** update_total_votepay_share. */
    method UpdateTotalVotepayShare(now: int, additionalShares: real, rateDelta: real)
      modifies `pay
      ensures pay == PaidUp(old(pay), now, additionalShares, rateDelta)
    {
      var delta := 0.0;
      if now > pay.updated {
        delta := pay.rate * Seconds(now - pay.updated);
      }
      delta := delta + additionalShares;
      if delta < 0.0 && pay.total < -delta {
        pay := pay.(total := 0.0);
      } else {
        pay := pay.(total := pay.total + delta);
      }
      if rateDelta < 0.0 && pay.rate < -rateDelta {
        pay := pay.(rate := 0.0);
      } else {
        pay := pay.(rate := pay.rate + rateDelta);
      }
      pay := pay.(updated := now);
    }

    /** update_producer_votepay_share. */
    method UpdateProducerVotepayShare(q: Name, now: int, rate: real, reset: bool) returns (share: real)
      requires q in producers2
      modifies `producers2
      ensures share == GrownShare(old(producers2)[q], rate, now)
      ensures producers2 == old(producers2)[q := Producer2(if reset then 0.0 else share, now)]
    {
      var row := producers2[q];
      var delta := 0.0;
      if rate > 0.0 && now > row.lastVotepayShareUpdate {
        delta := rate * Seconds(now - row.lastVotepayShareUpdate);
      }
      share := row.votepayShare + delta;
      producers2 := producers2[q := Producer2(if reset then 0.0 else share, now)];
    }

    /** One producer of a sweep: the body the two loops over producers share. */
    method AdjustVotes(q: Name, delta: real, cutOff: bool, now: int, rateDelta: real, forfeited: real)
      returns (newRateDelta: real, newForfeited: real)
      requires q in producers
      modifies `producers, `producers2, `totalProducerVoteWeight
      ensures Sweep(producers, producers2, totalProducerVoteWeight, newRateDelta, newForfeited)
              == SweepOne(old(Sweep(producers, producers2, totalProducerVoteWeight, rateDelta, forfeited)),
                          q, delta, cutOff, now)
    {
      newRateDelta, newForfeited := rateDelta, forfeited;
      var p := producers[q];
      var votes := p.totalVotes + delta;
      if cutOff && votes < 0.0 {
        votes := 0.0;
      }
      producers := producers[q := p.(totalVotes := votes)];
      totalProducerVoteWeight := totalProducerVoteWeight + delta;
      if q in producers2 {
        var lapse := p.lastClaimTime + THREE_DAYS;
        var crossed := lapse <= now;
        var updatedAfter := lapse <= producers2[q].lastVotepayShareUpdate;
        var share := UpdateProducerVotepayShare(q, now, if updatedAfter then 0.0 else p.totalVotes,
                                                crossed && !updatedAfter);
        if !crossed {
          newRateDelta := rateDelta + delta;
        } else if !updatedAfter {
          newForfeited := forfeited + share;
          newRateDelta := rateDelta - p.totalVotes;
        }
      }
    }

    method PassChangeToProducers(names: seq<Name>, delta: real, now: int) returns (ok: bool)
      modifies `producers, `producers2, `totalProducerVoteWeight, `pay
      ensures ok <==> AllRegistered(names, old(producers))
      ensures ok ==> TheBooks() == Swept(old(TheBooks()), names, Uniform(names, delta), false, now)
    {
      ghost var changes := Uniform(names, delta);
      ghost var start := Sweep(producers, producers2, totalProducerVoteWeight, 0.0, 0.0);
      var rateDelta, forfeited := 0.0, 0.0;
      var i := 0;
      while i < |names|
        invariant 0 <= i <= |names|
        invariant producers.Keys == old(producers).Keys
        invariant forall j :: 0 <= j < i ==> names[j] in producers
        invariant SweepAll(Sweep(producers, producers2, totalProducerVoteWeight, rateDelta, forfeited),
                           names[i..], changes, false, now)
                  == SweepAll(start, names, changes, false, now)
        invariant pay == old(pay)
      {
        if names[i] !in producers {
          assert names[i] in names;
          return false;
        }
        assert ChangeOf(changes, names[i]) == delta;
        rateDelta, forfeited := AdjustVotes(names[i], delta, false, now, rateDelta, forfeited);
        assert names[i..][1..] == names[i + 1..];
        i := i + 1;
      }
      UpdateTotalVotepayShare(now, -forfeited, rateDelta);
      ok := true;
    }

    /**
     * propagate_weight_change.  The rank falls along every proxy edge, so the recursion ends; an account
     * with a proxy is never a proxy, so its first check never fails.
     */
    method PropagateWeightChange(v: Name, factor: real, now: int) returns (ok: bool)
      requires RowsOk(voters) && Forest(voters, h.ages, h.clock) && v in voters
      modifies `voters, `producers, `producers2, `totalProducerVoteWeight, `pay
      ensures var out := Propagate(old(TheBooks()), h.ages, h.clock, v, factor, now);
              (ok <==> out.ok) && (ok ==> TheBooks() == out.books)
      decreases Rank(voters, h.ages, h.clock, v), 1
    {
      assert RowOk(voters, v);
      var row := voters[v];
      assert row.proxy == NO_NAME || !row.isProxy;
      var weight := Stake2Vote(row.staked, factor);
      if row.isProxy {
        weight := weight + row.proxiedVoteWeight;
      }
      var delta := weight - row.lastVoteWeight;
      assert delta == ChangeAt(voters, v, factor);
      ok := true;
      if delta > 1.0 || -delta > 1.0 {
        if row.proxy != NO_NAME {
          LentStructure(TheBooks(), h.ages, h.clock, v, delta);
          ok := PassChangeToProxy(v, delta, factor, now);
        } else {
          ok := PassChangeToProducers(row.producers, delta, now);
        }
      }
      if ok {
        voters := voters[v := voters[v].(lastVoteWeight := weight)];
      }
    }

    method PassChangeToProxy(v: Name, delta: real, factor: real, now: int) returns (ok: bool)
      requires RowsOk(voters) && Forest(voters, h.ages, h.clock) && v in voters
      requires voters[v].proxy != NO_NAME && voters[v].proxy in voters
      requires var lent := Lent(TheBooks(), v, delta).voters; RowsOk(lent) && Forest(lent, h.ages, h.clock)
      modifies `voters, `producers, `producers2, `totalProducerVoteWeight, `pay
      ensures var out := Propagate(Lent(old(TheBooks()), v, delta), h.ages, h.clock, old(voters)[v].proxy, factor, now);
              (ok <==> out.ok) && (ok ==> TheBooks() == out.books)
      decreases Rank(voters, h.ages, h.clock, v), 0
    {
      LentStructure(TheBooks(), h.ages, h.clock, v, delta);
      var p := voters[v].proxy;
      voters := voters[p := voters[p].(proxiedVoteWeight := voters[p].proxiedVoteWeight + delta)];
      ok := PropagateWeightChange(p, factor, now);
    }

    /** A change to a proxy's total, propagated. */
    method ChangeProxied(p: Name, amount: real, factor: real, now: int) returns (ok: bool)
      requires RowsOk(voters) && Forest(voters, h.ages, h.clock) && p in voters
      modifies `voters, `producers, `producers2, `totalProducerVoteWeight, `pay
      ensures var out := Relend(old(TheBooks()), h.ages, h.clock, p, amount, factor, now);
              (ok <==> out.ok) && (ok ==> TheBooks() == out.books)
    {
      SameStructure(voters, AddProxied(voters, p, amount), h.ages, h.clock);
      voters := voters[p := voters[p].(proxiedVoteWeight := voters[p].proxiedVoteWeight + amount)];
      ok := PropagateWeightChange(p, factor, now);
    }

    static function AmountIn(deltas: map<Name, Delta>, q: Name): real {
      if q in deltas then deltas[q].amount else 0.0
    }

    /** The loop that takes the present weight from the producers of the old ballot. */
    static method TakeFromOld(names: seq<Name>, weight: real) returns (deltas: map<Name, Delta>)
      requires StrictlySorted(names)
      ensures forall q :: q in deltas <==> q in names
      ensures forall q :: q in deltas ==> deltas[q] == Delta(-weight, false)
    {
      deltas := map[];
      var i := 0;
      while i < |names|
        invariant 0 <= i <= |names|
        invariant forall q :: q in deltas <==> q in names[..i]
        invariant forall q :: q in deltas ==> deltas[q] == Delta(-weight, false)
      {
        assert names[..i + 1] == names[..i] + [names[i]];
        deltas := deltas[names[i] := Delta(AmountIn(deltas, names[i]) - weight, false)];
        i := i + 1;
      }
      assert names[..i] == names;
    }

    /** The loop that gives the new weight to the producers of the new ballot. */
    static method GiveToNew(taken: map<Name, Delta>, names: seq<Name>, weight: real) returns (deltas: map<Name, Delta>)
      requires StrictlySorted(names)
      ensures forall q :: q in deltas <==> q in taken || q in names
      ensures forall q :: q in deltas ==>
                deltas[q] == if q in names then Delta(AmountIn(taken, q) + weight, true) else taken[q]
    {
      deltas := taken;
      var i := 0;
      while i < |names|
        invariant 0 <= i <= |names|
        invariant forall q :: q in deltas <==> q in taken || q in names[..i]
        invariant forall q :: q in deltas ==>
                    deltas[q] == if q in names[..i] then Delta(AmountIn(taken, q) + weight, true) else taken[q]
      {
        assert names[..i + 1] == names[..i] + [names[i]];
        deltas := deltas[names[i] := Delta(AmountIn(deltas, names[i]) + weight, true)];
        i := i + 1;
      }
      assert names[..i] == names;
    }

    /** The map of producer deltas. */
    static method CollectDeltas(row: Voter, ballot: Ballot, weight: real) returns (deltas: map<Name, Delta>)
      requires StrictlySorted(row.producers) && StrictlySorted(ballot.producers)
      ensures deltas.Keys == Deltas(row, ballot, weight).Keys
      ensures forall q :: q in deltas ==> && deltas[q].amount == Deltas(row, ballot, weight)[q]
                                          && deltas[q].chosen == (q in Joined(ballot, weight))
    {
      var taken: map<Name, Delta> := map[];
      if row.lastVoteWeight > 0.0 && row.proxy == NO_NAME {
        taken := TakeFromOld(row.producers, row.lastVoteWeight);
      }
      deltas := taken;
      if ballot.proxy == NO_NAME && weight >= 0.0 {
        deltas := GiveToNew(taken, ballot.producers, weight);
      }
      InSetOf(row.producers);
      InSetOf(ballot.producers);
    }

    /** One entry of the deltas: a newly chosen producer must be registered, and active if this is a vote. */
    method ApplyDelta(q: Name, delta: Delta, voting: bool, now: int, rateDelta: real, forfeited: real, ghost first: Producers)
      returns (ok: bool, newRateDelta: real, newForfeited: real)
      requires SameButVotes(first, producers)
      modifies `producers, `producers2, `totalProducerVoteWeight
      ensures ok <==> (delta.chosen ==> Votable(first, q, voting))
      ensures ok ==> var before := old(Sweep(producers, producers2, totalProducerVoteWeight, rateDelta, forfeited));
                     Sweep(producers, producers2, totalProducerVoteWeight, newRateDelta, newForfeited)
                     == if q in before.producers then SweepOne(before, q, delta.amount, true, now) else before
      ensures SameButVotes(first, producers)
    {
      newRateDelta, newForfeited := rateDelta, forfeited;
      ghost var before := producers;
      if q in producers {
        if voting && !producers[q].isActive && delta.chosen {
          return false, rateDelta, forfeited;
        }
        newRateDelta, newForfeited := AdjustVotes(q, delta.amount, true, now, rateDelta, forfeited);
        SameButVotesTwice(first, before, producers);
      } else if delta.chosen {
        return false, rateDelta, forfeited;
      }
      ok := true;
    }

    /** The loop over the deltas, in ascending order of producers. */
    method ApplyDeltas(deltas: map<Name, Delta>, voting: bool, now: int, ghost joined: set<Name>, ghost changes: map<Name, real>)
      returns (ok: bool)
      requires deltas.Keys == changes.Keys && joined <= deltas.Keys
      requires forall q :: q in deltas ==> deltas[q].amount == changes[q] && deltas[q].chosen == (q in joined)
      modifies `producers, `producers2, `totalProducerVoteWeight, `pay
      ensures ok <==> AllVotable(old(producers), joined, voting)
      ensures ok ==> TheBooks() == Swept(old(TheBooks()), InOrder(changes.Keys), changes, true, now)
    {
      ghost var target := SweepSet(Sweep(producers, producers2, totalProducerVoteWeight, 0.0, 0.0), changes.Keys, changes, now);
      var rateDelta, forfeited := 0.0, 0.0;
      var rest := deltas.Keys;
      while rest != {}
        invariant rest <= deltas.Keys
        invariant SameButVotes(old(producers), producers)
        invariant forall q :: q in joined && q !in rest ==> Votable(old(producers), q, voting)
        invariant SweepSet(Sweep(producers, producers2, totalProducerVoteWeight, rateDelta, forfeited), rest, changes, now)
                  == target
        invariant pay == old(pay)
      {
        LeastExists(rest);
        var q :| q in rest && forall x :: x in rest ==> q <= x;
        SweepLeast(Sweep(producers, producers2, totalProducerVoteWeight, rateDelta, forfeited), rest, q, changes, now);
        ok, rateDelta, forfeited := ApplyDelta(q, deltas[q], voting, now, rateDelta, forfeited, old(producers));
        if !ok {
          return;
        }
        rest := rest - {q};
      }
      UpdateTotalVotepayShare(now, -forfeited, rateDelta);
      ok := true;
    }

    /** update_voter_votepay_share. */
    method UpdateVoterVotepayShare(v: Name, now: int)
      requires v in voters
      modifies `voters, `g
      ensures voters == old(voters)[v := CreditedRow(old(voters)[v], now)]
      ensures g == CreditedTotals(old(g), old(voters)[v], now)
    {
      var row := voters[v];
      var unpaid := row.shares.unpaid;
      if row.shares.updated != 0 && row.shares.updated < now {
        unpaid := unpaid + row.shares.rate * Seconds(now - row.shares.updated);
      }
      var rate := 0.0;
      if |row.producers| >= 16 || row.proxy != NO_NAME {
        rate := row.lastVoteWeight - row.proxiedVoteWeight;
      }
      var rateDelta := rate - row.shares.rate;
      if g.totalUnpaidVoteshareLastUpdated != 0 && g.totalUnpaidVoteshareLastUpdated < now {
        g := g.(totalUnpaidVoteshare := g.totalUnpaidVoteshare
                  + g.totalVoteshareChangeRate * Seconds(now - g.totalUnpaidVoteshareLastUpdated));
      }
      g := g.(totalVoteshareChangeRate := g.totalVoteshareChangeRate + rateDelta,
              totalUnpaidVoteshareLastUpdated := now);
      var credited := row.(shares := row.shares.(unpaid := unpaid, updated := now, rate := rate));
      assert credited == CreditedRow(row, now);
      voters := voters[v := credited];
    }

    method ActivateStake(v: Name, now: int)
      requires v in voters
      modifies `g
      ensures g == Activated(old(g), voters[v], now)
    {
      if g.threshActivatedStakeTime == 0 && voters[v].lastVoteWeight <= 0.0 {
        g := g.(totalActivatedStake := g.totalActivatedStake + voters[v].staked);
        if g.totalActivatedStake >= MIN_ACTIVATED_STAKE {
          g := g.(threshActivatedStakeTime := now);
        }
      }
    }

    /** update_votes. */
    method UpdateVotes(voter: Name, ballot: Ballot, voting: bool, factor: real, now: int) returns (ok: bool)
      requires RowsOk(voters) && Forest(voters, h.ages, h.clock)
      modifies `voters, `producers, `producers2, `totalProducerVoteWeight, `pay, `g, `h
      ensures ok <==> CanVote(old(TheBooks()), old(h), voter, ballot, voting, factor, now)
      ensures ok ==> VoteStep(old(TheBooks()), old(g), old(h), voter, ballot, voting, factor, now, TheBooks(), g, h)
      ensures !ok ==> h == old(h)
    {
      if ballot.proxy != NO_NAME {
        if ballot.producers != [] || voter == ballot.proxy {
          return false;
        }
      } else {
        var sorted := IsSorted(ballot.producers);
        if |ballot.producers| > 30 || !sorted {
          return false;
        }
      }
      if voter !in voters || (ballot.proxy != NO_NAME && voters[voter].isProxy) {
        return false;
      }
      ghost var out := Revote(TheBooks(), h.ages, h.clock, voter, ballot, voting, factor, now);
      ok := CastBallot(voter, ballot, voting, factor, now);
      if ok {
        h := Chosen(h.(latest := now), voter, voting, out);
      }
    }

    /** The check that the ballot is unique and sorted, neighbour by neighbour. */
    static method IsSorted(names: seq<Name>) returns (sorted: bool)
      ensures sorted <==> StrictlySorted(names)
    {
      var i := 1;
      while i < |names|
        invariant 1 <= i && (i <= |names| || names == [])
        invariant forall j, k :: 0 <= j < k < i && k < |names| ==> names[j] < names[k]
      {
        if names[i - 1] >= names[i] {
          return false;
        }
        i := i + 1;
      }
      sorted := true;
    }

    /** The old vote for a proxy is taken back. */
    method TakeFromProxy(voter: Name, factor: real, now: int) returns (ok: bool)
      requires RowsOk(voters) && Forest(voters, h.ages, h.clock) && voter in voters
      modifies `voters, `producers, `producers2, `totalProducerVoteWeight, `pay
      ensures var out := Withdraw(old(TheBooks()), h.ages, h.clock, voter, factor, now);
              (ok <==> out.ok) && (ok ==> TheBooks() == out.books)
    {
      assert RowOk(voters, voter);
      var row := voters[voter];
      ok := true;
      if row.lastVoteWeight > 0.0 && row.proxy != NO_NAME {
        ok := ChangeProxied(row.proxy, -row.lastVoteWeight, factor, now);
      }
    }

    /** The new weight is lent to the proxy voted for. */
    method GiveToProxy(p: Name, weight: real, voting: bool, factor: real, now: int) returns (ok: bool)
      requires RowsOk(voters) && Forest(voters, h.ages, h.clock)
      modifies `voters, `producers, `producers2, `totalProducerVoteWeight, `pay
      ensures !ProxyChosen(old(voters), p, voting) ==> !ok
      ensures ProxyChosen(old(voters), p, voting) ==>
                var out := Lend(old(TheBooks()), h.ages, h.clock, p, weight, factor, now);
                (ok <==> out.ok) && (ok ==> TheBooks() == out.books)
    {
      ok := true;
      if p != NO_NAME {
        if p !in voters || (voting && !voters[p].isProxy) {
          return false;
        }
        if weight >= 0.0 {
          ok := ChangeProxied(p, weight, factor, now);
        }
      }
    }

    /** The rest of update_votes: the deltas, the voter's row, and the voter's unpaid share. */
    method FinishBallot(voter: Name, ballot: Ballot, weight: real, voting: bool, now: int, row: Voter, ghost b: Books)
      returns (ok: bool)
      requires voter in voters && voter in b.voters && row == b.voters[voter] && SameButVotes(b.producers, producers)
      requires StrictlySorted(row.producers) && StrictlySorted(ballot.producers)
      modifies `voters, `producers, `producers2, `totalProducerVoteWeight, `pay, `g
      ensures ok <==> AllVotable(b.producers, Joined(ballot, weight), voting)
      ensures ok ==> var c := Cast(b, old(TheBooks()), voter, ballot, weight, now);
                     TheBooks() == CreditVoter(c, voter, now) && g == CreditedTotals(old(g), c.voters[voter], now)
    {
      SameStanding(b.producers, producers, Joined(ballot, weight), voting);
      var deltas := CollectDeltas(row, ballot, weight);
      ok := ApplyDeltas(deltas, voting, now, Joined(ballot, weight), Deltas(row, ballot, weight));
      if !ok {
        return;
      }
      voters := voters[voter := voters[voter].(lastVoteWeight := weight, producers := ballot.producers, proxy := ballot.proxy)];
      UpdateVoterVotepayShare(voter, now);
    }

    method CastBallot(voter: Name, ballot: Ballot, voting: bool, factor: real, now: int) returns (ok: bool)
      requires RowsOk(voters) && Forest(voters, h.ages, h.clock) && MayVote(voters, voter, ballot)
      modifies `voters, `producers, `producers2, `totalProducerVoteWeight, `pay, `g
      ensures var out := Revote(old(TheBooks()), h.ages, h.clock, voter, ballot, voting, factor, now);
              && (ok <==> out.ok)
              && (ok ==> && TheBooks() == CreditVoter(out.books, voter, now)
                         && g == CreditedTotals(Activated(old(g), old(voters)[voter], now), out.books.voters[voter], now))
    {
      ActivateStake(voter, now);
      ghost var b := TheBooks();
      assert RowOk(voters, voter);
      var row := voters[voter];
      var weight := Stake2Vote(row.staked, factor);
      if row.isProxy {
        weight := weight + row.proxiedVoteWeight;
      }
      assert weight == CurrentWeight(row, factor);
      ghost var first := Withdraw(b, h.ages, h.clock, voter, factor, now);
      WithdrawSucceeds(b, h.ages, h.clock, voter, factor, now, first);
      ok := TakeFromProxy(voter, factor, now);
      if !ok {
        return;
      }
      SameChoice(b.voters, voters, ballot.proxy, voting);
      ok := GiveToProxy(ballot.proxy, weight, voting, factor, now);
      if !ok {
        return;
      }
      ghost var second := Lend(first.books, h.ages, h.clock, ballot.proxy, weight, factor, now);
      assert TheBooks() == second.books && second.ok;
      LendSucceeds(first.books, h.ages, h.clock, ballot.proxy, weight, factor, now, second);
      SameButVotesTwice(b.producers, first.books.producers, second.books.producers);
      ok := FinishBallot(voter, ballot, weight, voting, now, row, b);
    }

    // Actions

    /** Everything but the reward pool is as it was. */
    twostate predicate RolledBack()
      reads this
    {
      && TheBooks() == old(TheBooks()) && g == old(g) && h == old(h) && totalUnpaidBlocks == old(totalUnpaidBlocks)
      && credits == old(credits)
    }

    method Restore(vs: Voters, ps: Producers, rows: Producers2, weight: real, pay: PayState, g: GlobalState)
      modifies `voters, `producers, `producers2, `totalProducerVoteWeight, `pay, `g
      ensures TheBooks() == Books(vs, ps, rows, weight, pay) && this.g == g
    {
      this.voters, this.producers, this.producers2 := vs, ps, rows;
      this.totalProducerVoteWeight, this.pay, this.g := weight, pay, g;
    }

    /** A vote, and what the voter is then credited on. */
    method TakeVote(voter: Name, ballot: Ballot, factor: real, now: int) returns (ok: bool)
      requires RowsOk(voters) && Forest(voters, h.ages, h.clock)
      modifies `voters, `producers, `producers2, `totalProducerVoteWeight, `pay, `g, `h, `credits
      ensures ok ==> BallotStepsTo(old(TheBooks()), old(g), old(h), voter, ballot, factor, now, TheBooks(), g, h)
      ensures ok ==> credits == old(credits)[voter := CreditIn(voters, voter)]
      ensures !ok ==> BallotRefused(old(TheBooks()), old(g), old(h), voter, ballot, factor, now)
      ensures !ok ==> h == old(h) && credits == old(credits)
    {
      ghost var b, g0, h0 := TheBooks(), g, h;
      ok := UpdateVotes(voter, ballot, true, factor, now);
      if ok {
        OnlyBallot(b, g0, h0, voter, ballot, factor, now, TheBooks(), g, h);
        credits := credits[voter := CreditIn(voters, voter)];
      } else {
        BallotRefusedExactly(b, g0, h0, voter, ballot, factor, now);
      }
    }

    /** voteproducer. */
    method VoteProducer(voter: Name, ballot: Ballot, factor: real, now: int) returns (ok: bool)
      requires TablesValid() && now >= h.latest && factor > 0.0
      modifies this
      ensures TablesValid()
      ensures ok ==> BallotStepsTo(old(TheBooks()), old(g), old(h), voter, ballot, factor, now, TheBooks(), g, h)
      ensures ok ==> BallotRecorded(old(TheBooks()), old(g), voter, ballot, true, factor, now, TheBooks(), g)
      ensures ok && |ballot.producers| < 16 && ballot.proxy == NO_NAME ==> voter in voters && voters[voter].shares.rate == 0.0
      ensures ok && (|ballot.producers| >= 16 || ballot.proxy != NO_NAME) ==>
                voter in voters && voters[voter].shares.rate == voters[voter].lastVoteWeight - voters[voter].proxiedVoteWeight
      ensures ok ==> credits == old(credits)[voter := CreditIn(voters, voter)]
      ensures ok ==> SameStakes(old(voters), voters) && totalUnpaidBlocks == old(totalUnpaidBlocks) && h.latest == now
      ensures !ok ==> BallotRefused(old(TheBooks()), old(g), old(h), voter, ballot, factor, now) && RolledBack()
      ensures old(h).exact ==> (ok <==> VoteDue(old(TheBooks()), voter, ballot, true, factor))
    {
      ghost var b, g0, h0, credits0 := TheBooks(), g, h, credits;
      var vs, ps, rows, weight, pay0, globals := voters, producers, producers2, totalProducerVoteWeight, pay, g;
      assert Sound(TheBooks(), g, h) && RatesCredited(voters, credits);
      if h.exact {
        RefusedForFaults(b, g, h, voter, ballot, factor, now);
      }
      ok := TakeVote(voter, ballot, factor, now);
      if ok {
        BallotKeeps(b, g0, h0, voter, ballot, factor, now, TheBooks(), g, h, credits0);
        RecordedWasDue(b, g0, voter, ballot, true, factor, now, TheBooks(), g);
      } else {
        Restore(vs, ps, rows, weight, pay0, globals);
      }
    }

    /** regproxy. */
    method RegProxy(proxy: Name, isProxy: bool, factor: real, now: int) returns (ok: bool)
      requires TablesValid() && now >= h.latest && factor > 0.0 && proxy != NO_NAME
      modifies this
      ensures TablesValid()
      ensures ok ==> StatusStepsTo(old(TheBooks()), old(g), old(h), proxy, isProxy, factor, now, TheBooks(), g, h)
      ensures ok ==> StatusRecorded(old(TheBooks()), proxy, isProxy, factor, TheBooks()) && g == old(g) && credits == old(credits)
      ensures ok ==> SameStakes(old(voters), voters) && totalUnpaidBlocks == old(totalUnpaidBlocks) && h.latest == now
      ensures !ok ==> StatusRefused(old(TheBooks()), old(g), old(h), proxy, isProxy, factor, now) && RolledBack()
      ensures old(h).exact && proxy in old(voters) ==>
                (ok <==> isProxy != old(voters)[proxy].isProxy && (isProxy ==> old(voters)[proxy].proxy == NO_NAME))
      ensures proxy !in old(voters) ==> ok
    {
      ghost var b, g0, h0 := TheBooks(), g, h;
      var vs, ps, rows, weight, pay0, globals := voters, producers, producers2, totalProducerVoteWeight, pay, g;
      assert Sound(TheBooks(), g, h) && RatesCredited(voters, credits);
      if h.exact {
        StatusRefusedForFaults(b, g, h, proxy, isProxy, factor, now);
      }
      ok := TakeStatus(proxy, isProxy, factor, now);
      if ok {
        StatusKeeps(b, g0, h0, proxy, isProxy, factor, now, TheBooks(), g, h, credits);
      } else {
        Restore(vs, ps, rows, weight, pay0, globals);
      }
    }

    /** A new row, or a change of status. */
    method TakeStatus(proxy: Name, isProxy: bool, factor: real, now: int) returns (ok: bool)
      requires RowsOk(voters) && Forest(voters, h.ages, h.clock) && proxy != NO_NAME
      modifies `voters, `producers, `producers2, `totalProducerVoteWeight, `pay, `h
      ensures ok ==> StatusStepsTo(old(TheBooks()), g, old(h), proxy, isProxy, factor, now, TheBooks(), g, h)
      ensures !ok ==> StatusRefused(old(TheBooks()), g, old(h), proxy, isProxy, factor, now) && h == old(h)
      ensures proxy !in old(voters) ==> ok
    {
      ghost var b, h0 := TheBooks(), h;
      if proxy !in voters {
        voters := voters[proxy := FreshVoter(0, isProxy)];
        h := h.(latest := now);
        ok := true;
      } else {
        ok := ChangeProxyStatus(proxy, isProxy, factor, now);
      }
      if ok {
        OnlyStatus(b, g, h0, proxy, isProxy, factor, now, TheBooks(), g, h);
      } else {
        StatusRefusedExactly(b, g, h0, proxy, isProxy, factor, now);
      }
    }

    method ChangeProxyStatus(proxy: Name, isProxy: bool, factor: real, now: int) returns (ok: bool)
      requires RowsOk(voters) && Forest(voters, h.ages, h.clock) && proxy in voters
      modifies `voters, `producers, `producers2, `totalProducerVoteWeight, `pay, `h
      ensures ok <==> CanRegProxy(old(TheBooks()), old(h), proxy, isProxy, factor, now)
      ensures ok ==> ProxyStep(old(TheBooks()), g, old(h), proxy, isProxy, factor, now, TheBooks(), g, h)
      ensures !ok ==> h == old(h)
    {
      if isProxy == voters[proxy].isProxy || (isProxy && voters[proxy].proxy != NO_NAME) {
        return false;
      }
      ghost var b := TheBooks();
      ghost var out := Flipped(b, h, proxy, isProxy, factor, now);
      FlippedStructure(b, h, proxy, isProxy);
      voters := voters[proxy := voters[proxy].(isProxy := isProxy)];
      ok := PropagateWeightChange(proxy, factor, now);
      if ok {
        h := Noted(h.(latest := now), out);
      }
    }

    /** update_voting_power. */
    method UpdateVotingPower(voter: Name, delta: int, factor: real, now: int) returns (ok: bool)
      requires TablesValid() && now >= h.latest && factor > 0.0 && voter != NO_NAME
      modifies this
      ensures TablesValid()
      ensures ok ==> StepsTo(old(TheBooks()), old(g), old(h), voter, delta, factor, now, TheBooks(), g, h)
      ensures ok ==> RestakeRecorded(old(TheBooks()), old(g), voter, delta, factor, now, Staked(old(voters), voter, delta),
                                     TheBooks(), g)
      ensures ok && voter in old(voters) && 0 < |old(voters)[voter].producers| < 16 && old(voters)[voter].proxy == NO_NAME ==>
                voter in voters && voters[voter].shares.rate == 0.0
      ensures ok && voter in old(voters) && (|old(voters)[voter].producers| >= 16 || old(voters)[voter].proxy != NO_NAME) ==>
                voter in voters && voters[voter].shares.rate == voters[voter].lastVoteWeight - voters[voter].proxiedVoteWeight
      ensures ok ==> credits == Recredited(old(TheBooks()), voter, old(credits), TheBooks())
      ensures ok ==> forall v: Name :: StakeOf(voters, v) == StakeOf(old(voters), v) + if v == voter then delta else 0
      ensures ok ==> totalUnpaidBlocks == old(totalUnpaidBlocks) && h.latest == now
      ensures !ok ==> NoStep(old(TheBooks()), old(g), old(h), voter, delta, factor, now) && RolledBack()
      ensures old(h).exact ==> (ok <==> (if voter in old(voters) then old(voters)[voter].staked else 0) + delta >= 0)
    {
      ghost var b, g0, h0, credits0 := TheBooks(), g, h, credits;
      var vs, ps, rows, weight, pay0, globals := voters, producers, producers2, totalProducerVoteWeight, pay, g;
      assert Sound(TheBooks(), g, h) && RatesCredited(voters, credits);
      if h.exact {
        NoStepForStake(b, g, h, voter, delta, factor, now);
      }
      ok := TakeStake(voter, delta, factor, now);
      if ok {
        StakeStepKeeps(b, g0, h0, voter, delta, factor, now, TheBooks(), g, h, credits0);
      } else {
        Restore(vs, ps, rows, weight, pay0, globals);
      }
    }

    /** A change of stake, and what the account is then credited on. */
    method TakeStake(voter: Name, delta: int, factor: real, now: int) returns (ok: bool)
      requires RowsOk(voters) && Forest(voters, h.ages, h.clock) && voter != NO_NAME
      modifies `voters, `producers, `producers2, `totalProducerVoteWeight, `pay, `g, `h, `credits
      ensures ok ==> StepsTo(old(TheBooks()), old(g), old(h), voter, delta, factor, now, TheBooks(), g, h)
      ensures ok ==> credits == Recredited(old(TheBooks()), voter, old(credits), TheBooks())
      ensures !ok ==> NoStep(old(TheBooks()), old(g), old(h), voter, delta, factor, now)
      ensures !ok ==> h == old(h) && credits == old(credits)
    {
      ghost var b, g0, h0 := TheBooks(), g, h;
      ok := ChangeStake(voter, delta, factor, now);
      if ok {
        OnlyStep(b, g0, h0, voter, delta, factor, now, TheBooks(), g, h);
        credits := Recredited(b, voter, credits, TheBooks());
      } else {
        NoStepExactly(b, g0, h0, voter, delta, factor, now);
      }
    }

    method ChangeStake(voter: Name, delta: int, factor: real, now: int) returns (ok: bool)
      requires RowsOk(voters) && Forest(voters, h.ages, h.clock) && voter != NO_NAME
      modifies `voters, `producers, `producers2, `totalProducerVoteWeight, `pay, `g, `h
      ensures ok <==> CanRestake(old(TheBooks()), old(h), voter, delta, factor, now)
      ensures ok ==> StakeStep(old(TheBooks()), old(g), old(h), voter, delta, factor, now, TheBooks(), g, h)
      ensures !ok ==> h == old(h)
    {
      ghost var b := TheBooks();
      if voter !in voters {
        voters := voters[voter := FreshVoter(delta, false)];
      } else {
        voters := voters[voter := voters[voter].(staked := voters[voter].staked + delta)];
      }
      var row := voters[voter];
      if !(0 <= row.staked) {
        return false;
      }
      StakedStructure(b.voters, h, voter, delta);
      if row.producers != [] || row.proxy != NO_NAME {
        ok := UpdateVotes(voter, Ballot(row.proxy, row.producers), false, factor, now);
      } else {
        h := h.(latest := now);
        ok := true;
      }
    }

    /** register_producer. */
    method RegisterProducer(producer: Name, location: nat, now: int)
      requires TablesValid() && now >= h.latest
      modifies this
      ensures TablesValid()
      ensures TheBooks() == Registered(old(TheBooks()), producer, location, now)
      ensures RegistrationRecorded(old(TheBooks()), producer, location, now, TheBooks())
      ensures h == old(h).(latest := now, onTime := old(h).onTime && InTime(old(TheBooks()), producer, now))
      ensures g == old(g) && totalUnpaidBlocks == old(totalUnpaidBlocks)
    {
      ghost var b := TheBooks();
      EnterProducer(producer, location, now);
      Later(b, g, h, now);
      RegisteredSound(b, g, h.(latest := now), producer, location);
      RegisteredBlocks(b, producer, location, now);
      RegisteredRecorded(b, producer, location, now);
      h := h.(latest := now, onTime := h.onTime && InTime(b, producer, now));
    }

    method EnterProducer(producer: Name, location: nat, now: int)
      modifies `producers, `producers2, `pay
      ensures TheBooks() == Registered(old(TheBooks()), producer, location, now)
    {
      if producer in producers {
        var info := producers[producer].(isActive := true, location := location);
        if info.lastClaimTime == 0 {
          info := info.(lastClaimTime := now);
        }
        producers := producers[producer := info];
        if producer !in producers2 {
          producers2 := producers2[producer := Producer2(0.0, now)];
          UpdateTotalVotepayShare(now, 0.0, info.totalVotes);
        }
      } else {
        producers := producers[producer := Producer(0.0, true, 0, now, location)];
        producers2 := producers2[producer := Producer2(0.0, now)];
      }
    }

    /** unregprod. */
    method UnregisterProducer(producer: Name, now: int) returns (ok: bool)
      requires TablesValid() && now >= h.latest
      modifies this
      ensures TablesValid()
      ensures ok <==> producer in old(producers)
      ensures ok ==> TheBooks() == SetProducer(old(TheBooks()), producer, old(producers)[producer].(isActive := false))
      ensures ok ==> g == old(g) && h == old(h) && totalUnpaidBlocks == old(totalUnpaidBlocks)
      ensures !ok ==> RolledBack()
    {
      if producer !in producers {
        return false;
      }
      ghost var b := TheBooks();
      producers := producers[producer := producers[producer].(isActive := false)];
      SameTallySound(b, g, h, producer, producers[producer]);
      SetUnpaidBlocks(b.producers, producer, producers[producer]);
      ok := true;
    }

    /** The unpaid-block part of onblock: once the chain is activated, a registered producer earns a block. */
    method ProduceBlock(producer: Name, now: int)
      requires Valid() && now >= h.latest
      modifies this, pool`lastFill
      ensures Valid()
      ensures g == old(g) && h == old(h)
      ensures g.threshActivatedStakeTime == 0 ==> RolledBack() && pool.lastFill == old(pool.lastFill)
      ensures g.threshActivatedStakeTime != 0 ==>
                && pool.lastFill == (if old(pool.lastFill) == 0 then now else old(pool.lastFill))
                && if producer in old(producers)
                   then && TheBooks() == SetProducer(old(TheBooks()), producer,
                                           old(producers)[producer].(unpaidBlocks := old(producers)[producer].unpaidBlocks + 1))
                        && totalUnpaidBlocks == old(totalUnpaidBlocks) + 1
                   else RolledBack()
    {
      if g.threshActivatedStakeTime == 0 {
        return;
      }
      pool.StartFilling(now);
      if producer in producers {
        ghost var b := TheBooks();
        totalUnpaidBlocks := totalUnpaidBlocks + 1;
        producers := producers[producer := producers[producer].(unpaidBlocks := producers[producer].unpaidBlocks + 1)];
        SameTallySound(b, g, h, producer, producers[producer]);
        SetUnpaidBlocks(b.producers, producer, producers[producer]);
      }
    }

    // Claims

    /** The reward pool and the token are as they were. */
    twostate predicate PoolRolledBack()
      reads pool, pool.token
    {
      && pool.lastFill == old(pool.lastFill) && pool.perblockBucket == old(pool.perblockBucket)
      && pool.votersBucket == old(pool.votersBucket) && pool.token.supply == old(pool.token.supply)
      && pool.token.balances == old(pool.token.balances)
    }

    method RestorePool(lastFill: int, perblock: int, forVoters: int, supply: int, balances: Balances)
      modifies pool, pool.token
      ensures pool.lastFill == lastFill && pool.perblockBucket == perblock && pool.votersBucket == forVoters
      ensures pool.token.supply == supply && pool.token.balances == balances
    {
      pool.lastFill, pool.perblockBucket, pool.votersBucket := lastFill, perblock, forVoters;
      pool.token.supply, pool.token.balances := supply, balances;
    }

    /** The checks before a producer's claim. */
    predicate MayClaim(owner: Name, now: int)
      reads this
    {
      && owner in producers && producers[owner].isActive
      && g.threshActivatedStakeTime != 0
      && now - producers[owner].lastClaimTime > USECONDS_PER_DAY
    }

    /** What a producer's claim does to the buckets and the accounts. */
    twostate predicate ProducerPoolPaid(owner: Name, payment: int, now: int)
      reads pool, pool.token
    {
      && pool.perblockBucket == old(pool.FilledPerblock(now)) - payment
      && pool.votersBucket == old(pool.FilledVoters(now))
      && pool.FilledAndPaid(now, BPAY_ACCOUNT, owner, payment)
    }

    /** A fill, then the producer's share of the per-block bucket, or neither. */
    method FillAndPayProducer(owner: Name, unpaid: nat, total: int, now: int) returns (ok: bool, payment: int)
      requires pool.Valid() && unpaid <= total
      modifies pool, pool.token
      ensures pool.Valid()
      ensures payment == BlockPay(old(pool.FilledPerblock(now)), unpaid, total)
      ensures ok <==> old(pool.CanFill(now)) && (payment == 0 || owner != BPAY_ACCOUNT)
      ensures ok ==> ProducerPoolPaid(owner, payment, now)
      ensures pool.GrewByFill() && pool.OnlyPaid(owner)
      ensures !ok ==> PoolRolledBack()
    {
      var fill, perblock, forVoters, supply, balances :=
        pool.lastFill, pool.perblockBucket, pool.votersBucket, pool.token.supply, pool.token.balances;
      payment := BlockPay(pool.FilledPerblock(now), unpaid, total);
      ok := FillThenPayProducer(owner, unpaid, total, now, payment);
      if !ok {
        RestorePool(fill, perblock, forVoters, supply, balances);
      }
    }

    method FillThenPayProducer(owner: Name, unpaid: nat, total: int, now: int, ghost due: int) returns (ok: bool)
      requires pool.Valid() && unpaid <= total && due == BlockPay(pool.FilledPerblock(now), unpaid, total)
      modifies pool, pool.token
      ensures ok <==> old(pool.CanFill(now)) && (due == 0 || owner != BPAY_ACCOUNT)
      ensures ok ==> pool.Valid() && ProducerPoolPaid(owner, due, now) && pool.GrewByFill() && pool.OnlyPaid(owner)
      ensures pool.token.Valid()
    {
      ok := pool.FillBuckets(now);
      if ok {
        var paid, _ := pool.PayProducer(owner, unpaid, total);
        ok := paid;
      }
    }

    /** What a claim does to the buckets, the accounts and the tables. */
    twostate predicate ProducerPaid(owner: Name, payment: int, now: int)
      reads this, pool, pool.token
    {
      && ProducerPoolPaid(owner, payment, now)
      && owner in old(producers) && TheBooks() == Claimed(old(TheBooks()), owner, now)
      && totalUnpaidBlocks == old(totalUnpaidBlocks) - old(producers)[owner].unpaidBlocks
      && g == old(g) && h == old(h).(latest := now)
    }

    /** What a producer is paid for its blocks. */
    function PaymentAt(owner: Name, now: int): int
      requires MayClaim(owner, now) && 0 <= producers[owner].unpaidBlocks <= totalUnpaidBlocks
      reads this, pool, pool.token
    {
      BlockPay(pool.FilledPerblock(now), producers[owner].unpaidBlocks, totalUnpaidBlocks)
    }

    method CollectProducerPay(owner: Name, now: int) returns (ok: bool, payment: int)
      requires pool.Valid() && MayClaim(owner, now) && producers[owner].unpaidBlocks <= totalUnpaidBlocks
      modifies `producers, `producers2, `pay, `totalUnpaidBlocks, `h, pool, pool.token
      ensures pool.Valid()
      ensures payment == old(PaymentAt(owner, now))
      ensures ok <==> old(pool.CanFill(now)) && (payment == 0 || owner != BPAY_ACCOUNT)
      ensures ok ==> ProducerPaid(owner, payment, now)
      ensures pool.GrewByFill() && pool.OnlyPaid(owner)
      ensures !ok ==> RolledBack() && PoolRolledBack()
    {
      ok, payment := FillAndPayProducer(owner, producers[owner].unpaidBlocks, totalUnpaidBlocks, now);
      if ok {
        TakeVotePay(owner, now);
        h := h.(latest := now);
      }
    }

    /** A claim that passed the checks. */
    method PayProducerClaim(owner: Name, now: int) returns (ok: bool, payment: int)
      requires Valid() && now >= h.latest && MayClaim(owner, now) && producers[owner].unpaidBlocks <= totalUnpaidBlocks
      modifies this, pool, pool.token
      ensures Valid()
      ensures payment == old(PaymentAt(owner, now))
      ensures ok <==> old(pool.CanFill(now)) && (payment == 0 || owner != BPAY_ACCOUNT)
      ensures ok ==> ProducerPaid(owner, payment, now)
      ensures pool.GrewByFill() && pool.OnlyPaid(owner)
      ensures !ok ==> RolledBack() && PoolRolledBack()
    {
      ghost var b, g0, h0 := TheBooks(), g, h;
      ok, payment := CollectProducerPay(owner, now);
      if ok {
        ProducerClaimed(b, g0, h0, owner, now);
      }
    }

    /**
     * claim_producer_rewards.  The vote-pay share is taken out of the accumulator without being paid; what is
     * paid is the producer's part of the per-block bucket.
     */
    method ClaimRewards(owner: Name, now: int) returns (ok: bool, payment: int)
      requires Valid() && now >= h.latest
      modifies this, pool, pool.token
      ensures Valid()
      ensures old(MayClaim(owner, now)) ==>
                && 0 <= old(producers)[owner].unpaidBlocks <= old(totalUnpaidBlocks)
                && payment == old(PaymentAt(owner, now))
      ensures ok <==> && ClaimDue(old(TheBooks()), old(g), owner, now) && old(pool.CanFill(now))
                      && (payment == 0 || owner != BPAY_ACCOUNT)
      ensures ok ==> ProducerPaid(owner, payment, now) && ClaimRecorded(old(TheBooks()), owner, now, TheBooks())
      ensures pool.GrewByFill() && pool.OnlyPaid(owner)
      ensures !ok ==> RolledBack() && PoolRolledBack()
    {
      if MayClaim(owner, now) {
        UnpaidBlocksAtMostAll(producers, owner);
        ClaimedRecorded(TheBooks(), owner, now);
        ok, payment := PayProducerClaim(owner, now);
      } else {
        ok, payment := false, 0;
      }
    }

    method TakeVotePay(owner: Name, now: int)
      requires owner in producers
      modifies `producers, `producers2, `pay, `totalUnpaidBlocks
      ensures TheBooks() == Claimed(old(TheBooks()), owner, now)
      ensures totalUnpaidBlocks == old(totalUnpaidBlocks) - old(producers)[owner].unpaidBlocks
    {
      var info := producers[owner];
      var updatedAfter := true;
      if owner in producers2 {
        updatedAfter := info.lastClaimTime + THREE_DAYS <= producers2[owner].lastVotepayShareUpdate;
      } else {
        producers2 := producers2[owner := Producer2(0.0, now)];
      }
      var share := UpdateProducerVotepayShare(owner, now, if updatedAfter then 0.0 else info.totalVotes, true);
      totalUnpaidBlocks := totalUnpaidBlocks - info.unpaidBlocks;
      UpdateTotalVotepayShare(now, -share, if updatedAfter then info.totalVotes else 0.0);
      producers := producers[owner := info.(lastClaimTime := now, unpaidBlocks := 0)];
    }

    /** The checks before a voter's claim. */
    predicate MayClaimVote(owner: Name, now: int)
      reads this
    {
      && g.totalActivatedStake >= MIN_ACTIVATED_STAKE
      && owner in voters && voters[owner].shares.updated != 0
      && now - voters[owner].shares.lastClaimTime > USECONDS_PER_DAY
      && TotalShareAt(g, now) > 0.0
    }

    /** What a voter's claim does to the buckets and the accounts. */
    twostate predicate VoterPoolPaid(owner: Name, reward: int, now: int)
      reads pool, pool.token
    {
      && pool.votersBucket == old(pool.FilledVoters(now)) - reward
      && pool.perblockBucket == old(pool.FilledPerblock(now))
      && pool.FilledAndPaid(now, VOTERS_ACCOUNT, owner, reward)
    }

    /** And to the tables. */
    twostate predicate VoterPaid(owner: Name, reward: int, now: int)
      reads this, pool, pool.token
    {
      && VoterPoolPaid(owner, reward, now)
      && owner in old(voters)
      && TheBooks() == SetVoter(old(TheBooks()), owner, PaidOut(old(voters)[owner], now))
      && g == PaidOutTotals(old(g), old(voters)[owner], now) && h == old(h).(latest := now)
      && totalUnpaidBlocks == old(totalUnpaidBlocks)
    }

    /** A fill, then the voter's share of the voters bucket, or neither. */
    method FillAndPayVoter(owner: Name, share: real, total: real, now: int) returns (ok: bool, reward: int)
      requires pool.Valid() && total > 0.0
      modifies pool, pool.token
      ensures pool.Valid()
      ensures reward == VoterReward(old(pool.FilledVoters(now)), share, total)
      ensures ok <==> old(pool.CanFill(now)) && reward > 0 && owner != VOTERS_ACCOUNT
      ensures ok ==> VoterPoolPaid(owner, reward, now)
      ensures pool.GrewByFill() && pool.OnlyPaid(owner)
      ensures !ok ==> PoolRolledBack()
    {
      var fill, perblock, forVoters, supply, balances :=
        pool.lastFill, pool.perblockBucket, pool.votersBucket, pool.token.supply, pool.token.balances;
      reward := VoterReward(pool.FilledVoters(now), share, total);
      ok := FillThenPayVoter(owner, share, total, now, reward);
      if !ok {
        RestorePool(fill, perblock, forVoters, supply, balances);
      }
    }

    method FillThenPayVoter(owner: Name, share: real, total: real, now: int, ghost due: int) returns (ok: bool)
      requires pool.Valid() && total > 0.0 && due == VoterReward(pool.FilledVoters(now), share, total)
      modifies pool, pool.token
      ensures ok <==> old(pool.CanFill(now)) && due > 0 && owner != VOTERS_ACCOUNT
      ensures ok ==> pool.Valid() && VoterPoolPaid(owner, due, now) && pool.GrewByFill() && pool.OnlyPaid(owner)
      ensures pool.token.Valid()
    {
      ok := pool.FillBuckets(now);
      if ok {
        var paid, _ := pool.PayVoter(owner, share, total);
        ok := paid;
      }
    }

    /** The reward of a voter's claim. */
    function RewardAt(owner: Name, now: int): int
      requires MayClaimVote(owner, now)
      reads this, pool, pool.token
    {
      VoterReward(pool.FilledVoters(now), Extrapolated(voters[owner].shares, now), TotalShareAt(g, now))
    }

    /**
     * voterclaim.  The voter is paid its part of all that voters are owed at this moment, and what is left
     * in the bucket is no less per share owed than before.
     */
    method ClaimVote(owner: Name, now: int) returns (ok: bool, reward: int)
      requires Valid() && now >= h.latest
      modifies this, pool, pool.token
      ensures Valid()
      ensures ok <==> && VoteClaimDue(old(voters), old(g), owner, now) && old(pool.CanFill(now)) && owner != VOTERS_ACCOUNT
                      && reward > 0
      ensures old(MayClaimVote(owner, now)) ==> reward == old(RewardAt(owner, now))
      ensures VoteClaimDue(old(voters), old(g), owner, now) ==>
                GetsShare(reward, old(pool.FilledVoters(now)), UnpaidAt(old(voters)[owner], now), UnpaidSum(old(voters), now))
      ensures ok ==> VoterPaid(owner, reward, now) && PayoutRecorded(old(voters), owner, now, voters)
      ensures ok ==> FairlyPaid(old(pool.FilledVoters(now)), UnpaidSum(old(voters), now),
                                pool.votersBucket, UnpaidSum(voters, now))
      ensures pool.GrewByFill() && pool.OnlyPaid(owner)
      ensures !ok ==> RolledBack() && PoolRolledBack()
    {
      assert Sound(TheBooks(), g, h);
      pool.FilledVotersNonneg(now);
      TotalShareIsSum(voters, g, now);
      if MayClaimVote(owner, now) {
        ghost var vs, g0, bucket := voters, g, pool.FilledVoters(now);
        RewardMeasured(vs, g0, owner, now, bucket);
        ok, reward := PayVoteClaim(owner, now);
        if ok {
          PaidOutFairly(vs, g0, owner, now, bucket, reward);
        }
      } else {
        ok, reward := false, 0;
      }
    }

    /** A claim that passed the checks. */
    method PayVoteClaim(owner: Name, now: int) returns (ok: bool, reward: int)
      requires Valid() && now >= h.latest && MayClaimVote(owner, now)
      modifies this, pool, pool.token
      ensures Valid()
      ensures reward == old(RewardAt(owner, now))
      ensures ok <==> old(pool.CanFill(now)) && owner != VOTERS_ACCOUNT && reward > 0
      ensures ok ==> VoterPaid(owner, reward, now)
      ensures pool.GrewByFill() && pool.OnlyPaid(owner)
      ensures !ok ==> RolledBack() && PoolRolledBack()
    {
      ghost var b, g0, h0 := TheBooks(), g, h;
      assert Sound(b, g, h) && RatesCredited(voters, credits);
      ok, reward := CollectVoterReward(owner, now);
      if ok {
        VoteClaimed(b, g0, h0, owner, now, TheBooks(), g, credits);
      }
    }

    method CollectVoterReward(owner: Name, now: int) returns (ok: bool, reward: int)
      requires pool.Valid() && MayClaimVote(owner, now)
      modifies `voters, `g, `h, pool, pool.token
      ensures pool.Valid()
      ensures reward == old(RewardAt(owner, now))
      ensures ok <==> old(pool.CanFill(now)) && owner != VOTERS_ACCOUNT && reward > 0
      ensures ok ==> VoterPaid(owner, reward, now)
      ensures pool.GrewByFill() && pool.OnlyPaid(owner)
      ensures !ok ==> RolledBack() && PoolRolledBack()
    {
      var share, total := Extrapolated(voters[owner].shares, now), TotalShareAt(g, now);
      ok, reward := FillAndPayVoter(owner, share, total, now);
      if ok {
        g := g.(totalUnpaidVoteshare := total, totalUnpaidVoteshareLastUpdated := now);
        g := g.(totalUnpaidVoteshare := g.totalUnpaidVoteshare - share);
        var row := voters[owner];
        voters := voters[owner := row.(shares := row.shares.(unpaid := 0.0, updated := now, lastClaimTime := now))];
        h := h.(latest := now);
      }
    }
  }
}
