/** The voter and producer tables of contracts/eosio.system, and what their running totals should equal. */
module VoteTables {
  import opened Names
  import RealSums

  /** What a voter is owed for voting: the share, when it was last brought up to date, and its rate. */
  datatype Shares = Shares(unpaid: real, updated: int, rate: real, lastClaimTime: int)

  const NO_SHARES: Shares := Shares(0.0, 0, 0.0, 0)

  datatype Voter = Voter(
    proxy: Name,
    producers: seq<Name>,
    staked: int,
    lastVoteWeight: real,
    proxiedVoteWeight: real,
    isProxy: bool,
    shares: Shares)

  /** A row as the table creates it, for an account with this stake. */
  function FreshVoter(staked: int, isProxy: bool): Voter {
    Voter(NO_NAME, [], staked, 0.0, 0.0, isProxy, NO_SHARES)
  }

  datatype Producer = Producer(totalVotes: real, isActive: bool, unpaidBlocks: nat, lastClaimTime: int, location: nat)

  datatype Producer2 = Producer2(votepayShare: real, lastVotepayShareUpdate: int)

  type Voters = map<Name, Voter>

  type Producers = map<Name, Producer>

  type Producers2 = map<Name, Producer2>

  /** stake2vote, with the power of two for the current week as a factor. */
  function Stake2Vote(staked: int, factor: real): real {
    staked as real * factor
  }

  function CurrentWeight(v: Voter, factor: real): real {
    Stake2Vote(v.staked, factor) + if v.isProxy then v.proxiedVoteWeight else 0.0
  }

  function WeightToProxy(v: Voter, p: Name): real {
    if v.proxy == p then v.lastVoteWeight else 0.0
  }

  function WeightToProducer(v: Voter, q: Name): real {
    if v.proxy == NO_NAME && q in v.producers then v.lastVoteWeight else 0.0
  }

  function VotesOf(ps: Producers, q: Name): real {
    if q in ps then ps[q].totalVotes else 0.0
  }

  /** The fold a proxy's running total stands for. */
  ghost function ProxiedSum(vs: Voters, p: Name): real {
    RealSums.Total((v: Name) => if v in vs then WeightToProxy(vs[v], p) else 0.0)
  }

  /** The fold a producer's running tally stands for. */
  ghost function Tally(vs: Voters, q: Name): real {
    RealSums.Total((v: Name) => if v in vs then WeightToProducer(vs[v], q) else 0.0)
  }

  ghost function AllVotes(ps: Producers): real {
    RealSums.Total((q: Name) => VotesOf(ps, q))
  }

  ghost function ProxyGap(vs: Voters, p: Name): real
    requires p in vs
  {
    vs[p].proxiedVoteWeight - ProxiedSum(vs, p)
  }

  ghost function VoteGap(vs: Voters, ps: Producers, q: Name): real {
    VotesOf(ps, q) - Tally(vs, q)
  }

  predicate StrictlySorted(names: seq<Name>) {
    forall i, j :: 0 <= i < j < |names| ==> names[i] < names[j]
  }

  ghost predicate RowOk(vs: Voters, v: Name)
    requires v in vs
  {
    && v != NO_NAME
    && vs[v].staked >= 0
    && |vs[v].producers| <= 30
    && StrictlySorted(vs[v].producers)
    && (vs[v].proxy != NO_NAME ==> vs[v].proxy in vs && vs[v].producers == [] && !vs[v].isProxy)
  }

  ghost predicate RowsOk(vs: Voters) {
    forall v {:trigger RowOk(vs, v)} :: v in vs ==> RowOk(vs, v)
  }

  ghost predicate ListedRegistered(vs: Voters, ps: Producers) {
    forall v, q :: v in vs && q in vs[v].producers ==> q in ps
  }

  ghost predicate WeightsNonneg(vs: Voters) {
    forall v {:trigger vs[v]} :: v in vs ==> vs[v].lastVoteWeight >= 0.0
  }

  ghost predicate ProxiesMatch(vs: Voters) {
    forall p {:trigger ProxyGap(vs, p)} :: p in vs ==> ProxyGap(vs, p) == 0.0
  }

  ghost predicate VotesMatch(vs: Voters, ps: Producers) {
    forall q: Name :: VoteGap(vs, ps, q) == 0.0
  }

  predicate Reweighed(v: Voter, w: Voter) {
    && w.proxy == v.proxy && w.producers == v.producers && w.staked == v.staked && w.isProxy == v.isProxy
    && w.shares == v.shares
  }

  /** Two voter tables that differ in vote weights alone. */
  ghost predicate SameButWeights(vs: Voters, ws: Voters) {
    && vs.Keys == ws.Keys
    && forall v {:trigger ws[v]} :: v in vs ==> Reweighed(vs[v], ws[v])
  }

  lemma ReplaceVoter(vs: Voters, v: Name, row: Voter, p: Name)
    ensures var ws := vs[v := row];
            ProxiedSum(ws, p) == ProxiedSum(vs, p) + WeightToProxy(row, p)
                                 - (if v in vs then WeightToProxy(vs[v], p) else 0.0)
  {
    var ws := vs[v := row];
    RealSums.TotalPoint((u: Name) => if u in vs then WeightToProxy(vs[u], p) else 0.0,
                        (u: Name) => if u in ws then WeightToProxy(ws[u], p) else 0.0, v);
  }

  lemma ReplaceBacker(vs: Voters, v: Name, row: Voter, q: Name)
    ensures var ws := vs[v := row];
            Tally(ws, q) == Tally(vs, q) + WeightToProducer(row, q)
                            - (if v in vs then WeightToProducer(vs[v], q) else 0.0)
  {
    var ws := vs[v := row];
    RealSums.TotalPoint((u: Name) => if u in vs then WeightToProducer(vs[u], q) else 0.0,
                        (u: Name) => if u in ws then WeightToProducer(ws[u], q) else 0.0, v);
  }

  /** What replacing one row does to every fold. */
  lemma ReplaceRow(vs: Voters, v: Name, row: Voter)
    ensures var ws := vs[v := row];
            && (forall p: Name :: ProxiedSum(ws, p) == ProxiedSum(vs, p) + WeightToProxy(row, p)
                                   - (if v in vs then WeightToProxy(vs[v], p) else 0.0))
            && (forall q: Name :: Tally(ws, q) == Tally(vs, q) + WeightToProducer(row, q)
                                   - (if v in vs then WeightToProducer(vs[v], q) else 0.0))
  {
    var ws := vs[v := row];
    forall p: Name
      ensures ProxiedSum(ws, p) == ProxiedSum(vs, p) + WeightToProxy(row, p)
                                   - (if v in vs then WeightToProxy(vs[v], p) else 0.0)
    {
      ReplaceVoter(vs, v, row, p);
    }
    forall q: Name
      ensures Tally(ws, q) == Tally(vs, q) + WeightToProducer(row, q)
                              - (if v in vs then WeightToProducer(vs[v], q) else 0.0)
    {
      ReplaceBacker(vs, v, row, q);
    }
  }

  lemma SetVotes(ps: Producers, q: Name, row: Producer)
    ensures AllVotes(ps[q := row]) == AllVotes(ps) + row.totalVotes - VotesOf(ps, q)
  {
    var after := ps[q := row];
    RealSums.TotalPoint((x: Name) => VotesOf(ps, x), (x: Name) => VotesOf(after, x), q);
  }

  /** With no negative weight, a proxy's fold is at least any one voter's share of it. */
  lemma ProxiedAtLeast(vs: Voters, v: Name, p: Name)
    requires WeightsNonneg(vs)
    ensures ProxiedSum(vs, p) >= 0.0
    ensures v in vs ==> ProxiedSum(vs, p) >= WeightToProxy(vs[v], p)
  {
    RealSums.TotalAtLeast((u: Name) => if u in vs then WeightToProxy(vs[u], p) else 0.0, v);
    RealSums.TotalNonneg((u: Name) => if u in vs then WeightToProxy(vs[u], p) else 0.0);
  }

  lemma TallyAtLeast(vs: Voters, v: Name, q: Name)
    requires WeightsNonneg(vs)
    ensures Tally(vs, q) >= 0.0
    ensures v in vs ==> Tally(vs, q) >= WeightToProducer(vs[v], q)
  {
    RealSums.TotalAtLeast((u: Name) => if u in vs then WeightToProducer(vs[u], q) else 0.0, v);
    RealSums.TotalNonneg((u: Name) => if u in vs then WeightToProducer(vs[u], q) else 0.0);
  }
}

/** Why following proxies always ends. */
module ProxyForest {
  import opened Names
  import opened VoteTables

  /** When each account last chose its proxy, as a count of such choices. */
  type Ages = map<Name, nat>

  function AgeOf(ages: Ages, v: Name): nat {
    if v in ages then ages[v] else 0
  }

  /** A proxy that itself uses a proxy chose it later than anyone chose it. */
  ghost predicate EdgeOk(vs: Voters, ages: Ages, clock: nat, v: Name)
    requires v in vs
  {
    var p := vs[v].proxy;
    p != NO_NAME ==>
      && AgeOf(ages, v) <= clock
      && (p in vs && vs[p].proxy != NO_NAME ==> AgeOf(ages, v) < AgeOf(ages, p) <= clock)
  }

  ghost predicate Forest(vs: Voters, ages: Ages, clock: nat) {
    forall v {:trigger EdgeOk(vs, ages, clock, v)} :: v in vs ==> EdgeOk(vs, ages, clock, v)
  }

  /** Falls along every proxy edge. */
  ghost function Rank(vs: Voters, ages: Ages, clock: nat, v: Name): int {
    if v in vs && vs[v].proxy != NO_NAME then 1 + clock - AgeOf(ages, v) else 0
  }

  lemma RankFalls(vs: Voters, ages: Ages, clock: nat, v: Name)
    requires Forest(vs, ages, clock) && v in vs && vs[v].proxy != NO_NAME
    ensures Rank(vs, ages, clock, v) > Rank(vs, ages, clock, vs[v].proxy) >= 0
  {
    assert EdgeOk(vs, ages, clock, v);
  }

  /** The account reached after n proxy edges, or no account. */
  ghost function Follow(vs: Voters, v: Name, n: nat): Name
    decreases n
  {
    if n == 0 || v == NO_NAME then v
    else Follow(vs, if v in vs then vs[v].proxy else NO_NAME, n - 1)
  }

  ghost predicate Acyclic(vs: Voters) {
    forall v, n: nat :: v in vs && v != NO_NAME && n > 0 ==> Follow(vs, v, n) != v
  }

  lemma {:induction false} FollowFalls(vs: Voters, ages: Ages, clock: nat, v: Name, n: nat)
    requires Forest(vs, ages, clock) && v != NO_NAME && n > 0
    ensures var u := Follow(vs, v, n);
            u != NO_NAME ==> Rank(vs, ages, clock, u) < Rank(vs, ages, clock, v)
    decreases n
  {
    var p := if v in vs then vs[v].proxy else NO_NAME;
    if p != NO_NAME {
      RankFalls(vs, ages, clock, v);
      if n > 1 {
        FollowFalls(vs, ages, clock, p, n - 1);
      }
    }
  }

  /** No account is its own proxy, however long the chain. */
  lemma ForestIsAcyclic(vs: Voters, ages: Ages, clock: nat)
    requires Forest(vs, ages, clock)
    ensures Acyclic(vs)
  {
    forall v, n: nat | v in vs && v != NO_NAME && n > 0
      ensures Follow(vs, v, n) != v
    {
      FollowFalls(vs, ages, clock, v, n);
    }
  }

  /** Choosing a proxy that has none keeps the forest: the new edge is the youngest. */
  lemma NewestEdge(vs: Voters, ages: Ages, clock: nat, v: Name, row: Voter)
    requires Forest(vs, ages, clock)
    requires row.proxy != NO_NAME ==> row.proxy in vs && row.proxy != v && vs[row.proxy].proxy == NO_NAME
    ensures Forest(vs[v := row], ages[v := clock + 1], clock + 1)
  {
    var ws, bs := vs[v := row], ages[v := clock + 1];
    forall u | u in ws
      ensures EdgeOk(ws, bs, clock + 1, u)
    {
      if u != v {
        assert EdgeOk(vs, ages, clock, u);
      }
    }
  }

  /** Rewriting a row with the proxy it had, or with none, keeps the forest too. */
  lemma SameEdge(vs: Voters, ages: Ages, clock: nat, v: Name, row: Voter)
    requires Forest(vs, ages, clock)
    requires row.proxy == NO_NAME || (v in vs && row.proxy == vs[v].proxy)
    requires v !in vs ==> forall u :: u in vs ==> vs[u].proxy != v
    ensures Forest(vs[v := row], ages, clock)
  {
    var ws := vs[v := row];
    forall u | u in ws
      ensures EdgeOk(ws, ages, clock, u)
    {
      if u in vs {
        assert EdgeOk(vs, ages, clock, u);
      }
    }
  }
}
