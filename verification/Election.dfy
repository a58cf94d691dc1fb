/** The election of the block producers: update_elected_producers of contracts/eosio.system/src/voting.cpp. */
module Election {
  import opened Names
  import opened VoteTables

  const MAX_PRODUCERS: nat := 21

  /** by_votes: the key of the index the scan runs over, ascending. */
  function IndexKey(p: Producer): real {
    if p.isActive then -p.totalVotes else p.totalVotes
  }

  /** The order of the index: by key, then by name. */
  predicate Precedes(ps: Producers, a: Name, b: Name)
    requires a in ps && b in ps
  {
    IndexKey(ps[a]) < IndexKey(ps[b]) || (IndexKey(ps[a]) == IndexKey(ps[b]) && a < b)
  }

  ghost predicate IsIndex(ps: Producers, idx: seq<Name>) {
    && (forall q :: q in ps <==> q in idx)
    && forall i, j :: 0 <= i < j < |idx| ==> Precedes(ps, idx[i], idx[j])
  }

  predicate Eligible(ps: Producers, q: Name) {
    q in ps && ps[q].isActive && ps[q].totalVotes > 0.0
  }

  /** More votes, or as many and the smaller name. */
  predicate Outranks(ps: Producers, a: Name, b: Name) {
    VotesOf(ps, a) > VotesOf(ps, b) || (VotesOf(ps, a) == VotesOf(ps, b) && a < b)
  }

  function EligibleSet(ps: Producers): set<Name> {
    set q | q in ps && Eligible(ps, q)
  }

  function SetOf(names: seq<Name>): set<Name> {
    set q | q in names
  }

  function Seats(ps: Producers): nat {
    if |EligibleSet(ps)| < MAX_PRODUCERS then |EligibleSet(ps)| else MAX_PRODUCERS
  }

  /** The elected: as many as there are seats, each eligible, and each outranking whoever is not elected. */
  ghost predicate IsTop(ps: Producers, top: seq<Name>) {
    && (forall q :: q in top ==> Eligible(ps, q))
    && (forall i, j :: 0 <= i < j < |top| ==> Outranks(ps, top[i], top[j]))
    && |top| == Seats(ps)
    && (forall p, q :: p in top && Eligible(ps, q) && q !in top ==> Outranks(ps, p, q))
  }

  /** Where the scan stops: at its limit, at the end, or at the first producer that is not eligible. */
  function ScanEnd(ps: Producers, idx: seq<Name>, i: nat): (end: nat)
    requires i <= |idx|
    ensures i <= end <= |idx| && (i <= MAX_PRODUCERS ==> end <= MAX_PRODUCERS)
    ensures forall j :: i <= j < end ==> Eligible(ps, idx[j])
    ensures i <= MAX_PRODUCERS ==> end == MAX_PRODUCERS || end == |idx| || !Eligible(ps, idx[end])
    decreases |idx| - i
  {
    if i < |idx| && i < MAX_PRODUCERS && Eligible(ps, idx[i]) then ScanEnd(ps, idx, i + 1) else i
  }

  function Scanned(ps: Producers, idx: seq<Name>): seq<Name> {
    idx[..ScanEnd(ps, idx, 0)]
  }

  method ScanIndex(ps: Producers, idx: seq<Name>) returns (top: seq<Name>)
    requires IsIndex(ps, idx)
    ensures top == Scanned(ps, idx)
    ensures |top| <= 21 && |top| <= |idx| && top == idx[..|top|]
    ensures forall q :: q in top ==> q in ps && ps[q].isActive && ps[q].totalVotes > 0.0
    ensures |top| < 21 && |top| < |idx| ==> !ps[idx[|top|]].isActive || ps[idx[|top|]].totalVotes <= 0.0
  {
    top := [];
    var i := 0;
    while i < |idx| && |top| < MAX_PRODUCERS && 0.0 < ps[idx[i]].totalVotes && ps[idx[i]].isActive
      invariant 0 <= i <= |idx| && top == idx[..i]
      invariant ScanEnd(ps, idx, i) == ScanEnd(ps, idx, 0)
    {
      top := top + [idx[i]];
      i := i + 1;
    }
  }

  /** An inactive producer whose tally is negative sorts among the active ones, and stops the scan. */
  predicate Hidden(ps: Producers, q: Name) {
    q in ps && !ps[q].isActive && ps[q].totalVotes < 0.0
  }

  function EligibleBefore(ps: Producers, q: Name): set<Name>
    requires q in ps
  {
    set p | p in ps && Eligible(ps, p) && Precedes(ps, p, q)
  }

  lemma CardinalityOfDistinct(names: seq<Name>)
    requires forall i, j :: 0 <= i < j < |names| ==> names[i] != names[j]
    ensures |SetOf(names)| == |names|
  {
    if names == [] {
      assert SetOf(names) == {};
    } else {
      var last := names[|names| - 1];
      CardinalityOfDistinct(names[..|names| - 1]);
      assert SetOf(names) == SetOf(names[..|names| - 1]) + {last};
    }
  }

  lemma SubsetIsSmaller(a: set<Name>, b: set<Name>)
    requires a <= b
    ensures |a| <= |b|
    ensures |a| == |b| ==> a == b
  {
    assert b == a + (b - a);
  }

  lemma ScanTakes(ps: Producers, idx: seq<Name>)
    ensures var top := Scanned(ps, idx);
            && |top| <= MAX_PRODUCERS
            && (forall j :: 0 <= j < |top| ==> top[j] == idx[j] && idx[j] in top && Eligible(ps, idx[j]))
            && (forall q :: q in top ==> Eligible(ps, q))
  {
    var top := Scanned(ps, idx);
    assert forall j :: 0 <= j < |top| ==> top[j] == idx[j];
  }

  lemma IndexIsStrict(ps: Producers, idx: seq<Name>, i: nat, j: nat)
    requires IsIndex(ps, idx) && j <= i < |idx|
    ensures !Precedes(ps, idx[i], idx[j])
  {
    if j < i {
      assert Precedes(ps, idx[j], idx[i]);
    }
  }

  /** What the scan takes is in the order of ranks, and outranks all that follows. */
  lemma ScanRanks(ps: Producers, idx: seq<Name>)
    requires IsIndex(ps, idx)
    ensures var top := Scanned(ps, idx);
            && |SetOf(top)| == |top| && SetOf(top) <= EligibleSet(ps)
            && (forall i, j :: 0 <= i < j < |top| ==> Outranks(ps, top[i], top[j]))
            && (forall p, q :: p in top && Eligible(ps, q) && q !in top ==> Outranks(ps, p, q))
  {
    var top := Scanned(ps, idx);
    ScanTakes(ps, idx);
    forall i, j | 0 <= i < j < |top|
      ensures Outranks(ps, top[i], top[j]) && top[i] != top[j]
    {
      assert Precedes(ps, idx[i], idx[j]);
    }
    CardinalityOfDistinct(top);
    forall p, q | p in top && Eligible(ps, q) && q !in top
      ensures Outranks(ps, p, q)
    {
      var i :| 0 <= i < |top| && top[i] == p;
      var j :| 0 <= j < |idx| && idx[j] == q;
      assert j >= |top|;
      assert Precedes(ps, idx[i], idx[j]);
    }
  }

  /** From a producer that is neither eligible nor hidden, no eligible one follows. */
  lemma NoneFollows(ps: Producers, idx: seq<Name>, j: nat)
    requires IsIndex(ps, idx) && |Scanned(ps, idx)| < MAX_PRODUCERS
    requires |Scanned(ps, idx)| <= j < |idx| && !Hidden(ps, idx[|Scanned(ps, idx)|])
    ensures !Eligible(ps, idx[j])
  {
    var k := |Scanned(ps, idx)|;
    assert !Eligible(ps, idx[k]) && idx[k] in ps;
    if k < j {
      assert Precedes(ps, idx[k], idx[j]);
    }
  }

  /** So every eligible one has been taken. */
  lemma StoppedAfterAll(ps: Producers, idx: seq<Name>)
    requires IsIndex(ps, idx) && |Scanned(ps, idx)| < MAX_PRODUCERS
    requires |Scanned(ps, idx)| < |idx| ==> !Hidden(ps, idx[|Scanned(ps, idx)|])
    ensures EligibleSet(ps) <= SetOf(Scanned(ps, idx))
  {
    var top := Scanned(ps, idx);
    ScanTakes(ps, idx);
    forall j | |top| <= j < |idx|
      ensures !Eligible(ps, idx[j])
    {
      NoneFollows(ps, idx, j);
    }
    forall q | Eligible(ps, q)
      ensures q in top
    {
      var j :| 0 <= j < |idx| && idx[j] == q;
      assert j < |top|;
    }
  }

  /** The eligible producers before a place in the index that the scan reached are what the scan took. */
  lemma TakenBefore(ps: Producers, idx: seq<Name>, j: nat)
    requires IsIndex(ps, idx) && |Scanned(ps, idx)| <= j < |idx|
    ensures SetOf(Scanned(ps, idx)) <= EligibleBefore(ps, idx[j])
    ensures j == |Scanned(ps, idx)| ==> SetOf(Scanned(ps, idx)) == EligibleBefore(ps, idx[j])
  {
    var top := Scanned(ps, idx);
    ScanTakes(ps, idx);
    forall p | p in top
      ensures p in EligibleBefore(ps, idx[j])
    {
      var i :| 0 <= i < |top| && top[i] == p;
      assert Precedes(ps, idx[i], idx[j]);
    }
    if j == |top| {
      forall i: nat | j <= i < |idx|
        ensures !Precedes(ps, idx[i], idx[j])
      {
        IndexIsStrict(ps, idx, i, j);
      }
      forall p | p in EligibleBefore(ps, idx[j])
        ensures p in top
      {
        var i :| 0 <= i < |idx| && idx[i] == p;
        assert i < j;
      }
    }
  }

  /**
   * The scan elects the right producers exactly when each inactive producer with a negative tally is preceded
   * by enough eligible ones to fill the seats.
   */
  lemma ScanElects(ps: Producers, idx: seq<Name>)
    requires IsIndex(ps, idx)
    ensures IsTop(ps, Scanned(ps, idx)) <==> forall q :: Hidden(ps, q) ==> |EligibleBefore(ps, q)| >= Seats(ps)
  {
    var top := Scanned(ps, idx);
    ScanTakes(ps, idx);
    ScanRanks(ps, idx);
    SubsetIsSmaller(SetOf(top), EligibleSet(ps));
    if IsTop(ps, top) {
      forall q | Hidden(ps, q)
        ensures |EligibleBefore(ps, q)| >= Seats(ps)
      {
        var j :| 0 <= j < |idx| && idx[j] == q;
        assert j >= |top|;
        TakenBefore(ps, idx, j);
        SubsetIsSmaller(SetOf(top), EligibleBefore(ps, q));
      }
    }
    if forall q :: Hidden(ps, q) ==> |EligibleBefore(ps, q)| >= Seats(ps) {
      EnoughTaken(ps, idx);
    }
  }

  lemma EnoughTaken(ps: Producers, idx: seq<Name>)
    requires IsIndex(ps, idx) && forall q :: Hidden(ps, q) ==> |EligibleBefore(ps, q)| >= Seats(ps)
    ensures |Scanned(ps, idx)| == Seats(ps)
  {
    var top := Scanned(ps, idx);
    ScanTakes(ps, idx);
    ScanRanks(ps, idx);
    SubsetIsSmaller(SetOf(top), EligibleSet(ps));
    if |top| < MAX_PRODUCERS {
      if |top| < |idx| && Hidden(ps, idx[|top|]) {
        TakenBefore(ps, idx, |top|);
      } else {
        StoppedAfterAll(ps, idx);
        assert SetOf(top) == EligibleSet(ps);
      }
    }
  }

  /** So it always does while no tally is negative. */
  lemma NonnegTalliesElect(ps: Producers, idx: seq<Name>)
    requires IsIndex(ps, idx) && forall q :: q in ps ==> ps[q].totalVotes >= 0.0
    ensures IsTop(ps, Scanned(ps, idx))
  {
    ScanElects(ps, idx);
  }

  // The schedule

  predicate ByLocation(ps: Producers, a: Name, b: Name)
    requires a in ps && b in ps
  {
    ps[a].location < ps[b].location || (ps[a].location == ps[b].location && a < b)
  }

  predicate AllIn(ps: Producers, names: seq<Name>) {
    forall q :: q in names ==> q in ps
  }

  ghost predicate Ordered(ps: Producers, names: seq<Name>)
    requires AllIn(ps, names)
  {
    forall i, j :: 0 <= i < j < |names| ==> ByLocation(ps, names[i], names[j])
  }

  predicate Permutation(a: seq<Name>, b: seq<Name>) {
    multiset(a) == multiset(b)
  }

  /** The sort by location, then name. */
  method SortByLocation(ps: Producers, names: seq<Name>) returns (sorted: seq<Name>)
    requires AllIn(ps, names) && forall i, j :: 0 <= i < j < |names| ==> names[i] != names[j]
    ensures Permutation(sorted, names) && AllIn(ps, sorted) && Ordered(ps, sorted)
    ensures forall i, j :: 0 <= i < j < |sorted| ==>
              var p, q := ps[sorted[i]], ps[sorted[j]];
              p.location < q.location || (p.location == q.location && sorted[i] < sorted[j])
  {
    sorted := [];
    var i := 0;
    while i < |names|
      invariant 0 <= i <= |names|
      invariant multiset(sorted) == multiset(names[..i]) && AllIn(ps, sorted) && Ordered(ps, sorted)
    {
      assert names[..i + 1] == names[..i] + [names[i]];
      forall q | q in sorted
        ensures q != names[i]
      {
        assert q in multiset(names[..i]);
      }
      sorted := InsertByLocation(ps, sorted, names[i]);
      assert AllIn(ps, sorted) by {
        forall q | q in sorted
          ensures q in ps
        {
          assert q in multiset(sorted);
        }
      }
      i := i + 1;
    }
    assert names[..i] == names;
  }

  method InsertByLocation(ps: Producers, names: seq<Name>, q: Name) returns (more: seq<Name>)
    requires AllIn(ps, names) && Ordered(ps, names) && q in ps && q !in names
    ensures multiset(more) == multiset(names) + multiset{q}
    ensures AllIn(ps, more) && Ordered(ps, more)
  {
    var k := 0;
    while k < |names| && ByLocation(ps, names[k], q)
      invariant 0 <= k <= |names|
      invariant forall i :: 0 <= i < k ==> ByLocation(ps, names[i], q)
    {
      k := k + 1;
    }
    more := names[..k] + [q] + names[k..];
    assert names == names[..k] + names[k..];
    InsertedIsOrdered(ps, names, q, k);
  }

  lemma InsertedIsOrdered(ps: Producers, names: seq<Name>, q: Name, k: nat)
    requires AllIn(ps, names) && Ordered(ps, names) && q in ps && q !in names && k <= |names|
    requires forall i :: 0 <= i < k ==> ByLocation(ps, names[i], q)
    requires k < |names| ==> !ByLocation(ps, names[k], q)
    ensures var more := names[..k] + [q] + names[k..]; AllIn(ps, more) && Ordered(ps, more)
  {
    var more := names[..k] + [q] + names[k..];
    forall i | k <= i < |names|
      ensures ByLocation(ps, q, names[i])
    {
      if k < i {
        assert ByLocation(ps, names[k], names[i]);
      }
    }
    forall i, j | 0 <= i < j < |more|
      ensures ByLocation(ps, more[i], more[j])
    {
      assert more[i] == if i < k then names[i] else if i == k then q else names[i - 1];
      assert more[j] == if j < k then names[j] else if j == k then q else names[j - 1];
    }
  }

  class Schedule {
    var lastUpdate: int
    var lastSize: nat
    var proposed: seq<Name>

    constructor ()
      ensures lastSize == 0 && proposed == []
    {
      lastUpdate, lastSize, proposed := 0, 0, [];
    }

    /** update_elected_producers; the chain says whether it accepts the proposal.  The schedule never shrinks. */
    method UpdateElected(ps: Producers, idx: seq<Name>, blockTime: int, accepted: bool)
      requires IsIndex(ps, idx)
      modifies this
      ensures lastUpdate == blockTime
      ensures lastSize >= old(lastSize)
      ensures var top := Scanned(ps, idx);
              if top != [] && |top| >= old(lastSize) && accepted
              then && lastSize == |top| && Permutation(proposed, top) && AllIn(ps, proposed) && Ordered(ps, proposed)
              else lastSize == old(lastSize) && proposed == old(proposed)
    {
      lastUpdate := blockTime;
      var top := ScanIndex(ps, idx);
      if |top| == 0 || |top| < lastSize {
        return;
      }
      ScanTakes(ps, idx);
      ScanRanks(ps, idx);
      var sorted := SortByLocation(ps, top);
      if accepted {
        lastSize := |top|;
        proposed := sorted;
      }
    }
  }
}
