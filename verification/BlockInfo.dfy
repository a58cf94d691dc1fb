/**
 * The rolling window of recent blocks, and the query for the latest batch
 * (contracts/eosio.system/src/block_info.cpp and include/eosio.system/block_info.hpp).
 */
module BlockInfo {
  import opened Arith

  const ROLLING_WINDOW_SIZE: nat := 10

  datatype Record = Record(version: nat, height: nat, timestamp: int)

  /** The table, in the order of its primary key. */
  type Table = seq<Record>

  predicate Sorted(t: Table) {
    forall i, j :: 0 <= i < j < |t| ==> t[i].height < t[j].height
  }

  function LastPrunable(height: nat): nat {
    if height > ROLLING_WINDOW_SIZE then height - ROLLING_WINDOW_SIZE else 0
  }

  /** How many rows are pruned: those at the front up to a height, but at most two. */
  function PrunedRows(t: Table, limit: nat): nat {
    if t == [] || t[0].height > limit then 0
    else if |t| == 1 || t[1].height > limit then 1
    else 2
  }

  /** The table with the row of a new block, before pruning. */
  function Extended(t: Table, height: nat, timestamp: int): Table {
    t + [Record(0, height, timestamp)]
  }

  /** The table after a block is recorded. */
  function Recorded(t: Table, height: nat, timestamp: int): Table {
    var u := Extended(t, height, timestamp);
    u[PrunedRows(u, LastPrunable(height))..]
  }

  /** A block's height is one more than its predecessor's; blocks are recorded in the order of their heights. */
  predicate NextBlock(t: Table, height: nat) {
    height > 0 && (t != [] ==> t[|t| - 1].height < height)
  }

  lemma ExtendedSorted(t: Table, height: nat, timestamp: int)
    requires Sorted(t) && NextBlock(t, height)
    ensures Sorted(Extended(t, height, timestamp))
  {
    forall i | 0 <= i < |t|
      ensures t[i].height < height
    {
      assert i < |t| - 1 ==> t[i].height < t[|t| - 1].height;
    }
  }

  /** Pruning never reaches the row of the block itself. */
  lemma LatestIsKept(t: Table, height: nat, timestamp: int)
    requires Sorted(t) && NextBlock(t, height)
    ensures var r := Recorded(t, height, timestamp);
            Sorted(r) && r != [] && r[|r| - 1] == Record(0, height, timestamp)
  {
    ExtendedSorted(t, height, timestamp);
    var u := Extended(t, height, timestamp);
    assert u[|u| - 1].height > LastPrunable(height);
  }

  /** The heights of a sorted table grow at least as fast as its positions. */
  lemma {:induction false} HeightsSpread(t: Table, i: nat, j: nat)
    requires Sorted(t) && i <= j < |t|
    ensures t[i].height + (j - i) <= t[j].height
    decreases j - i
  {
    if i < j {
      HeightsSpread(t, i + 1, j);
      assert t[i].height < t[i + 1].height;
    }
  }

  /** The window never holds more than ten rows, whatever gaps there were. */
  lemma AtMostTenRows(t: Table, height: nat, timestamp: int)
    requires Sorted(t) && NextBlock(t, height) && |t| <= ROLLING_WINDOW_SIZE
    ensures |Recorded(t, height, timestamp)| <= ROLLING_WINDOW_SIZE
  {
    var u := Extended(t, height, timestamp);
    if |t| == ROLLING_WINDOW_SIZE {
      ExtendedSorted(t, height, timestamp);
      HeightsSpread(u, 0, |t|);
      assert u[0].height <= LastPrunable(height);
    }
  }

  // Stale rows

  /** The rows that have fallen out of the window of a block. */
  function Stale(t: Table, limit: nat): nat {
    if t == [] then 0 else (if t[0].height <= limit then 1 else 0) + Stale(t[1..], limit)
  }

  lemma {:induction false} NoneStale(t: Table, limit: nat)
    requires Sorted(t) && (t != [] ==> t[0].height > limit)
    ensures Stale(t, limit) == 0
    decreases |t|
  {
    if |t| > 1 {
      assert t[0].height < t[1].height;
      NoneStale(t[1..], limit);
    }
  }

  /** Raising the limit by one makes at most one more row stale. */
  lemma {:induction false} StaleByOne(t: Table, limit: nat)
    requires Sorted(t)
    ensures Stale(t, limit) <= Stale(t, limit + 1) <= Stale(t, limit) + 1
    decreases |t|
  {
    if t != [] {
      if t[0].height <= limit {
        StaleByOne(t[1..], limit);
      } else {
        NoneStale(t, limit);
        assert |t| > 1 ==> t[0].height < t[1].height;
        NoneStale(t[1..], limit + 1);
      }
    }
  }

  lemma {:induction false} StaleWithLatest(t: Table, height: nat, timestamp: int, limit: nat)
    requires height > limit
    ensures Stale(Extended(t, height, timestamp), limit) == Stale(t, limit)
    decreases |t|
  {
    if t != [] {
      assert Extended(t, height, timestamp)[1..] == Extended(t[1..], height, timestamp);
      StaleWithLatest(t[1..], height, timestamp, limit);
    } else {
      assert Extended(t, height, timestamp)[1..] == [];
    }
  }

  /** Pruning removes stale rows, two if there are two. */
  lemma PruningStale(u: Table, limit: nat)
    requires Sorted(u)
    ensures Stale(u[PrunedRows(u, limit)..], limit) == if Stale(u, limit) >= 2 then Stale(u, limit) - 2 else 0
  {
    if u == [] || u[0].height > limit {
      NoneStale(u, limit);
      assert u[0..] == u;
    } else if |u| == 1 || u[1].height > limit {
      NoneStale(u[1..], limit);
    } else {
      assert u[1..][1..] == u[2..];
    }
  }

  lemma StaleFallsBy(t: Table, height: nat, timestamp: int, limit: nat, next: nat)
    requires Sorted(t) && NextBlock(t, height) && next == LastPrunable(height) && limit <= next <= limit + 1
    ensures var before, after := Stale(t, limit), Stale(Recorded(t, height, timestamp), next);
            if before > 0 then after < before else after == 0
  {
    ExtendedSorted(t, height, timestamp);
    StaleWithLatest(t, height, timestamp, next);
    PruningStale(Extended(t, height, timestamp), next);
    StaleByOne(t, limit);
  }

  /** After a gap, the rows out of the window get fewer with every consecutive block, until there are none. */
  lemma StaleFalls(t: Table, height: nat, timestamp: int)
    requires Sorted(t) && NextBlock(t, height + 1)
    ensures var before, after := Stale(t, LastPrunable(height)), Stale(Recorded(t, height + 1, timestamp), LastPrunable(height + 1));
            if before > 0 then after < before else after == 0
  {
    StaleFallsBy(t, height + 1, timestamp, LastPrunable(height), LastPrunable(height + 1));
  }

  // Consecutive blocks

  predicate Has(t: Table, height: nat) {
    exists i :: 0 <= i < |t| && t[i].height == height
  }

  /** The blocks from one height to another are all in the table, and the latter is the latest. */
  ghost predicate HasRun(t: Table, from: nat, to: nat) {
    && t != [] && t[|t| - 1].height == to
    && forall h: nat :: from <= h <= to ==> Has(t, h)
  }

  lemma RecordedHas(t: Table, height: nat, timestamp: int, h: nat)
    requires Sorted(t) && NextBlock(t, height) && Has(t, h) && h > LastPrunable(height)
    ensures Has(Recorded(t, height, timestamp), h)
  {
    var u := Extended(t, height, timestamp);
    var n := PrunedRows(u, LastPrunable(height));
    var i :| 0 <= i < |t| && t[i].height == h;
    ExtendedSorted(t, height, timestamp);
    assert u[i] == t[i];
    assert i >= n;
    assert Recorded(t, height, timestamp)[i - n] == u[i];
  }

  /** A run of consecutive blocks grows with each further one, up to the size of the window. */
  lemma RunGrows(t: Table, from: nat, to: nat, timestamp: int)
    requires Sorted(t) && from <= to && HasRun(t, from, to)
    ensures HasRun(Recorded(t, to + 1, timestamp), if from > LastPrunable(to + 1) then from else LastPrunable(to + 1) + 1, to + 1)
  {
    var r := Recorded(t, to + 1, timestamp);
    LatestIsKept(t, to + 1, timestamp);
    forall h: nat | from <= h <= to + 1 && h > LastPrunable(to + 1)
      ensures Has(r, h)
    {
      if h <= to {
        RecordedHas(t, to + 1, timestamp, h);
      } else {
        assert r[|r| - 1].height == h;
      }
    }
  }

  // The query

  datatype BatchInfo = BatchInfo(startHeight: nat, startTimestamp: int, endHeight: nat, endTimestamp: int)

  datatype BatchResult = Batch(info: BatchInfo) | InvalidInput | UnsupportedVersion | InsufficientData

  /** The position of a height in the table, or the length of the table. */
  function Find(t: Table, height: nat): (i: nat)
    ensures i <= |t| && (i < |t| ==> t[i].height == height)
    ensures i == |t| <==> !Has(t, height)
  {
    if t == [] then 0
    else if t[0].height == height then 0
    else
      var i := Find(t[1..], height);
      assert i < |t[1..]| ==> t[1..][i] == t[i + 1];
      assert Has(t, height) ==> Has(t[1..], height) by {
        if Has(t, height) {
          var k :| 0 <= k < |t| && t[k].height == height;
          assert t[1..][k - 1].height == height;
        }
      }
      i + 1
  }

  /** get_latest_block_batch_info. */
  function LatestBatch(t: Table, offset: nat, batchSize: nat): BatchResult {
    if batchSize == 0 then InvalidInput
    else if t == [] then InsufficientData
    else
      var last := t[|t| - 1];
      if last.version != 0 then UnsupportedVersion
      else if last.height < offset then InsufficientData
      else
        var start := last.height - (last.height - offset) % batchSize;
        if start == last.height then Batch(BatchInfo(start, last.timestamp, last.height, last.timestamp))
        else
          var i := Find(t, start);
          if i == |t| then InsufficientData
          else if t[i].version != 0 then UnsupportedVersion
          else Batch(BatchInfo(start, t[i].timestamp, last.height, last.timestamp))
  }

  /** The start of the batch a height belongs to, when batches of a size start at an offset and every size after it. */
  predicate IsBatchStart(start: nat, height: nat, offset: nat, batchSize: nat)
    requires batchSize > 0
  {
    offset <= start <= height < start + batchSize && (start - offset) % batchSize == 0
  }

  predicate VersionsZero(t: Table) {
    forall i :: 0 <= i < |t| ==> t[i].version == 0
  }

  lemma RecordedVersions(t: Table, height: nat, timestamp: int)
    requires VersionsZero(t)
    ensures VersionsZero(Recorded(t, height, timestamp))
  {
    var u, r := Extended(t, height, timestamp), Recorded(t, height, timestamp);
    forall i | 0 <= i < |r|
      ensures r[i].version == 0
    {
      assert r[i] == u[|u| - |r| + i];
    }
  }

  lemma BatchStartIsUnique(a: nat, b: nat, height: nat, offset: nat, batchSize: nat)
    requires batchSize > 0 && IsBatchStart(a, height, offset, batchSize) && IsBatchStart(b, height, offset, batchSize)
    ensures a == b
  {
    var x, y := (a - offset) / batchSize, (b - offset) / batchSize;
    assert a == offset + x * batchSize && b == offset + y * batchSize;
    SameMultiple(x, y, batchSize, a - offset, b - offset);
  }

  lemma SameMultiple(x: int, y: int, n: nat, a: int, b: int)
    requires n > 0 && a == x * n && b == y * n && a < b + n && b < a + n
    ensures a == b
  {
    assert (x + 1) * n == a + n && (y + 1) * n == b + n;
    CancelLt(x, y + 1, n);
    CancelLt(y, x + 1, n);
  }

  lemma BatchStart(height: nat, offset: nat, batchSize: nat)
    requires batchSize > 0 && offset <= height
    ensures IsBatchStart(height - (height - offset) % batchSize, height, offset, batchSize)
  {
    var d := height - offset;
    assert d - d % batchSize == d / batchSize * batchSize;
    MultipleModulo(d / batchSize, batchSize);
  }

  lemma MultipleModulo(q: nat, n: nat)
    requires n > 0
    ensures (q * n) % n == 0
  {
    var p := (q * n) / n;
    assert p * n <= q * n < p * n + n;
    assert (p + 1) * n == p * n + n;
    CancelLe(p, q, n);
    CancelLt(q, p + 1, n);
  }

  /**
   * Once the last ten blocks are recorded, every query for batches of at most ten, starting no later than the
   * latest block, succeeds, and its batch is the one the latest block belongs to.
   */
  lemma TenBlocksAnswerAll(t: Table, to: nat, offset: nat, batchSize: nat)
    requires Sorted(t) && VersionsZero(t) && to + 1 >= ROLLING_WINDOW_SIZE
    requires HasRun(t, to + 1 - ROLLING_WINDOW_SIZE, to)
    requires 1 <= batchSize <= ROLLING_WINDOW_SIZE && offset <= to
    ensures var r := LatestBatch(t, offset, batchSize);
            && r.Batch? && r.info.endHeight == to && r.info.endTimestamp == t[|t| - 1].timestamp
            && IsBatchStart(r.info.startHeight, to, offset, batchSize)
            && (forall start: nat :: IsBatchStart(start, to, offset, batchSize) ==> start == r.info.startHeight)
            && Find(t, r.info.startHeight) < |t| && t[Find(t, r.info.startHeight)].timestamp == r.info.startTimestamp
  {
    var start := to - (to - offset) % batchSize;
    BatchStart(to, offset, batchSize);
    OnlyBatchStart(start, to, offset, batchSize);
    assert Has(t, start);
    FoundStart(t, start, offset, batchSize);
  }

  /** Some row is the start of the batch the latest block belongs to. */
  ghost predicate StartRecorded(t: Table, offset: nat, batchSize: nat)
    requires t != [] && batchSize > 0
  {
    exists i :: 0 <= i < |t| && t[i].version == 0 && IsBatchStart(t[i].height, t[|t| - 1].height, offset, batchSize)
  }

  /** On any table, a query succeeds exactly when that row is there, and reports it and the latest one. */
  lemma BatchExactly(t: Table, offset: nat, batchSize: nat)
    requires Sorted(t)
    ensures var r := LatestBatch(t, offset, batchSize);
            && (r.Batch? <==> && t != [] && batchSize > 0 && offset <= t[|t| - 1].height && t[|t| - 1].version == 0
                              && StartRecorded(t, offset, batchSize))
            && (r.Batch? ==> && r.info.endHeight == t[|t| - 1].height && r.info.endTimestamp == t[|t| - 1].timestamp
                             && IsBatchStart(r.info.startHeight, t[|t| - 1].height, offset, batchSize)
                             && Record(0, r.info.startHeight, r.info.startTimestamp) in t)
  {
    if batchSize > 0 && t != [] && offset <= t[|t| - 1].height {
      var last := t[|t| - 1];
      var start := last.height - (last.height - offset) % batchSize;
      BatchStart(last.height, offset, batchSize);
      OnlyBatchStart(start, last.height, offset, batchSize);
      OneRowAt(t, start);
      assert start == last.height ==> t[|t| - 1].height == start;
    }
  }

  /** A height has at most one row, and the search finds it. */
  lemma OneRowAt(t: Table, height: nat)
    requires Sorted(t)
    ensures forall i :: 0 <= i < |t| && t[i].height == height ==> i == Find(t, height)
    ensures Find(t, height) < |t| ==> Record(t[Find(t, height)].version, height, t[Find(t, height)].timestamp) in t
  {
    var f := Find(t, height);
    forall i | 0 <= i < |t| && t[i].height == height
      ensures i == f
    {
      assert Has(t, height);
    }
    if f < |t| {
      assert t[f] == Record(t[f].version, height, t[f].timestamp);
    }
  }

  lemma OnlyBatchStart(start: nat, to: nat, offset: nat, batchSize: nat)
    requires batchSize > 0 && IsBatchStart(start, to, offset, batchSize)
    ensures forall s: nat :: IsBatchStart(s, to, offset, batchSize) ==> s == start
  {
    forall s: nat | IsBatchStart(s, to, offset, batchSize)
      ensures s == start
    {
      BatchStartIsUnique(s, start, to, offset, batchSize);
    }
  }

  /** A start that is in the table is found, and its batch is the answer. */
  lemma FoundStart(t: Table, start: nat, offset: nat, batchSize: nat)
    requires Sorted(t) && VersionsZero(t) && t != [] && Has(t, start) && batchSize >= 1 && offset <= t[|t| - 1].height
    requires start == t[|t| - 1].height - (t[|t| - 1].height - offset) % batchSize
    ensures var r := LatestBatch(t, offset, batchSize);
            && r.Batch? && r.info.endHeight == t[|t| - 1].height && r.info.startHeight == start
            && Find(t, start) < |t| && t[Find(t, start)].timestamp == r.info.startTimestamp
  {
    var i := Find(t, start);
    if start == t[|t| - 1].height {
      assert i == |t| - 1;
    }
  }

  // Any number of consecutive blocks, after any gap

  /** The table after consecutive blocks, the first of them on top of a given height. */
  function Consecutive(t: Table, previous: nat, stamps: seq<int>): Table {
    var n := |stamps|;
    if n == 0 then t else Recorded(Consecutive(t, previous, stamps[..n - 1]), previous + n, stamps[n - 1])
  }

  /** A table the contract can have written. */
  predicate TableOk(t: Table) {
    Sorted(t) && VersionsZero(t) && |t| <= ROLLING_WINDOW_SIZE
  }

  /** Such a table, when the next block is of some height or higher. */
  predicate ReadyFor(t: Table, height: nat) {
    TableOk(t) && NextBlock(t, height)
  }

  lemma RecordedOk(t: Table, height: nat, timestamp: int, r: Table)
    requires ReadyFor(t, height) && r == Recorded(t, height, timestamp)
    ensures ReadyFor(r, height + 1) && HasRun(r, height, height)
  {
    AtMostTenRows(t, height, timestamp);
    LatestIsKept(t, height, timestamp);
    RecordedVersions(t, height, timestamp);
    assert r[|r| - 1].height == height;
  }

  lemma {:induction false} ConsecutiveOk(t: Table, previous: nat, stamps: seq<int>, r: Table)
    requires ReadyFor(t, previous + 1) && r == Consecutive(t, previous, stamps)
    ensures ReadyFor(r, previous + |stamps| + 1)
    decreases |stamps|
  {
    var n := |stamps|;
    if n > 0 {
      var u := Consecutive(t, previous, stamps[..n - 1]);
      ConsecutiveOk(t, previous, stamps[..n - 1], u);
      RecordedOk(u, previous + n, stamps[n - 1], r);
    }
  }

  lemma GrownRun(t: Table, from: nat, to: nat, timestamp: int, r: Table)
    requires TableOk(t) && from <= to && HasRun(t, from, to) && r == Recorded(t, to + 1, timestamp)
    ensures HasRun(r, if from > LastPrunable(to + 1) then from else LastPrunable(to + 1) + 1, to + 1)
  {
    RunGrows(t, from, to, timestamp);
  }

  /** As many of the last blocks as fit the window are all in the table. */
  lemma {:induction false} ConsecutiveRun(t: Table, previous: nat, stamps: seq<int>, r: Table)
    requires ReadyFor(t, previous + 1) && stamps != [] && r == Consecutive(t, previous, stamps)
    ensures var n := |stamps|;
            HasRun(r, if n <= ROLLING_WINDOW_SIZE then previous + 1 else previous + n + 1 - ROLLING_WINDOW_SIZE, previous + n)
    decreases |stamps|
  {
    var n := |stamps|;
    var u := Consecutive(t, previous, stamps[..n - 1]);
    ConsecutiveOk(t, previous, stamps[..n - 1], u);
    if n > 1 {
      var from := if n - 1 <= ROLLING_WINDOW_SIZE then previous + 1 else previous + n - ROLLING_WINDOW_SIZE;
      ConsecutiveRun(t, previous, stamps[..n - 1], u);
      GrownRun(u, from, previous + n - 1, stamps[n - 1], r);
    } else {
      RecordedOk(u, previous + 1, stamps[0], r);
    }
  }

  lemma {:induction false} StaleAtMost(t: Table, limit: nat)
    ensures Stale(t, limit) <= |t|
    decreases |t|
  {
    if t != [] {
      StaleAtMost(t[1..], limit);
    }
  }

  lemma StaleStep(t: Table, height: nat, timestamp: int, r: Table)
    requires ReadyFor(t, height + 1) && r == Recorded(t, height + 1, timestamp)
    ensures var before := Stale(t, LastPrunable(height));
            Stale(r, LastPrunable(height + 1)) <= if before > 1 then before - 1 else 0
  {
    StaleFalls(t, height, timestamp);
  }

  /** Each of the blocks takes at least one of the rows out of the window, while there are any. */
  lemma {:induction false} ConsecutiveStale(t: Table, previous: nat, stamps: seq<int>, r: Table)
    requires ReadyFor(t, previous + 1) && r == Consecutive(t, previous, stamps)
    ensures var before, n := Stale(t, LastPrunable(previous)), |stamps|;
            Stale(r, LastPrunable(previous + n)) <= if before > n then before - n else 0
    decreases |stamps|
  {
    var n := |stamps|;
    if n > 0 {
      var u := Consecutive(t, previous, stamps[..n - 1]);
      ConsecutiveOk(t, previous, stamps[..n - 1], u);
      ConsecutiveStale(t, previous, stamps[..n - 1], u);
      StaleStep(u, previous + n - 1, stamps[n - 1], r);
    }
  }

  lemma LatestOfConsecutive(t: Table, previous: nat, stamps: seq<int>)
    requires ReadyFor(t, previous + 1) && stamps != []
    ensures var u := Consecutive(t, previous, stamps); u != [] && u[|u| - 1].timestamp == stamps[|stamps| - 1]
  {
    var n := |stamps|;
    var u := Consecutive(t, previous, stamps[..n - 1]);
    ConsecutiveOk(t, previous, stamps[..n - 1], u);
    LatestIsKept(u, previous + n, stamps[n - 1]);
  }

  /**
   * After any gap, ten consecutive blocks leave no row out of the window, and a table that answers every query for
   * batches of at most ten that start no later than the latest block.
   */
  lemma TenBlocksAfterAnyGap(t: Table, previous: nat, stamps: seq<int>, offset: nat, batchSize: nat)
    requires ReadyFor(t, previous + 1)
    requires |stamps| >= ROLLING_WINDOW_SIZE
    requires 1 <= batchSize <= ROLLING_WINDOW_SIZE && offset <= previous + |stamps|
    ensures var u, to := Consecutive(t, previous, stamps), previous + |stamps|;
            && Stale(u, LastPrunable(to)) == 0
            && HasRun(u, to + 1 - ROLLING_WINDOW_SIZE, to)
            && var r := LatestBatch(u, offset, batchSize);
               && r.Batch? && r.info.endHeight == to && r.info.endTimestamp == stamps[|stamps| - 1]
               && IsBatchStart(r.info.startHeight, to, offset, batchSize)
  {
    StaleAtMost(t, LastPrunable(previous));
    var u := Consecutive(t, previous, stamps);
    ConsecutiveStale(t, previous, stamps, u);
    ConsecutiveOk(t, previous, stamps, u);
    ConsecutiveRun(t, previous, stamps, u);
    LatestOfConsecutive(t, previous, stamps);
    TenBlocksAnswerAll(u, previous + |stamps|, offset, batchSize);
  }

  /** The block's row is entered, and up to two of the oldest go, just those that are ten or more blocks behind. */
  predicate Entered(t: Table, height: nat, timestamp: int, r: Table) {
    var u, gone := t + [Record(0, height, timestamp)], |t| + 1 - |r|;
    && r != [] && 0 <= gone <= 2 && r == u[gone..]
    && (forall i :: 0 <= i < gone ==> u[i].height + 10 <= (if height > 10 then height else 10))
    && (gone < 2 ==> r[0].height + 10 > height)
  }

  lemma RecordedEnters(t: Table, height: nat, timestamp: int)
    requires Sorted(t) && NextBlock(t, height)
    ensures Entered(t, height, timestamp, Recorded(t, height, timestamp))
  {
    LatestIsKept(t, height, timestamp);
    PruningStops(Extended(t, height, timestamp), LastPrunable(height));
  }

  lemma PruningStops(u: Table, limit: nat)
    ensures var n := PrunedRows(u, limit);
            && n <= 2 && n <= |u| && |u[n..]| == |u| - n
            && (forall i :: 0 <= i < n ==> u[i].height <= limit)
            && (n < 2 && u[n..] != [] ==> u[n..][0].height > limit)
  {
  }

  class BlockInfoTable {
    var rows: Table

    ghost predicate Valid()
      reads this
    {
      TableOk(rows)
    }

    constructor ()
      ensures Valid() && rows == []
    {
      rows := [];
    }

    /** add_to_blockinfo_table. */
    method Add(previousHeight: nat, timestamp: int)
      requires Valid() && (rows != [] ==> rows[|rows| - 1].height <= previousHeight)
      modifies this
      ensures Valid()
      ensures rows == Recorded(old(rows), previousHeight + 1, timestamp)
      ensures Entered(old(rows), previousHeight + 1, timestamp, rows)
    {
      var height := previousHeight + 1;
      AtMostTenRows(rows, height, timestamp);
      LatestIsKept(rows, height, timestamp);
      RecordedVersions(rows, height, timestamp);
      RecordedEnters(rows, height, timestamp);
      rows := rows + [Record(0, height, timestamp)];
      var limit := (if height > ROLLING_WINDOW_SIZE then height else ROLLING_WINDOW_SIZE) - ROLLING_WINDOW_SIZE;
      assert limit == LastPrunable(height);
      Prune(limit);
    }

    /** Up to two rows are erased from the front. */
    method Prune(limit: nat)
      modifies this
      ensures rows == old(rows)[PrunedRows(old(rows), limit)..]
    {
      ghost var u := rows;
      var count := 2;
      while rows != [] && rows[0].height <= limit && 0 < count
        invariant 0 <= count <= 2 && 2 - count <= |u| && rows == u[2 - count..]
        invariant forall i :: 0 <= i < 2 - count ==> u[i].height <= limit
      {
        rows := rows[1..];
        count := count - 1;
      }
    }
  }
}
