/**
 * `OmegaPartitioner::partition`, run sequentially: register senders and keys,
 * split the block uniformly over the shards, run one discarding round,
 * send every discard to the last shard of a catch-all round, and build the
 * cross-shard edges of the resulting two-round grid.
 */
module Partitioner {
  import opened Seqs
  import opened FatIds
  import opened Locations
  import opened Registry
  import opened Uniform
  import opened Rounds
  import opened Edges

  /** The k chunks of the uniform split of 0..n-1. */
  ghost function UniformChunks(n: nat, k: nat): seq<seq<nat>>
    requires k >= 1
  {
    seq(k, i requires 0 <= i < k => Chunk(n, k, i))
  }

  /** The start-index table of the uniform split: the first id of each chunk. */
  ghost function StartTable(n: nat, k: nat): seq<nat>
    requires k >= 1
  {
    seq(k, i requires 0 <= i < k => ChunkStart(n, k, i))
  }

  /** Every slot of the grid whose txn touches location l. */
  ghost function GridSlots(session: seq<SessionTxn>, grid: seq<seq<seq<nat>>>, l: nat): set<TxnFatId>
  {
    set r, s, x | 0 <= r < |grid| && 0 <= s < |grid[r]| && x in grid[r][s] && x < |session| && l in Locs(session[x]) ::
      TxnFatId(r, s, x)
  }

  /** The ids of the uniform split are those of the block: chunk s holds ids from chunk s's start up to n. */
  lemma ChunkMembers(n: nat, k: nat, s: nat, x: nat)
    requires k >= 1 && s < k && x in Chunk(n, k, s)
    ensures ChunkStart(n, k, s) <= x < n
  {
    ChunkStartMonotone(n, k, s + 1, k);
    ChunkStartOfAll(n, k);
  }

  /** Only chunk 0 can hold txn 0. */
  lemma TxnZeroInFirstChunk(n: nat, k: nat, s: nat)
    requires k >= 1 && s < k && 0 in Chunk(n, k, s)
    ensures s == 0
  {
    ChunkMembers(n, k, s, 0);
  }

  /** The registered trackers are anchored in shards below numShards. */
  lemma RegisteredAnchors(txns: seq<AnalyzedTxn>, anchor: StateKey -> nat, numShards: nat,
                          keyIds: map<StateKey, nat>, helpers: seq<LocationHelper>)
    requires forall k :: anchor(k) < numShards
    requires DenseIds(keyIds, |helpers|)
    requires forall k :: k in keyIds ==> helpers[keyIds[k]] == Registered(txns, anchor, k)
    ensures AnchorsBelow(helpers, numShards)
  {
    forall l | 0 <= l < |helpers| ensures helpers[l].anchorShardId < numShards {
      assert l in keyIds.Values;
      var k :| k in keyIds && keyIds[k] == l;
    }
  }

  /** The catch-all row: empty cells, then everything discarded in the last shard. */
  ghost predicate CatchAllRow(row: seq<seq<nat>>, numShards: nat, discarded: seq<seq<nat>>)
  {
    numShards >= 1 && |row| == numShards && row[numShards - 1] == Concat(discarded) &&
    forall s :: 0 <= s < numShards - 1 ==> row[s] == []
  }

  lemma CatchAllRowConcat(row: seq<seq<nat>>, numShards: nat, discarded: seq<seq<nat>>)
    requires CatchAllRow(row, numShards, discarded)
    ensures Concat(row) == Concat(discarded)
  {
    var front := row[..numShards - 1];
    ConcatOfEmpties(front);
    assert row == front + [row[numShards - 1]];
    ConcatAppend(front, row[numShards - 1]);
  }

  /** Round 0 and the catch-all row together hold every txn of the block exactly once. */
  lemma GridIsPartition(n: nat, input: seq<seq<nat>>, accepted: seq<seq<nat>>, discarded: seq<seq<nat>>,
                        row: seq<seq<nat>>, numShards: nat)
    requires |accepted| == |discarded| == |input|
    requires forall s :: 0 <= s < |input| ==> multiset(accepted[s]) + multiset(discarded[s]) == multiset(input[s])
    requires Concat(input) == Range(0, n)
    requires CatchAllRow(row, numShards, discarded)
    ensures IsPartition([accepted, row], n)
  {
    CatchAllRowConcat(row, numShards, discarded);
    ConcatMultisetSum(accepted, discarded, input);
    FlatGridAppend([accepted], row);
    FlatGridAppend([], accepted);
    assert [accepted] + [row] == [accepted, row];
  }

  /** The slots of the grid `partition` builds are those round 0 promoted and those the catch-all promoted. */
  lemma GridSlotsOfRounds(session: seq<SessionTxn>, accepted: seq<seq<nat>>, row: seq<seq<nat>>, numShards: nat,
                          discarded: seq<seq<nat>>, l: nat)
    requires CatchAllRow(row, numShards, discarded)
    ensures GridSlots(session, [accepted, row], l)
         == RoundSlots(session, 0, accepted, l) + CellSlots(session, NumRounds - 1, numShards - 1, Concat(discarded), l)
  {
    var grid := [accepted, row];
    var a := GridSlots(session, grid, l);
    var b := RoundSlots(session, 0, accepted, l) + CellSlots(session, NumRounds - 1, numShards - 1, Concat(discarded), l);
    forall f | f in a ensures f in b {
      var r, s, x :| 0 <= r < |grid| && 0 <= s < |grid[r]| && x in grid[r][s] && x < |session| && l in Locs(session[x]) &&
                     f == TxnFatId(r, s, x);
      if r == 1 {
        assert s == numShards - 1;
      }
    }
    forall f | f in b ensures f in a {
      if f in RoundSlots(session, 0, accepted, l) {
        var s, x :| 0 <= s < |accepted| && x in accepted[s] && x < |session| && l in Locs(session[x]) && f == TxnFatId(0, s, x);
        assert grid[0] == accepted;
      } else {
        var x :| x in Concat(discarded) && x < |session| && l in Locs(session[x]) && f == TxnFatId(1, numShards - 1, x);
        assert grid[1][numShards - 1] == Concat(discarded);
      }
    }
  }

  /**
   * Where the slots of the grid `partition` builds lie: in round 0 at the shard of
   * the txn's chunk, so txn 0 only in shard 0, or in the last shard of the
   * catch-all round.
   */
  lemma GridSlotShape(session: seq<SessionTxn>, n: nat, numShards: nat, grid: seq<seq<seq<nat>>>,
                      discarded: seq<seq<nat>>, l: nat, f: TxnFatId)
    requires numShards >= 1 && |grid| == NumRounds && |grid[0]| == numShards
    requires forall s, x :: 0 <= s < numShards && x in grid[0][s] ==> x in Chunk(n, numShards, s)
    requires CatchAllRow(grid[1], numShards, discarded)
    requires f in GridSlots(session, grid, l)
    ensures (f.round == 0 && f.shard < numShards && (f.oldTxnIdx == 0 ==> f.shard == 0)) ||
            (f.round == 1 && f.shard == numShards - 1)
  {
    var r, s, x :| 0 <= r < |grid| && 0 <= s < |grid[r]| && x in grid[r][s] && x < |session| && l in Locs(session[x]) &&
                   f == TxnFatId(r, s, x);
    if r == 0 && x == 0 {
      TxnZeroInFirstChunk(n, numShards, s);
    }
  }

  /** The touches of every location, from any bound on, meet the hypothesis of FollowersStopAfterWriterShard. */
  lemma PartitionGridNoShardStarts(session: seq<SessionTxn>, n: nat, numShards: nat, grid: seq<seq<seq<nat>>>,
                              discarded: seq<seq<nat>>, l: nat, h: LocationHelper, r: nat, s: nat)
    requires numShards >= 1 && |grid| == NumRounds && |grid[0]| == numShards
    requires forall s, x :: 0 <= s < numShards && x in grid[0][s] ==> x in Chunk(n, numShards, s)
    requires CatchAllRow(grid[1], numShards, discarded)
    requires forall f :: f in h.promotedTxnIds ==> f in GridSlots(session, grid, l)
    ensures NoShardStarts(TouchesAfter(h, r, s))
  {
    var L := TouchesAfter(h, r, s);
    forall i, j | 0 <= i < |L| && 0 <= j < |L| ensures L[i] != NextShard(L[j]) {
      assert L[i] in L && L[j] in L;
      GridSlotShape(session, n, numShards, grid, discarded, l, L[i]);
      GridSlotShape(session, n, numShards, grid, discarded, l, L[j]);
    }
  }

  /** The initial split of `partition`: `uniform_partition` and the start-index table built from it. */
  method InitialSplit(n: nat, numShards: nat) returns (remaining: seq<seq<nat>>, start: seq<nat>)
    requires numShards >= 1
    ensures remaining == UniformChunks(n, numShards) && start == StartTable(n, numShards)
    ensures Concat(remaining) == Range(0, n) && IdsBelow(remaining, n)
  {
    remaining := UniformPartition(n, numShards);
    start := StartTxnIds(remaining);
    UniformTables(n, numShards, remaining, start);
  }

  lemma UniformTables(n: nat, numShards: nat, remaining: seq<seq<nat>>, start: seq<nat>)
    requires numShards >= 1 && |remaining| == |start| == numShards
    requires forall i :: 0 <= i < numShards ==> remaining[i] == Chunk(n, numShards, i)
    requires forall s :: 0 <= s < numShards ==> start[s] == SizeBefore(remaining, s)
    ensures remaining == UniformChunks(n, numShards) && start == StartTable(n, numShards)
    ensures IdsBelow(remaining, n)
  {
    forall s | 0 <= s < numShards ensures start[s] == ChunkStart(n, numShards, s) {
      StartOfUniformChunk(n, numShards, remaining, s);
    }
    forall s, j | 0 <= s < |remaining| && 0 <= j < |remaining[s]| ensures remaining[s][j] < n {
      assert remaining[s][j] in remaining[s];
      ChunkMembers(n, numShards, s, remaining[s][j]);
    }
  }

  /** After round 0, every id in shard s's accepted or discarded list comes from chunk s. */
  lemma RoundIdsFromChunks(session: seq<SessionTxn>, helpers: seq<LocationHelper>, hw: WriteInRange, n: nat, numShards: nat,
                           accepted: seq<seq<nat>>, discarded: seq<seq<nat>>, m: map<nat, nat>)
    requires numShards >= 1 && SessionFits(session, |helpers|) && AnchorsBelow(helpers, numShards)
    requires RoundOutcome(session, helpers, StartTable(n, numShards), hw, UniformChunks(n, numShards), accepted, discarded, m)
    ensures forall s, x :: 0 <= s < numShards && x in accepted[s] ==> x in Chunk(n, numShards, s) && x < n
    ensures forall s, x :: 0 <= s < numShards && x in discarded[s] ==> x in Chunk(n, numShards, s) && x < n
    ensures IdsBelow(accepted, n) && IdsBelow(discarded, n)
  {
    var input := UniformChunks(n, numShards);
    forall s, x | 0 <= s < numShards && x in multiset(accepted[s]) + multiset(discarded[s])
      ensures x in Chunk(n, numShards, s) && x < n
    {
      assert multiset(accepted[s]) + multiset(discarded[s]) == multiset(input[s]);
      ChunkMembers(n, numShards, s, x);
    }
    forall s, j | 0 <= s < |discarded| && 0 <= j < |discarded[s]| ensures discarded[s][j] < n {
      assert discarded[s][j] in multiset(accepted[s]) + multiset(discarded[s]);
    }
    forall s, j | 0 <= s < |accepted| && 0 <= j < |accepted[s]| ensures accepted[s][j] < n {
      assert accepted[s][j] in multiset(accepted[s]) + multiset(discarded[s]);
    }
  }

  lemma CatchAllRowBelow(n: nat, numShards: nat, discarded: seq<seq<nat>>, row: seq<seq<nat>>)
    requires IdsBelow(discarded, n)
    requires CatchAllRow(row, numShards, discarded)
    ensures IdsBelow(row, n)
  {
    ConcatBelow(discarded, n);
  }

  lemma TwoRowsBelow(a: seq<seq<nat>>, b: seq<seq<nat>>, n: nat)
    requires IdsBelow(a, n) && IdsBelow(b, n)
    ensures GridIdsBelow([a, b], n)
  {
    var grid := [a, b];
    forall r, s, p | 0 <= r < |grid| && 0 <= s < |grid[r]| && 0 <= p < |grid[r][s]| ensures grid[r][s][p] < n {
      if r == 0 { assert grid[r] == a; } else { assert grid[r] == b; }
    }
  }

  /** The two rows the rounds leave form a grid of the block's txns that holds each of them exactly once. */
  lemma GridOfRounds(n: nat, numShards: nat, input: seq<seq<nat>>, accepted: seq<seq<nat>>, discarded: seq<seq<nat>>,
                     lastRow: seq<seq<nat>>)
    requires numShards >= 1 && |accepted| == |discarded| == |input| == numShards
    requires forall s :: 0 <= s < numShards ==> multiset(accepted[s]) + multiset(discarded[s]) == multiset(input[s])
    requires IdsBelow(accepted, n) && IdsBelow(discarded, n)
    requires Concat(input) == Range(0, n)
    requires CatchAllRow(lastRow, numShards, discarded)
    ensures GridShape([accepted, lastRow], numShards, n) && IsPartition([accepted, lastRow], n)
  {
    CatchAllRowBelow(n, numShards, discarded, lastRow);
    TwoRowsBelow(accepted, lastRow, n);
    GridIsPartition(n, input, accepted, discarded, lastRow, numShards);
  }

  /** The grid the rounds of `partition` leave: numShards cells per round, txns of the block only. */
  ghost predicate GridShape(grid: seq<seq<seq<nat>>>, numShards: nat, n: nat)
  {
    |grid| == NumRounds && Rectangular(grid, numShards) && GridIdsBelow(grid, n)
  }

  /**
   * The rounds of `partition`: one discarding round on the uniform split,
   * then the catch-all round, which places every discard in the last shard
   * of round 1 and promotes it there.
   */
  method MultiRounds(table: LocationTable, session: seq<SessionTxn>, n: nat, numShards: nat,
                     remaining: seq<seq<nat>>, start: seq<nat>, hw: WriteInRange)
    returns (grid: seq<seq<seq<nat>>>, ghost discarded: seq<seq<nat>>, ghost minDiscarded: map<nat, nat>)
    requires numShards >= 1 && |session| == n
    requires remaining == UniformChunks(n, numShards) && start == StartTable(n, numShards)
    requires Concat(remaining) == Range(0, n) && IdsBelow(remaining, n)
    requires AllValid(table.helpers) && SessionFits(session, |table.helpers|) && AnchorsBelow(table.helpers, numShards)
    modifies table
    ensures GridShape(grid, numShards, n) && IsPartition(grid, n)
    ensures RoundOutcome(session, old(table.helpers), start, hw, remaining, grid[0], discarded, minDiscarded)
    ensures CatchAllRow(grid[1], numShards, discarded)
    ensures forall s, x :: 0 <= s < numShards && x in grid[0][s] ==> x in Chunk(n, numShards, s)
    ensures AllValid(table.helpers) && |table.helpers| == old(|table.helpers|)
    ensures forall l :: 0 <= l < |table.helpers| ==> PromotedWith(table.helpers[l], old(table.helpers[l]), GridSlots(session, grid, l))
  {
    var accepted, disc, m := DiscardingRound(table, 0, session, remaining, start, hw);
    ghost var afterRound := table.helpers;
    discarded, minDiscarded := disc, m;
    RoundIdsFromChunks(session, old(table.helpers), hw, n, numShards, accepted, disc, m);
    var lastRow := CatchAll(table, session, disc, numShards);
    grid := [accepted, lastRow];
    GridOfRounds(n, numShards, remaining, accepted, disc, lastRow);
    forall l | 0 <= l < |table.helpers| ensures PromotedWith(table.helpers[l], old(table.helpers[l]), GridSlots(session, grid, l)) {
      PromotedWithTrans(old(table.helpers[l]), afterRound[l], table.helpers[l], RoundSlots(session, 0, accepted, l),
                        CellSlots(session, NumRounds - 1, numShards - 1, Concat(disc), l));
      GridSlotsOfRounds(session, accepted, lastRow, numShards, disc, l);
    }
  }

  /** A txn accepted in round 0 precedes, by index, every same-sender txn left to the catch-all round. */
  lemma SenderOrderAcrossRounds(session: seq<SessionTxn>, helpers: seq<LocationHelper>, start: seq<nat>, hw: WriteInRange,
                                input: seq<seq<nat>>, grid: seq<seq<seq<nat>>>, discarded: seq<seq<nat>>, m: map<nat, nat>,
                                numShards: nat, s: nat, x: nat, y: nat)
    requires SessionFits(session, |helpers|) && AnchorsBelow(helpers, |start|) && |input| == |start| == numShards
    requires |grid| == NumRounds && RoundOutcome(session, helpers, start, hw, input, grid[0], discarded, m)
    requires CatchAllRow(grid[1], numShards, discarded)
    requires s < numShards && x in grid[0][s] && y in grid[1][numShards - 1]
    requires x < |session| && y < |session| && session[x].senderId == session[y].senderId
    ensures x < y
  {
    ConcatMembers(discarded, y);
    var t :| 0 <= t < |discarded| && y in discarded[t];
    AcceptedBeforeDiscarded(session, helpers, start, hw, input, grid[0], discarded, m, s, t, x, y);
  }

  /** An id of chunk s lies between chunk s's start and chunk s + 1's start. */
  lemma InChunkBounds(n: nat, k: nat, s: nat, x: nat)
    requires k >= 1 && x in Chunk(n, k, s)
    ensures ChunkStart(n, k, s) <= x < ChunkStart(n, k, s + 1)
  {
    var c := Chunk(n, k, s);
    var i :| 0 <= i < |c| && c[i] == x;
  }

  /** A non-empty cell of the catch-all row is its last one. */
  lemma CatchAllRowMember(row: seq<seq<nat>>, numShards: nat, discarded: seq<seq<nat>>, s: nat, x: nat)
    requires CatchAllRow(row, numShards, discarded) && s < |row| && x in row[s]
    ensures s == numShards - 1
  {
  }

  /**
   * Sender order over the final slots: of two distinct txns of the same
   * sender placed in the grid, the one with the smaller original index is
   * exactly the one with the smaller slot id.
   */
  lemma SenderOrderOfSlots(session: seq<SessionTxn>, registered: seq<LocationHelper>, hw: WriteInRange, n: nat,
                           numShards: nat, grid: seq<seq<seq<nat>>>, discarded: seq<seq<nat>>, minDiscarded: map<nat, nat>,
                           r1: nat, s1: nat, x: nat, r2: nat, s2: nat, y: nat)
    requires numShards >= 1 && SessionFits(session, |registered|) && AnchorsBelow(registered, numShards)
    requires RoundsOutcome(session, registered, hw, n, numShards, grid, discarded, minDiscarded)
    requires r1 < |grid| && s1 < |grid[r1]| && x in grid[r1][s1]
    requires r2 < |grid| && s2 < |grid[r2]| && y in grid[r2][s2]
    requires x < |session| && y < |session| && session[x].senderId == session[y].senderId && x != y
    ensures x < y <==> Lt(TxnFatId(r1, s1, x), TxnFatId(r2, s2, y))
  {
    CompareIsLexicographicTotalOrder(TxnFatId(r1, s1, x), TxnFatId(r2, s2, y), TxnFatId(r2, s2, y));
    assert |grid| == NumRounds && |grid[0]| == numShards;
    if r1 == 1 {
      CatchAllRowMember(grid[1], numShards, discarded, s1, x);
    }
    if r2 == 1 {
      CatchAllRowMember(grid[1], numShards, discarded, s2, y);
    }
    if r1 == 0 && r2 == 1 {
      assert x in grid[0][s1] && y in grid[1][numShards - 1];
    } else if r1 == 1 && r2 == 0 {
      assert y in grid[0][s2] && x in grid[1][numShards - 1];
    } else if r1 == 0 && r2 == 0 && s1 != s2 {
      assert x in Chunk(n, numShards, s1) && y in Chunk(n, numShards, s2);
      InChunkBounds(n, numShards, s1, x);
      InChunkBounds(n, numShards, s2, y);
      if s1 < s2 {
        EarlierChunkSmallerIds(n, numShards, s1, s2, x, y);
      } else {
        EarlierChunkSmallerIds(n, numShards, s2, s1, y, x);
      }
    }
  }

  /** Once promotion starts from empty trackers, every promoted slot is a slot of the grid. */
  lemma PromotedFromGrid(session: seq<SessionTxn>, grid: seq<seq<seq<nat>>>, registered: seq<LocationHelper>,
                         helpers: seq<LocationHelper>)
    requires Unpromoted(registered) && |helpers| == |registered|
    requires forall l :: 0 <= l < |helpers| ==> PromotedWith(helpers[l], registered[l], GridSlots(session, grid, l))
    ensures forall l, f :: 0 <= l < |helpers| && f in helpers[l].promotedTxnIds ==> f in GridSlots(session, grid, l)
    ensures PromotedBelow(helpers, |session|)
  {
    forall l, f | 0 <= l < |helpers| && f in helpers[l].promotedTxnIds ensures f in GridSlots(session, grid, l) {
      assert f in Elems(helpers[l].promotedTxnIds);
      assert registered[l].promotedTxnIds == [];
    }
  }

  /**
   * What registration leaves: one annotated session txn per block txn, a
   * dense location id per touched key, and that key's tracker at its id,
   * anchored in [0, numShards).
   */
  ghost predicate RegistrationOutcome(txns: seq<AnalyzedTxn>, anchor: StateKey -> nat, numShards: nat, session: seq<SessionTxn>,
                                      senderIds: map<Sender, nat>, keyIds: map<StateKey, nat>, registered: seq<LocationHelper>)
  {
    |session| == |txns| && (forall t :: 0 <= t < |txns| ==> Annotated(txns[t], t, senderIds, keyIds, session[t])) &&
    (forall k :: k in keyIds <==> TouchedBefore(txns, |txns|, k)) &&
    DenseIds(keyIds, |registered|) && (forall k :: k in keyIds ==> registered[keyIds[k]] == Registered(txns, anchor, k)) &&
    SessionFits(session, |registered|) && AnchorsBelow(registered, numShards)
  }

  /**
   * What the rounds leave: two rounds of numShards cells holding every txn
   * exactly once; round 0 is the discarding round on the uniform split (so
   * its shard s keeps only ids of chunk s), round 1 the catch-all round; and
   * a txn accepted in round 0 precedes every same-sender txn of round 1.
   */
  ghost predicate RoundsOutcome(session: seq<SessionTxn>, registered: seq<LocationHelper>, hw: WriteInRange, n: nat, numShards: nat,
                                grid: seq<seq<seq<nat>>>, discarded: seq<seq<nat>>, minDiscarded: map<nat, nat>)
    requires numShards >= 1 && SessionFits(session, |registered|) && AnchorsBelow(registered, numShards)
  {
    GridShape(grid, numShards, n) && IsPartition(grid, n) &&
    RoundOutcome(session, registered, StartTable(n, numShards), hw, UniformChunks(n, numShards), grid[0], discarded, minDiscarded) &&
    CatchAllRow(grid[1], numShards, discarded) &&
    (forall s, x :: 0 <= s < numShards && x in grid[0][s] ==> x in Chunk(n, numShards, s)) &&
    (forall s, x, y ::
       (0 <= s < numShards && x in grid[0][s] && y in grid[1][numShards - 1] &&
        x < |session| && y < |session| && session[x].senderId == session[y].senderId) ==> x < y)
  }

  /**
   * What the trackers hold after the rounds: each gained exactly the slots of
   * the grid that touch its location, and no promoted slot is directly
   * followed by the start of the next shard's range.
   */
  ghost predicate TrackersOutcome(session: seq<SessionTxn>, grid: seq<seq<seq<nat>>>, registered: seq<LocationHelper>,
                                  helpers: seq<LocationHelper>)
  {
    |helpers| == |registered| && AllValid(helpers) && PromotedBelow(helpers, |session|) &&
    (forall l :: 0 <= l < |helpers| ==> PromotedWith(helpers[l], registered[l], GridSlots(session, grid, l))) &&
    (forall l, r, s :: 0 <= l < |helpers| ==> NoShardStarts(TouchesAfter(helpers[l], r, s)))
  }

  /**
   * The whole partitioner. The block's txns are registered, split into
   * numShards contiguous chunks, filtered by one discarding round whose
   * discards all go to the last shard of the catch-all round, and the grid of
   * the two rounds is turned into sub-blocks with their cross-shard edges.
   */
  method Partition(txns: seq<AnalyzedTxn>, numShards: nat, anchor: StateKey -> nat, hw: WriteInRange)
    returns (ret: seq<SubBlocksForShard>,
             ghost session: seq<SessionTxn>, ghost senderIds: map<Sender, nat>, ghost keyIds: map<StateKey, nat>,
             ghost registered: seq<LocationHelper>, ghost grid: seq<seq<seq<nat>>>, ghost discarded: seq<seq<nat>>,
             ghost minDiscarded: map<nat, nat>, ghost helpers: seq<LocationHelper>)
    requires numShards >= 1
    requires forall k :: anchor(k) < numShards
    ensures RegistrationOutcome(txns, anchor, numShards, session, senderIds, keyIds, registered)
    ensures RoundsOutcome(session, registered, hw, |txns|, numShards, grid, discarded, minDiscarded)
    ensures TrackersOutcome(session, grid, registered, helpers)
    // the output: one list of sub-blocks per shard, one sub-block per round
    ensures |ret| == numShards
    ensures forall s :: 0 <= s < numShards ==> ret[s].shardId == s && |ret[s].subBlocks| == NumRounds
    ensures forall s, r :: 0 <= s < numShards && 0 <= r < NumRounds ==>
      ret[s].subBlocks[r] == CellSubBlock(session, grid, helpers, r, s)
  {
    var n := |txns|;
    var sessionV, senderIdsV, numSenders, keyIdsV, helpers0 := Register(txns, anchor);
    session, senderIds, keyIds, registered := sessionV, senderIdsV, keyIdsV, helpers0;
    RegisteredAnchors(txns, anchor, numShards, keyIdsV, helpers0);
    assert RegistrationOutcome(txns, anchor, numShards, session, senderIds, keyIds, registered);
    var remaining, start := InitialSplit(n, numShards);
    var table := new LocationTable(helpers0);
    var gridV;
    gridV, discarded, minDiscarded := MultiRounds(table, sessionV, n, numShards, remaining, start, hw);
    grid, helpers := gridV, table.helpers;
    forall s, x, y | 0 <= s < numShards && x in grid[0][s] && y in grid[1][numShards - 1] &&
                     x < n && y < n && session[x].senderId == session[y].senderId
      ensures x < y
    {
      SenderOrderAcrossRounds(session, registered, start, hw, remaining, grid, discarded, minDiscarded, numShards, s, x, y);
    }
    assert RoundsOutcome(session, registered, hw, n, numShards, grid, discarded, minDiscarded);
    PromotedFromGrid(session, grid, registered, helpers);
    forall l, r, s | 0 <= l < |helpers| ensures NoShardStarts(TouchesAfter(helpers[l], r, s)) {
      assert |grid[0]| == numShards;
      PartitionGridNoShardStarts(session, n, numShards, grid, discarded, l, helpers[l], r, s);
    }
    assert TrackersOutcome(session, grid, registered, helpers);
    ret := AddEdges(sessionV, gridV, table.helpers);
  }
}
