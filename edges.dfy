/**
 * `add_edges`: the dense re-index of the final rounds-by-shards grid, and the
 * cross-shard dependencies of every txn. A txn of cell (r, s) gets a required
 * edge per location from the latest promoted writer before its cell, and, as
 * the last writer of a location in its cell, dependent edges to the promoted
 * touches of that location from the next shard on, up to the end of the
 * shard of the first later writer. The result is transposed to one list of
 * sub-blocks per shard.
 */
module Edges {
  import opened Seqs
  import opened FatIds
  import opened Locations
  import opened Registry

  /** Every round of the grid has numShards cells. */
  ghost predicate Rectangular(grid: seq<seq<seq<nat>>>, numShards: nat)
  {
    forall r :: 0 <= r < |grid| ==> |grid[r]| == numShards
  }

  /** Every id placed in the grid is a txn of the block. */
  ghost predicate GridIdsBelow(grid: seq<seq<seq<nat>>>, n: nat)
  {
    forall r, s, p :: 0 <= r < |grid| && 0 <= s < |grid[r]| && 0 <= p < |grid[r][s]| ==> grid[r][s][p] < n
  }

  /** The new index of txn x: its position in the round-major, shard-minor listing of the grid (last one wins). */
  function NewIndex(grid: seq<seq<seq<nat>>>, x: nat): nat
  {
    LastIndexOr0(FlatGrid(grid), x)
  }

  /** The array holds, at every txn, the index `a[flat[k]] := k` leaves after running over flat. */
  ghost predicate IndexedUpTo(newIndices: array<nat>, flat: seq<nat>)
    reads newIndices
  {
    forall x :: 0 <= x < newIndices.Length ==> newIndices[x] == LastIndexOr0(flat, x)
  }

  lemma LastIndexAppend(s: seq<nat>, y: nat, x: nat)
    ensures LastIndexOr0(s + [y], x) == if x == y then |s| else LastIndexOr0(s, x)
  {
    assert (s + [y])[..|s|] == s;
  }

  /** Re-index one cell whose first new index is counter: position p gets counter + p. */
  method IndexCell(newIndices: array<nat>, cell: seq<nat>, counter: nat, ghost flat: seq<nat>)
    requires counter == |flat| && IndexedUpTo(newIndices, flat)
    requires forall p :: 0 <= p < |cell| ==> cell[p] < newIndices.Length
    modifies newIndices
    ensures IndexedUpTo(newIndices, flat + cell)
  {
    assert flat + cell[..0] == flat;
    for p := 0 to |cell|
      invariant IndexedUpTo(newIndices, flat + cell[..p])
    {
      ghost var before := newIndices[..];
      newIndices[cell[p]] := counter + p;
      assert flat + cell[..p + 1] == (flat + cell[..p]) + [cell[p]];
      forall x | 0 <= x < newIndices.Length ensures newIndices[x] == LastIndexOr0(flat + cell[..p + 1], x) {
        LastIndexAppend(flat + cell[..p], cell[p], x);
        assert x != cell[p] ==> newIndices[x] == before[x];
      }
    }
    assert cell[..|cell|] == cell;
  }

  /** Re-index one round: cell s starts at counter plus the sizes of cells 0..s-1. */
  method IndexRound(newIndices: array<nat>, row: seq<seq<nat>>, counter0: nat, ghost flat: seq<nat>)
    returns (counter: nat, starts: seq<nat>)
    requires counter0 == |flat| && IndexedUpTo(newIndices, flat)
    requires forall s, p :: 0 <= s < |row| && 0 <= p < |row[s]| ==> row[s][p] < newIndices.Length
    modifies newIndices
    ensures counter == counter0 + |Concat(row)|
    ensures IndexedUpTo(newIndices, flat + Concat(row))
    ensures |starts| == |row| && forall s :: 0 <= s < |row| ==> starts[s] == counter0 + |Concat(row[..s])|
  {
    counter, starts := counter0, [];
    assert flat + Concat(row[..0]) == flat;
    for s := 0 to |row|
      invariant counter == counter0 + |Concat(row[..s])|
      invariant IndexedUpTo(newIndices, flat + Concat(row[..s]))
      invariant |starts| == s && forall t :: 0 <= t < s ==> starts[t] == counter0 + |Concat(row[..t])|
    {
      IndexCell(newIndices, row[s], counter, flat + Concat(row[..s]));
      assert row[..s + 1] == row[..s] + [row[s]];
      ConcatAppend(row[..s], row[s]);
      assert flat + Concat(row[..s + 1]) == (flat + Concat(row[..s])) + row[s];
      starts := starts + [counter];
      counter := counter + |row[s]|;
    }
    assert row[..|row|] == row;
  }

  /**
   * The re-index of `add_edges`: `new_indices[x]` is x's position in the
   * round-major, shard-minor listing of the grid, and `start_index_matrix[r][s]`
   * is the number of txns in the cells before (r, s).
   */
  method ReIndex(grid: seq<seq<seq<nat>>>, numTxns: nat) returns (newIndices: array<nat>, startIndex: seq<seq<nat>>)
    requires |grid| >= 1 && Rectangular(grid, |grid[0]|) && GridIdsBelow(grid, numTxns)
    ensures fresh(newIndices) && newIndices.Length == numTxns
    ensures forall x :: 0 <= x < numTxns ==> newIndices[x] == NewIndex(grid, x)
    ensures |startIndex| == |grid| && forall r :: 0 <= r < |grid| ==> |startIndex[r]| == |grid[0]|
    ensures forall r, s :: 0 <= r < |grid| && 0 <= s < |grid[0]| ==> startIndex[r][s] == CellStart(grid, r, s)
  {
    var numRounds, numShards := |grid|, |grid[0]|;
    var counter := 0;
    newIndices := new nat[numTxns](_ => 0);
    startIndex := seq(numRounds, _ => seq(numShards, _ => 0));
    for r := 0 to numRounds
      invariant counter == |FlatGrid(grid[..r])|
      invariant IndexedUpTo(newIndices, FlatGrid(grid[..r]))
      invariant |startIndex| == numRounds && forall t :: 0 <= t < numRounds ==> |startIndex[t]| == numShards
      invariant forall t, s :: 0 <= t < r && 0 <= s < numShards ==> startIndex[t][s] == CellStart(grid, t, s)
    {
      var starts;
      ghost var flat := FlatGrid(grid[..r]);
      counter, starts := IndexRound(newIndices, grid[r], counter, flat);
      assert grid[..r + 1] == grid[..r] + [grid[r]];
      FlatGridAppend(grid[..r], grid[r]);
      startIndex := startIndex[r := starts];
    }
    assert grid[..numRounds] == grid;
  }

  /** A cell's txn at position p gets the cell's start plus p; on a partition the re-index is a bijection of 0..n-1. */
  lemma NewIndexOfCell(grid: seq<seq<seq<nat>>>, n: nat, r: nat, s: nat, p: nat)
    requires IsPartition(grid, n) && r < |grid| && s < |grid[r]| && p < |grid[r][s]|
    ensures NewIndex(grid, grid[r][s][p]) == CellStart(grid, r, s) + p
  {
    PermutationOfRange(FlatGrid(grid), n);
    CellPosition(grid, r, s, p);
    LastIndexOfDistinct(FlatGrid(grid), CellStart(grid, r, s) + p);
  }

  /** On a partition of 0..n-1, the re-index maps 0..n-1 one-to-one onto 0..n-1. */
  lemma ReIndexIsPermutation(grid: seq<seq<seq<nat>>>, n: nat)
    requires IsPartition(grid, n)
    ensures forall x :: 0 <= x < n ==> NewIndex(grid, x) < n
    ensures forall x, y :: 0 <= x < n && 0 <= y < n && NewIndex(grid, x) == NewIndex(grid, y) ==> x == y
    ensures |FlatGrid(grid)| == n
    ensures forall i :: 0 <= i < n ==> FlatGrid(grid)[i] < n && NewIndex(grid, FlatGrid(grid)[i]) == i
  {
    var flat := FlatGrid(grid);
    PermutationOfRange(flat, n);
    forall x: nat | x < n ensures NewIndex(grid, x) < n && flat[NewIndex(grid, x)] == x {
      assert x in flat;
      var j :| 0 <= j < |flat| && flat[j] == x;
      LastIndexOfDistinct(flat, j);
    }
    forall i | 0 <= i < n ensures flat[i] < n && NewIndex(grid, flat[i]) == i {
      assert flat[i] in flat;
      LastIndexOfDistinct(flat, i);
    }
  }

  /** `ShardedTxnIndex`: a txn's new index, with the shard and round of its cell. */
  datatype ShardedTxnIndex = ShardedTxnIndex(txnIndex: nat, shardId: nat, roundId: nat)

  /** A required edge: this txn reads or writes loc after the txn at source wrote it. */
  datatype RequiredEdge = RequiredEdge(source: ShardedTxnIndex, loc: nat)

  /** A dependent edge: the txn at target reads or writes the locations after this txn wrote them. */
  datatype DependentEdge = DependentEdge(target: ShardedTxnIndex, locs: seq<nat>)

  /** `CrossShardDependencies`, as the edges added to it, in order. */
  datatype CrossShardDeps = CrossShardDeps(required: seq<RequiredEdge>, dependent: seq<DependentEdge>)

  datatype TxnWithDeps = TxnWithDeps(txn: SessionTxn, deps: CrossShardDeps)

  /** `SubBlock`: the new index of the cell's first txn, and the cell's txns with their dependencies. */
  datatype SubBlock = SubBlock(startIndex: nat, txns: seq<TxnWithDeps>)

  /** `SubBlocksForShard`: one shard's sub-blocks, one per round. */
  datatype SubBlocksForShard = SubBlocksForShard(shardId: nat, subBlocks: seq<SubBlock>)

  /** Every promoted slot of every tracker names a txn of the block. */
  ghost predicate PromotedBelow(helpers: seq<LocationHelper>, n: nat)
  {
    forall l, f :: 0 <= l < |helpers| && f in helpers[l].promotedTxnIds ==> f.oldTxnIdx < n
  }

  /** The sharded index of slot f under the re-index newIndices. */
  function Slot(newIndices: seq<nat>, f: TxnFatId): ShardedTxnIndex
    requires f.oldTxnIdx < |newIndices|
  {
    ShardedTxnIndex(newIndices[f.oldTxnIdx], f.shard, f.round)
  }

  /** The first slot of cell (r, s). */
  function CellFloor(r: nat, s: nat): TxnFatId
  {
    TxnFatId(r, s, 0)
  }

  /** f is the latest promoted writer of h's location in a cell before (r, s). */
  ghost predicate LatestWriterBefore(h: LocationHelper, r: nat, s: nat, f: TxnFatId)
  {
    f in h.promotedWriterIds && Lt(f, CellFloor(r, s)) &&
    forall g :: g in h.promotedWriterIds && Lt(g, CellFloor(r, s)) ==> Le(g, f)
  }

  /** The required edges of a txn of cell (r, s) touching locs, writes first (the first loop of the edge builder). */
  function RequiredFor(helpers: seq<LocationHelper>, newIndices: seq<nat>, r: nat, s: nat, locs: seq<nat>): seq<RequiredEdge>
    requires AllValid(helpers) && PromotedBelow(helpers, |newIndices|)
    requires forall j :: 0 <= j < |locs| ==> locs[j] < |helpers|
  {
    if locs == [] then []
    else
      var rest := RequiredFor(helpers, newIndices, r, s, locs[..|locs| - 1]);
      var loc := locs[|locs| - 1];
      match LastBelow(helpers[loc].promotedWriterIds, CellFloor(r, s))
      case None => rest
      case Some(f) =>
        assert helpers[loc].Valid();
        rest + [RequiredEdge(Slot(newIndices, f), loc)]
  }

  /**
   * Required edges: each names a location of the txn and comes from the
   * latest promoted writer of that location before the txn's cell, so from a
   * strictly earlier cell; every location with a promoted writer before the
   * cell has one.
   */
  lemma {:induction false} RequiredEdgesMeaning(helpers: seq<LocationHelper>, newIndices: seq<nat>, r: nat, s: nat,
                                                locs: seq<nat>)
    requires AllValid(helpers) && PromotedBelow(helpers, |newIndices|)
    requires forall j :: 0 <= j < |locs| ==> locs[j] < |helpers|
    ensures forall e :: e in RequiredFor(helpers, newIndices, r, s, locs) ==>
      e.loc in locs &&
      (e.source.roundId < r || (e.source.roundId == r && e.source.shardId < s)) &&
      exists f :: LatestWriterBefore(helpers[e.loc], r, s, f) && f.oldTxnIdx < |newIndices| && e.source == Slot(newIndices, f)
    ensures forall j :: 0 <= j < |locs| && (exists g :: g in helpers[locs[j]].promotedWriterIds && Lt(g, CellFloor(r, s))) ==>
      exists e :: e in RequiredFor(helpers, newIndices, r, s, locs) && e.loc == locs[j]
  {
    if locs != [] {
      var init := locs[..|locs| - 1];
      var loc := locs[|locs| - 1];
      RequiredEdgesMeaning(helpers, newIndices, r, s, init);
      assert forall j :: 0 <= j < |init| ==> init[j] == locs[j];
      var rest := RequiredFor(helpers, newIndices, r, s, init);
      var h := helpers[loc];
      match LastBelow(h.promotedWriterIds, CellFloor(r, s))
      case None =>
      case Some(f) =>
        assert h.Valid();
        CompareIsLexicographicTotalOrder(f, CellFloor(r, s), f);
        assert LatestWriterBefore(h, r, s, f);
        assert RequiredFor(helpers, newIndices, r, s, locs) == rest + [RequiredEdge(Slot(newIndices, f), loc)];
    }
  }

  /** The end bound the dependent-edge loop starts from, past every slot of the grid (`TxnFatId::new(num_rounds, num_shards, 0)`). */
  function EndOfGrid(numRounds: nat, numShards: nat): TxnFatId
  {
    TxnFatId(numRounds, numShards, 0)
  }

  /**
   * The followers the dependent-edge loop visits: the touches of L in order
   * until one is strictly greater than endId; visiting a candidate writer
   * moves endId to the start of the shard after the writer's.
   */
  function Followers(L: seq<TxnFatId>, ws: set<nat>, endId: TxnFatId): (r: seq<TxnFatId>)
    ensures forall f :: f in r ==> f in L
  {
    if L == [] || Lt(endId, L[0]) then []
    else [L[0]] + Followers(L[1..], ws, if L[0].oldTxnIdx in ws then NextShard(L[0]) else endId)
  }

  /** The followers are a prefix of the touches. */
  lemma {:induction false} FollowersPrefix(L: seq<TxnFatId>, ws: set<nat>, endId: TxnFatId)
    ensures |Followers(L, ws, endId)| <= |L|
    ensures forall i :: 0 <= i < |Followers(L, ws, endId)| ==> Followers(L, ws, endId)[i] == L[i]
  {
    if L != [] && !Lt(endId, L[0]) {
      FollowersPrefix(L[1..], ws, if L[0].oldTxnIdx in ws then NextShard(L[0]) else endId);
    }
  }

  /** No touch of L is the first slot of the shard after another touch's (`(r, s + 1, 0)`). */
  ghost predicate NoShardStarts(L: seq<TxnFatId>)
  {
    forall i, j :: 0 <= i < |L| && 0 <= j < |L| ==> L[i] != NextShard(L[j])
  }

  /** After a writer w, with the bound at the end of w's shard, every follower stays in w's shard. */
  lemma {:induction false} FollowersStayInShard(M: seq<TxnFatId>, ws: set<nat>, w: TxnFatId)
    requires SortedIds(M)
    requires forall i :: 0 <= i < |M| ==> Lt(w, M[i]) && M[i] != NextShard(w)
    ensures forall f :: f in Followers(M, ws, NextShard(w)) ==> f.round == w.round && f.shard == w.shard
  {
    if M != [] && !Lt(NextShard(w), M[0]) {
      var m := M[0];
      CompareIsLexicographicTotalOrder(w, m, NextShard(w));
      CompareIsLexicographicTotalOrder(m, NextShard(w), m);
      assert m.round == w.round && m.shard == w.shard;
      assert NextShard(m) == NextShard(w);
      var tail := M[1..];
      assert forall i :: 0 <= i < |tail| ==> tail[i] == M[i + 1];
      FollowersStayInShard(tail, ws, w);
    }
  }

  /**
   * Once the loop has visited a candidate writer, every later follower it
   * visits is in that writer's shard: the edges stop after the shard of the
   * first writer. (When a touch is exactly the first slot of the next shard,
   * the loop's non-strict test would still visit it; NoShardStarts rules that out.)
   */
  lemma {:induction false} FollowersStopAfterWriterShard(L: seq<TxnFatId>, ws: set<nat>, endId: TxnFatId, j: nat, i: nat)
    requires SortedIds(L) && NoShardStarts(L)
    requires j < i < |L| && i < |Followers(L, ws, endId)| && L[j].oldTxnIdx in ws
    ensures L[i].round == L[j].round && L[i].shard == L[j].shard
  {
    var tail := L[1..];
    assert forall k :: 0 <= k < |tail| ==> tail[k] == L[k + 1];
    var next := if L[0].oldTxnIdx in ws then NextShard(L[0]) else endId;
    assert Followers(L, ws, endId) == [L[0]] + Followers(tail, ws, next);
    FollowersPrefix(tail, ws, next);
    if j == 0 {
      forall k | 0 <= k < |tail| ensures Lt(L[0], tail[k]) && tail[k] != NextShard(L[0]) {
        assert tail[k] == L[k + 1];
      }
      FollowersStayInShard(tail, ws, L[0]);
      assert L[i] == Followers(tail, ws, next)[i - 1];
      assert L[i] in Followers(tail, ws, next);
    } else {
      assert SortedIds(tail) && NoShardStarts(tail);
      FollowersStopAfterWriterShard(tail, ws, next, j - 1, i - 1);
    }
  }

  /**
   * The loop visits every touch up to the first that lies beyond the initial
   * bound or beyond the shard of a writer visited before it.
   */
  lemma {:induction false} FollowersComplete(L: seq<TxnFatId>, ws: set<nat>, endId: TxnFatId)
    ensures var n := |Followers(L, ws, endId)|;
      n < |L| ==> Lt(endId, L[n]) || exists j :: 0 <= j < n && L[j].oldTxnIdx in ws && Lt(NextShard(L[j]), L[n])
  {
    if L != [] && !Lt(endId, L[0]) {
      var tail := L[1..];
      var next := if L[0].oldTxnIdx in ws then NextShard(L[0]) else endId;
      FollowersComplete(tail, ws, next);
      FollowersPrefix(tail, ws, next);
      var n := |Followers(L, ws, endId)|;
      if n < |L| {
        assert L[n] == tail[n - 1];
        if !Lt(next, tail[n - 1]) {
          var j :| 0 <= j < n - 1 && tail[j].oldTxnIdx in ws && Lt(NextShard(tail[j]), tail[n - 1]);
          assert L[j + 1] == tail[j];
        }
      }
    }
  }

  /** The dependent edges to the followers fs of one location. */
  function Targets(fs: seq<TxnFatId>, newIndices: seq<nat>, loc: nat): (r: seq<DependentEdge>)
    requires forall f :: f in fs ==> f.oldTxnIdx < |newIndices|
    ensures |r| == |fs| && forall i :: 0 <= i < |fs| ==> r[i] == DependentEdge(Slot(newIndices, fs[i]), [loc])
  {
    if fs == [] then []
    else Targets(fs[..|fs| - 1], newIndices, loc) + [DependentEdge(Slot(newIndices, fs[|fs| - 1]), [loc])]
  }

  /** `is_last_writer_in_cur_sub_block`: no promoted writer of h's location in cell (r, s) after old index x. */
  predicate LastWriterInCell(h: LocationHelper, r: nat, s: nat, x: nat)
  {
    NoneInRange(h.promotedWriterIds, TxnFatId(r, s, x + 1), NextShard(TxnFatId(r, s, x)))
  }

  lemma LastWriterInCellMeaning(h: LocationHelper, r: nat, s: nat, x: nat)
    ensures LastWriterInCell(h, r, s, x) <==>
      forall g :: g in h.promotedWriterIds ==> !(g.round == r && g.shard == s && g.oldTxnIdx > x)
  {
  }

  /** The touches of h's location from the first slot of the shard after s, in round r, on. */
  function TouchesAfter(h: LocationHelper, r: nat, s: nat): seq<TxnFatId>
  {
    From(h.promotedTxnIds, CellFloor(r, s + 1))
  }

  /** The touches of h's location the follower loop of a txn of cell (r, s) visits. */
  function LocFollowers(h: LocationHelper, r: nat, s: nat, numRounds: nat, numShards: nat): seq<TxnFatId>
  {
    Followers(TouchesAfter(h, r, s), h.writerSet, EndOfGrid(numRounds, numShards))
  }

  /** Every visited follower is a promoted touch of the location in a cell strictly after (r, s). */
  lemma LocFollowersLater(h: LocationHelper, r: nat, s: nat, numRounds: nat, numShards: nat)
    ensures forall f :: f in LocFollowers(h, r, s, numRounds, numShards) ==>
      f in h.promotedTxnIds && (f.round > r || (f.round == r && f.shard > s))
  {
    forall f | f in LocFollowers(h, r, s, numRounds, numShards)
      ensures f in h.promotedTxnIds && (f.round > r || (f.round == r && f.shard > s))
    {
      assert f in TouchesAfter(h, r, s);
      CompareIsLexicographicTotalOrder(CellFloor(r, s + 1), f, f);
    }
  }

  /** The edges of Targets are exactly one per follower, on location loc. */
  lemma TargetsMembers(fs: seq<TxnFatId>, newIndices: seq<nat>, loc: nat)
    requires forall f :: f in fs ==> f.oldTxnIdx < |newIndices|
    ensures forall e :: e in Targets(fs, newIndices, loc) ==>
      e.locs == [loc] && exists f :: f in fs && f.oldTxnIdx < |newIndices| && e.target == Slot(newIndices, f)
    ensures forall f :: f in fs ==> DependentEdge(Slot(newIndices, f), [loc]) in Targets(fs, newIndices, loc)
  {
    var ts := Targets(fs, newIndices, loc);
    forall e | e in ts
      ensures e.locs == [loc] && exists f :: f in fs && f.oldTxnIdx < |newIndices| && e.target == Slot(newIndices, f)
    {
      var i :| 0 <= i < |ts| && ts[i] == e;
      assert fs[i] in fs;
    }
    forall f | f in fs ensures DependentEdge(Slot(newIndices, f), [loc]) in ts {
      var i :| 0 <= i < |fs| && fs[i] == f;
      assert ts[i] == DependentEdge(Slot(newIndices, f), [loc]);
    }
  }

  /** The dependent edges of txn x of cell (r, s) with write locations writeLocs (the second loop of the edge builder). */
  function DependentFor(helpers: seq<LocationHelper>, newIndices: seq<nat>, numRounds: nat, numShards: nat,
                        r: nat, s: nat, x: nat, writeLocs: seq<nat>): seq<DependentEdge>
    requires PromotedBelow(helpers, |newIndices|)
    requires forall j :: 0 <= j < |writeLocs| ==> writeLocs[j] < |helpers|
  {
    if writeLocs == [] then []
    else
      var rest := DependentFor(helpers, newIndices, numRounds, numShards, r, s, x, writeLocs[..|writeLocs| - 1]);
      var loc := writeLocs[|writeLocs| - 1];
      var h := helpers[loc];
      if LastWriterInCell(h, r, s, x) then
        LocFollowersLater(h, r, s, numRounds, numShards);
        rest + Targets(LocFollowers(h, r, s, numRounds, numShards), newIndices, loc)
      else rest
  }

  /**
   * e is a dependent edge on location loc of txn x of cell (r, s): x is the
   * last promoted writer of loc in its cell, and e targets a follower of loc,
   * which lies in a strictly later cell.
   */
  ghost predicate FollowerEdge(helpers: seq<LocationHelper>, newIndices: seq<nat>, numRounds: nat, numShards: nat,
                               r: nat, s: nat, x: nat, loc: nat, e: DependentEdge)
  {
    loc < |helpers| && LastWriterInCell(helpers[loc], r, s, x) && e.locs == [loc] &&
    (e.target.roundId > r || (e.target.roundId == r && e.target.shardId > s)) &&
    exists f :: f in LocFollowers(helpers[loc], r, s, numRounds, numShards) &&
                f.oldTxnIdx < |newIndices| && e.target == Slot(newIndices, f)
  }

  /**
   * Dependent edges are sound: each is for one write location of the txn of
   * which the txn is the last promoted writer in its cell, and targets a
   * follower of that location in a strictly later cell.
   */
  lemma {:induction false} DependentEdgesSound(helpers: seq<LocationHelper>, newIndices: seq<nat>, numRounds: nat,
                                                numShards: nat, r: nat, s: nat, x: nat, writeLocs: seq<nat>)
    requires PromotedBelow(helpers, |newIndices|)
    requires forall j :: 0 <= j < |writeLocs| ==> writeLocs[j] < |helpers|
    ensures forall e :: e in DependentFor(helpers, newIndices, numRounds, numShards, r, s, x, writeLocs) ==>
      |e.locs| == 1 && e.locs[0] in writeLocs && FollowerEdge(helpers, newIndices, numRounds, numShards, r, s, x, e.locs[0], e)
  {
    if writeLocs != [] {
      var init := writeLocs[..|writeLocs| - 1];
      var loc := writeLocs[|writeLocs| - 1];
      DependentEdgesSound(helpers, newIndices, numRounds, numShards, r, s, x, init);
      assert forall j :: 0 <= j < |init| ==> init[j] == writeLocs[j];
      var rest := DependentFor(helpers, newIndices, numRounds, numShards, r, s, x, init);
      var h := helpers[loc];
      if LastWriterInCell(h, r, s, x) {
        var fs := LocFollowers(h, r, s, numRounds, numShards);
        LocFollowersLater(h, r, s, numRounds, numShards);
        var ts := Targets(fs, newIndices, loc);
        TargetsMembers(fs, newIndices, loc);
        assert DependentFor(helpers, newIndices, numRounds, numShards, r, s, x, writeLocs) == rest + ts;
        forall e | e in ts ensures FollowerEdge(helpers, newIndices, numRounds, numShards, r, s, x, loc, e) {
          var f :| f in fs && f.oldTxnIdx < |newIndices| && e.target == Slot(newIndices, f);
        }
      }
    }
  }

  /** Every follower of location loc has a dependent edge on loc in edges. */
  ghost predicate FollowersCovered(helpers: seq<LocationHelper>, newIndices: seq<nat>, numRounds: nat, numShards: nat,
                                   r: nat, s: nat, loc: nat, edges: seq<DependentEdge>)
    requires loc < |helpers|
  {
    forall f :: f in LocFollowers(helpers[loc], r, s, numRounds, numShards) ==>
      f.oldTxnIdx < |newIndices| && DependentEdge(Slot(newIndices, f), [loc]) in edges
  }

  lemma FollowersCoveredMono(helpers: seq<LocationHelper>, newIndices: seq<nat>, numRounds: nat, numShards: nat,
                             r: nat, s: nat, loc: nat, edges: seq<DependentEdge>, more: seq<DependentEdge>)
    requires loc < |helpers| && FollowersCovered(helpers, newIndices, numRounds, numShards, r, s, loc, edges)
    ensures FollowersCovered(helpers, newIndices, numRounds, numShards, r, s, loc, edges + more)
  {
  }

  /** The edges the follower loop adds for location loc cover its followers. */
  lemma TargetsCover(helpers: seq<LocationHelper>, newIndices: seq<nat>, numRounds: nat, numShards: nat,
                     r: nat, s: nat, loc: nat, rest: seq<DependentEdge>)
    requires loc < |helpers| && PromotedBelow(helpers, |newIndices|)
    ensures forall f :: f in LocFollowers(helpers[loc], r, s, numRounds, numShards) ==> f.oldTxnIdx < |newIndices|
    ensures FollowersCovered(helpers, newIndices, numRounds, numShards, r, s, loc,
                             rest + Targets(LocFollowers(helpers[loc], r, s, numRounds, numShards), newIndices, loc))
  {
    var fs := LocFollowers(helpers[loc], r, s, numRounds, numShards);
    LocFollowersLater(helpers[loc], r, s, numRounds, numShards);
    TargetsMembers(fs, newIndices, loc);
  }

  /** Every location in locs that the txn x last writes in cell (r, s) has all its followers covered by edges. */
  ghost predicate CoveredUpTo(helpers: seq<LocationHelper>, newIndices: seq<nat>, numRounds: nat, numShards: nat,
                              r: nat, s: nat, x: nat, locs: seq<nat>, edges: seq<DependentEdge>)
    requires forall j :: 0 <= j < |locs| ==> locs[j] < |helpers|
  {
    forall j :: 0 <= j < |locs| && LastWriterInCell(helpers[locs[j]], r, s, x) ==>
      FollowersCovered(helpers, newIndices, numRounds, numShards, r, s, locs[j], edges)
  }

  lemma CoveredUpToMono(helpers: seq<LocationHelper>, newIndices: seq<nat>, numRounds: nat, numShards: nat,
                        r: nat, s: nat, x: nat, locs: seq<nat>, edges: seq<DependentEdge>, more: seq<DependentEdge>)
    requires forall j :: 0 <= j < |locs| ==> locs[j] < |helpers|
    requires CoveredUpTo(helpers, newIndices, numRounds, numShards, r, s, x, locs, edges)
    ensures CoveredUpTo(helpers, newIndices, numRounds, numShards, r, s, x, locs, edges + more)
  {
    forall j | 0 <= j < |locs| && LastWriterInCell(helpers[locs[j]], r, s, x)
      ensures FollowersCovered(helpers, newIndices, numRounds, numShards, r, s, locs[j], edges + more)
    {
      FollowersCoveredMono(helpers, newIndices, numRounds, numShards, r, s, locs[j], edges, more);
    }
  }

  lemma CoveredUpToExtend(helpers: seq<LocationHelper>, newIndices: seq<nat>, numRounds: nat, numShards: nat,
                          r: nat, s: nat, x: nat, locs: seq<nat>, loc: nat, edges: seq<DependentEdge>)
    requires forall j :: 0 <= j < |locs| ==> locs[j] < |helpers|
    requires loc < |helpers|
    requires CoveredUpTo(helpers, newIndices, numRounds, numShards, r, s, x, locs, edges)
    requires LastWriterInCell(helpers[loc], r, s, x) ==> FollowersCovered(helpers, newIndices, numRounds, numShards, r, s, loc, edges)
    ensures CoveredUpTo(helpers, newIndices, numRounds, numShards, r, s, x, locs + [loc], edges)
  {
    var ls := locs + [loc];
    forall j | 0 <= j < |ls| && LastWriterInCell(helpers[ls[j]], r, s, x)
      ensures FollowersCovered(helpers, newIndices, numRounds, numShards, r, s, ls[j], edges)
    {
      if j < |locs| {
        assert ls[j] == locs[j];
      }
    }
  }

  /** Dependent edges are complete: every follower of a location the txn last writes in its cell gets one. */
  lemma {:induction false} DependentEdgesComplete(helpers: seq<LocationHelper>, newIndices: seq<nat>, numRounds: nat,
                                                   numShards: nat, r: nat, s: nat, x: nat, writeLocs: seq<nat>)
    requires PromotedBelow(helpers, |newIndices|)
    requires forall j :: 0 <= j < |writeLocs| ==> writeLocs[j] < |helpers|
    ensures CoveredUpTo(helpers, newIndices, numRounds, numShards, r, s, x, writeLocs,
                        DependentFor(helpers, newIndices, numRounds, numShards, r, s, x, writeLocs))
  {
    if writeLocs != [] {
      var init := writeLocs[..|writeLocs| - 1];
      var loc := writeLocs[|writeLocs| - 1];
      DependentEdgesComplete(helpers, newIndices, numRounds, numShards, r, s, x, init);
      var rest := DependentFor(helpers, newIndices, numRounds, numShards, r, s, x, init);
      var more := if LastWriterInCell(helpers[loc], r, s, x) then
        LocFollowersLater(helpers[loc], r, s, numRounds, numShards);
        Targets(LocFollowers(helpers[loc], r, s, numRounds, numShards), newIndices, loc)
      else [];
      assert DependentFor(helpers, newIndices, numRounds, numShards, r, s, x, writeLocs) == rest + more;
      CoveredUpToMono(helpers, newIndices, numRounds, numShards, r, s, x, init, rest, more);
      if LastWriterInCell(helpers[loc], r, s, x) {
        TargetsCover(helpers, newIndices, numRounds, numShards, r, s, loc, rest);
      }
      CoveredUpToExtend(helpers, newIndices, numRounds, numShards, r, s, x, init, loc, rest + more);
      assert init + [loc] == writeLocs;
    }
  }

  /** The required edges of a txn of cell (r, s) touching locs: for each, the latest promoted writer before the cell. */
  method RequiredDeps(helpers: seq<LocationHelper>, newIndices: seq<nat>, r: nat, s: nat, locs: seq<nat>)
    returns (edges: seq<RequiredEdge>)
    requires AllValid(helpers) && PromotedBelow(helpers, |newIndices|)
    requires forall j :: 0 <= j < |locs| ==> locs[j] < |helpers|
    ensures edges == RequiredFor(helpers, newIndices, r, s, locs)
  {
    edges := [];
    for j := 0 to |locs|
      invariant edges == RequiredFor(helpers, newIndices, r, s, locs[..j])
    {
      var loc := locs[j];
      assert locs[..j + 1][..j] == locs[..j];
      var writers := helpers[loc].promotedWriterIds;
      match LastBelow(writers, CellFloor(r, s)) {
        case None =>
        case Some(f) =>
          assert helpers[loc].Valid();
          edges := edges + [RequiredEdge(Slot(newIndices, f), loc)];
      }
    }
    assert locs[..|locs|] == locs;
  }

  lemma FollowersUnfold(L: seq<TxnFatId>, ws: set<nat>, endId: TxnFatId, i: nat)
    requires i < |L| && !Lt(endId, L[i])
    ensures Followers(L[i..], ws, endId)
         == [L[i]] + Followers(L[i + 1..], ws, if L[i].oldTxnIdx in ws then NextShard(L[i]) else endId)
  {
    assert L[i..][1..] == L[i + 1..];
  }

  lemma TargetsAppend(fs: seq<TxnFatId>, f: TxnFatId, newIndices: seq<nat>, loc: nat)
    requires forall g :: g in fs ==> g.oldTxnIdx < |newIndices|
    requires f.oldTxnIdx < |newIndices|
    ensures Targets(fs + [f], newIndices, loc) == Targets(fs, newIndices, loc) + [DependentEdge(Slot(newIndices, f), [loc])]
  {
    assert (fs + [f])[..|fs|] == fs;
  }

  /** One visit of the follower loop keeps its invariant. */
  lemma VisitStep(L: seq<TxnFatId>, ws: set<nat>, endId: TxnFatId, i: nat, all: seq<TxnFatId>,
                  edges: seq<DependentEdge>, newIndices: seq<nat>, loc: nat)
    requires forall f :: f in L ==> f.oldTxnIdx < |newIndices|
    requires i < |L| && !Lt(endId, L[i])
    requires all == L[..i] + Followers(L[i..], ws, endId)
    requires edges == Targets(L[..i], newIndices, loc)
    ensures all == L[..i + 1] + Followers(L[i + 1..], ws, if L[i].oldTxnIdx in ws then NextShard(L[i]) else endId)
    ensures edges + [DependentEdge(Slot(newIndices, L[i]), [loc])] == Targets(L[..i + 1], newIndices, loc)
  {
    var later := Followers(L[i + 1..], ws, if L[i].oldTxnIdx in ws then NextShard(L[i]) else endId);
    FollowersUnfold(L, ws, endId, i);
    assert L[..i + 1] == L[..i] + [L[i]];
    assert L[..i] + ([L[i]] + later) == L[..i + 1] + later;
    TargetsAppend(L[..i], L[i], newIndices, loc);
  }

  /** The loop over the touches L with early exit, from bound endId0. */
  method VisitFollowers(L: seq<TxnFatId>, ws: set<nat>, endId0: TxnFatId, newIndices: seq<nat>, loc: nat)
    returns (edges: seq<DependentEdge>)
    requires forall f :: f in L ==> f.oldTxnIdx < |newIndices|
    ensures edges == Targets(Followers(L, ws, endId0), newIndices, loc)
  {
    ghost var all := Followers(L, ws, endId0);
    var endId := endId0;
    edges := [];
    var i := 0;
    while i < |L|
      invariant i <= |L|
      invariant all == L[..i] + Followers(L[i..], ws, endId)
      invariant edges == Targets(L[..i], newIndices, loc)
    {
      var f := L[i];
      if Lt(endId, f) {
        break;
      }
      VisitStep(L, ws, endId, i, all, edges, newIndices, loc);
      edges := edges + [DependentEdge(Slot(newIndices, f), [loc])];
      if f.oldTxnIdx in ws {
        endId := NextShard(f);
      }
      i := i + 1;
    }
    assert all == L[..i];
  }

  /**
   * The follower loop of one write location: from the first slot of the next
   * shard on, add a dependent edge to each touch until one is strictly greater
   * than end_id; a candidate writer moves end_id to the start of the shard
   * after its own.
   */
  method FollowerEdges(h: LocationHelper, newIndices: seq<nat>, numRounds: nat, numShards: nat, r: nat, s: nat, loc: nat)
    returns (edges: seq<DependentEdge>)
    requires forall f :: f in h.promotedTxnIds ==> f.oldTxnIdx < |newIndices|
    ensures forall f :: f in LocFollowers(h, r, s, numRounds, numShards) ==> f.oldTxnIdx < |newIndices|
    ensures edges == Targets(LocFollowers(h, r, s, numRounds, numShards), newIndices, loc)
  {
    var followers := TouchesAfter(h, r, s);
    edges := VisitFollowers(followers, h.writerSet, EndOfGrid(numRounds, numShards), newIndices, loc);
  }

  /** The dependent edges of txn x of cell (r, s): the follower loop of every write location x is the last writer of in its cell. */
  method DependentDeps(helpers: seq<LocationHelper>, newIndices: seq<nat>, numRounds: nat, numShards: nat,
                       r: nat, s: nat, x: nat, writeLocs: seq<nat>)
    returns (edges: seq<DependentEdge>)
    requires PromotedBelow(helpers, |newIndices|)
    requires forall j :: 0 <= j < |writeLocs| ==> writeLocs[j] < |helpers|
    ensures edges == DependentFor(helpers, newIndices, numRounds, numShards, r, s, x, writeLocs)
  {
    edges := [];
    for j := 0 to |writeLocs|
      invariant edges == DependentFor(helpers, newIndices, numRounds, numShards, r, s, x, writeLocs[..j])
    {
      var loc := writeLocs[j];
      assert writeLocs[..j + 1][..j] == writeLocs[..j];
      var h := helpers[loc];
      if LastWriterInCell(h, r, s, x) {
        var fs := FollowerEdges(h, newIndices, numRounds, numShards, r, s, loc);
        edges := edges + fs;
      }
    }
    assert writeLocs[..|writeLocs|] == writeLocs;
  }

  /** The dependencies of txn x of cell (r, s). */
  function DepsOf(session: seq<SessionTxn>, helpers: seq<LocationHelper>, newIndices: seq<nat>, numRounds: nat, numShards: nat,
                  r: nat, s: nat, x: nat): CrossShardDeps
    requires x < |session| && SessionFits(session, |helpers|)
    requires AllValid(helpers) && PromotedBelow(helpers, |newIndices|)
  {
    var txn := session[x];
    assert forall j :: 0 <= j < |txn.writeIds| ==> txn.writeIds[j] == Locs(txn)[j];
    CrossShardDeps(RequiredFor(helpers, newIndices, r, s, Locs(txn)),
                   DependentFor(helpers, newIndices, numRounds, numShards, r, s, x, txn.writeIds))
  }


  /** The dependencies of one txn of cell (r, s), built by the two loops of the edge builder. */
  method TxnDeps(session: seq<SessionTxn>, helpers: seq<LocationHelper>, newIndices: seq<nat>, numRounds: nat, numShards: nat,
                 r: nat, s: nat, x: nat) returns (deps: CrossShardDeps)
    requires x < |session| && SessionFits(session, |helpers|)
    requires AllValid(helpers) && PromotedBelow(helpers, |newIndices|)
    ensures deps == DepsOf(session, helpers, newIndices, numRounds, numShards, r, s, x)
  {
    var txn := session[x];
    assert forall j :: 0 <= j < |txn.writeIds| ==> txn.writeIds[j] == Locs(txn)[j];
    var required := RequiredDeps(helpers, newIndices, r, s, Locs(txn));
    var dependent := DependentDeps(helpers, newIndices, numRounds, numShards, r, s, x, txn.writeIds);
    deps := CrossShardDeps(required, dependent);
  }

  /** The txns of a cell, each with its dependencies, in cell order. */
  function CellTxns(session: seq<SessionTxn>, helpers: seq<LocationHelper>, newIndices: seq<nat>, numRounds: nat, numShards: nat,
                    r: nat, s: nat, cell: seq<nat>): (r': seq<TxnWithDeps>)
    requires forall p :: 0 <= p < |cell| ==> cell[p] < |session|
    requires SessionFits(session, |helpers|) && AllValid(helpers) && PromotedBelow(helpers, |newIndices|)
    ensures |r'| == |cell|
    ensures forall p :: 0 <= p < |cell| ==> r'[p].txn == session[cell[p]]
  {
    seq(|cell|, p requires 0 <= p < |cell| =>
      TxnWithDeps(session[cell[p]], DepsOf(session, helpers, newIndices, numRounds, numShards, r, s, cell[p])))
  }

  /** The sub-block of cell (r, s): its start index and its txns with their dependencies. */
  method BuildSubBlock(session: seq<SessionTxn>, helpers: seq<LocationHelper>, newIndices: seq<nat>, numRounds: nat,
                       numShards: nat, r: nat, s: nat, cell: seq<nat>, startIndex: nat) returns (sb: SubBlock)
    requires forall p :: 0 <= p < |cell| ==> cell[p] < |session|
    requires SessionFits(session, |helpers|) && AllValid(helpers) && PromotedBelow(helpers, |newIndices|)
    ensures sb == SubBlock(startIndex, CellTxns(session, helpers, newIndices, numRounds, numShards, r, s, cell))
  {
    var twds: seq<TxnWithDeps> := [];
    for p := 0 to |cell|
      invariant twds == CellTxns(session, helpers, newIndices, numRounds, numShards, r, s, cell)[..p]
    {
      var deps := TxnDeps(session, helpers, newIndices, numRounds, numShards, r, s, cell[p]);
      twds := twds + [TxnWithDeps(session[cell[p]], deps)];
    }
    sb := SubBlock(startIndex, twds);
  }

  /** The new index of every txn of the block, as a sequence. */
  function NewIndices(grid: seq<seq<seq<nat>>>, n: nat): (r: seq<nat>)
    ensures |r| == n && forall x :: 0 <= x < n ==> r[x] == NewIndex(grid, x)
  {
    seq(n, x requires 0 <= x => NewIndex(grid, x))
  }

  /** The sub-block `add_edges` builds for cell (r, s) of the grid. */
  function CellSubBlock(session: seq<SessionTxn>, grid: seq<seq<seq<nat>>>, helpers: seq<LocationHelper>, r: nat, s: nat): SubBlock
    requires |grid| >= 1 && Rectangular(grid, |grid[0]|) && GridIdsBelow(grid, |session|)
    requires SessionFits(session, |helpers|) && AllValid(helpers) && PromotedBelow(helpers, |session|)
    requires r < |grid| && s < |grid[0]|
  {
    SubBlock(CellStart(grid, r, s),
             CellTxns(session, helpers, NewIndices(grid, |session|), |grid|, |grid[0]|, r, s, grid[r][s]))
  }

  /** Round r of the sub-block matrix holds the sub-blocks of its cells. */
  ghost predicate MatrixRow(session: seq<SessionTxn>, grid: seq<seq<seq<nat>>>, helpers: seq<LocationHelper>, r: nat, row: seq<SubBlock>)
    requires |grid| >= 1 && Rectangular(grid, |grid[0]|) && GridIdsBelow(grid, |session|)
    requires SessionFits(session, |helpers|) && AllValid(helpers) && PromotedBelow(helpers, |session|)
    requires r < |grid|
  {
    |row| == |grid[0]| && forall s :: 0 <= s < |row| ==> row[s] == CellSubBlock(session, grid, helpers, r, s)
  }

  /**
   * `add_edges`: re-index the grid, build the sub-block of every cell, and
   * transpose the rounds-by-shards matrix into one list of sub-blocks per
   * shard, round by round.
   */
  method AddEdges(session: seq<SessionTxn>, grid: seq<seq<seq<nat>>>, helpers: seq<LocationHelper>)
    returns (ret: seq<SubBlocksForShard>)
    requires |grid| >= 1 && Rectangular(grid, |grid[0]|) && GridIdsBelow(grid, |session|)
    requires SessionFits(session, |helpers|) && AllValid(helpers) && PromotedBelow(helpers, |session|)
    ensures |ret| == |grid[0]|
    ensures forall s :: 0 <= s < |ret| ==> ret[s].shardId == s && |ret[s].subBlocks| == |grid|
    ensures forall s, r :: 0 <= s < |ret| && 0 <= r < |grid| ==> ret[s].subBlocks[r] == CellSubBlock(session, grid, helpers, r, s)
  {
    var numRounds, numShards := |grid|, |grid[0]|;
    var newIndexArray, startIndex := ReIndex(grid, |session|);
    var newIndices := newIndexArray[..];
    assert newIndices == NewIndices(grid, |session|);
    var matrix: seq<seq<SubBlock>> := [];
    for r := 0 to numRounds
      invariant |matrix| == r && forall t :: 0 <= t < r ==> MatrixRow(session, grid, helpers, t, matrix[t])
    {
      var row: seq<SubBlock> := [];
      for s := 0 to numShards
        invariant |row| == s && forall q :: 0 <= q < s ==> row[q] == CellSubBlock(session, grid, helpers, r, q)
      {
        var sb := BuildSubBlock(session, helpers, newIndices, numRounds, numShards, r, s, grid[r][s], startIndex[r][s]);
        row := row + [sb];
      }
      matrix := matrix + [row];
    }
    ret := [];
    for s := 0 to numShards
      invariant |ret| == s
      invariant forall q :: 0 <= q < s ==> ret[q].shardId == q && |ret[q].subBlocks| == numRounds
      invariant forall q, r :: 0 <= q < s && 0 <= r < numRounds ==> ret[q].subBlocks[r] == CellSubBlock(session, grid, helpers, r, q)
    {
      var subBlocks: seq<SubBlock> := [];
      for r := 0 to numRounds
        invariant |subBlocks| == r && forall t :: 0 <= t < r ==> subBlocks[t] == CellSubBlock(session, grid, helpers, t, s)
      {
        assert MatrixRow(session, grid, helpers, r, matrix[r]);
        subBlocks := subBlocks + [matrix[r][s]];
      }
      ret := ret + [SubBlocksForShard(s, subBlocks)];
    }
  }
}
