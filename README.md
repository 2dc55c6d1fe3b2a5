# Omega block partitioner, modelled in Dafny

This project models the omega block partitioner of `execution/block-partitioner/src/omega_partitioner/mod.rs`. The partitioner takes a block of transactions, each with a sender and write and read storage locations, and places every transaction in a (round, shard) cell. It then builds the cross-shard ordering edges between cells. The model follows the code stage by stage and runs each parallel pass sequentially.

- **FatIds** (`fat_ids.dfy`): the slot id `TxnFatId` (round, shard, original index) and its lexicographic order. It also has the ordered-set operations the partitioner applies to `BTreeSet<TxnFatId>`, over a strictly increasing sequence: insert, the last element below a bound, and the elements from a bound on.
- **Locations** (`locations.dfy`): the per-location tracker (`StorageLocationHelper`). It holds the fields the partitioner uses: the anchor shard, the candidate writers and readers, and the promoted writer and promoted touch sets. `LocationTable` is a class holding the table of trackers, indexed by dense location id. The rounds update it in place.
- **Registry** (`registry.dfy`): the preprocessing loop of `partition`. In first-seen order it gives a dense id to each distinct sender and each distinct key. It annotates each transaction with its sender id and its location ids. Each key gets a tracker with its anchor shard and its candidate writers and readers.
- **Uniform** (`uniform.dfy`): `uniform_partition` and the table of per-shard start indices.
- **Sorting** (`sorting.dfy`): `extract_and_sort`, an in-place insertion sort of each row.
- **Rounds** (`rounds.dfy`): the two passes of `discarding_round` and the catch-all round.
  - Pass 1 discards a candidate when one of its locations has a write in the range between that location's anchor shard and the candidate's own shard. It also records each sender's least discarded id.
  - Pass 2 accepts a candidate only when its id is below that least id. It promotes each accepted candidate in the tracker of every location it touches.
- **Edges** (`edges.dfy`): `add_edges`.
  - The dense round-major, shard-minor re-index, computed into an array.
  - Required edges: from the latest promoted writer before the cell.
  - Dependent edges: the follower loop with its moving `end_id` and early break.
  - The transposition into one list of sub-blocks per shard.
- **Partitioner** (`partitioner.dfy`): the orchestration in `partition`.
  - Registration.
  - The uniform split.
  - One discarding round.
  - The catch-all round, which puts every discard in the last shard of round 1 and promotes it there.
  - Edge building over the two-round grid.

- **Dependent edges run to the end of the first later writer's shard.** The code sets `end_id` to (round, shard + 1, 0) of that writer (lines 117-118). `Edges.FollowersStopAfterWriterShard` proves that every follower after that writer lies in the writer's shard.
- **The break test is strict.** The loop breaks on `follower > end_id` (line 108), so a follower exactly at `end_id` = (r, s + 1, 0) would still get an edge. That can only happen to txn 0 placed in shard s + 1 of round r. `Partitioner.PartitionGridNoShardStarts` proves this never happens in the grids that `partition` builds: txn 0 is either in shard 0 of round 0 or in the last shard of round 1, and that is the only non-empty shard of round 1. So the strict test is harmless.

The model's state lives in one place. The trackers are a `LocationTable` object whose methods change its `helpers` field. The re-index writes into an `array`. The loops of `uniform_partition`, of the start-index table, of both passes of a discarding round, of the catch-all round and of `add_edges` are `while`/`for` loops with invariants. Each of these methods is proved against a specification function, and the properties the code relies on are proved as lemmas about those functions.

## Model

| member | source | states |
|---|---|---|
| FatIds.CompareIsLexicographicTotalOrder | execution/block-partitioner/src/omega_partitioner/mod.rs:363-374 | The order on slot ids is lexicographic on (round, shard, original index). `<` is transitive and total, the comparison is Equal exactly on equal ids, swapping the arguments swaps Less and Greater, and `<=` is `<` or equal. |
| FatIds.InOwnCell | execution/block-partitioner/src/omega_partitioner/mod.rs:104 | A slot lies in its own cell's range, from (round, shard, 0) inclusive to (round, shard + 1, 0) exclusive. |
| FatIds.Insert | execution/block-partitioner/src/omega_partitioner/mod.rs:194 | Inserting a slot into an ordered set adds exactly that slot and keeps the set ordered. The set grows by one exactly when the slot was absent. |
| FatIds.LastBelow | execution/block-partitioner/src/omega_partitioner/mod.rs:91 | `range(..bound).last()`: it returns None exactly when no element is below the bound. Otherwise it returns an element below the bound, and on an ordered set no element below the bound is greater. |
| FatIds.From | execution/block-partitioner/src/omega_partitioner/mod.rs:107 | `range(lo..)`: exactly the elements at or above lo, still ordered. |
| Locations.NewHelper | execution/block-partitioner/src/omega_partitioner/mod.rs:239-241 | A new tracker has the given anchor shard, no candidates and no promoted slots. |
| Locations.AddCandidate | execution/block-partitioner/src/omega_partitioner/mod.rs:242 | Adding a candidate adds the txn to the writer set when it writes and to the reader set otherwise. Nothing else changes and validity is kept. |
| Locations.PromoteTxn | execution/block-partitioner/src/omega_partitioner/mod.rs:194 | Promotion adds the slot to the promoted touches. It adds the slot to the promoted writers exactly when the txn is a candidate writer. Validity is kept. |
| Locations.PromotedWithTrans | execution/block-partitioner/src/omega_partitioner/mod.rs:264-288 | Promotions compose: promoting slots x and then slots y is promoting x + y. This is how round 0 and the catch-all round combine. |
| Locations.LocationTable.constructor | execution/block-partitioner/src/omega_partitioner/mod.rs:219 | The table holds the registered trackers. |
| Locations.LocationTable.Promote | execution/block-partitioner/src/omega_partitioner/mod.rs:194 | Only the tracker of one location changes, and it is promoted by one slot. |
| Locations.LocationTable.PromoteAt | execution/block-partitioner/src/omega_partitioner/mod.rs:192-195 | Each location the txn touches gains its slot. Every other tracker gains nothing. |
| Registry.Register | execution/block-partitioner/src/omega_partitioner/mod.rs:220-245 | Senders and keys get dense, injective ids, and the id maps hold exactly the senders and keys that occur in the block. Transaction t gets id t, its sender's id and its location ids, writes first, in hint order; every location id names a tracker. Each key's tracker has the key's anchor shard, exactly the transactions that write or read the key as candidates, and no promoted slots. |
| Registry.RegisterTxn | execution/block-partitioner/src/omega_partitioner/mod.rs:224-244 | One transaction's registration carries the registration state from the first t transactions to the first t + 1. |
| Registry.RegisterHints | execution/block-partitioner/src/omega_partitioner/mod.rs:232-244 | Registering one transaction's hints creates ids only for new keys and keeps existing ids. It returns the id of every hint in order. It updates the trackers to cover transaction t. |
| Registry.HintsOccur | execution/block-partitioner/src/omega_partitioner/mod.rs:232-238 | In the chained hint list, positions below the number of writes are the write hints and the rest are the read hints (`is_write = i < num_writes`). |
| Registry.NumberedDense | execution/block-partitioner/src/omega_partitioner/mod.rs:226-236 | Numbering by a counter that starts at 0 gives injective ids that cover 0..n-1. |
| Registry.AnnotatedFits | execution/block-partitioner/src/omega_partitioner/mod.rs:237 | With dense key ids, every annotated location id names a tracker. |
| Uniform.UniformPartition | execution/block-partitioner/src/omega_partitioner/mod.rs:315-328 | The split has exactly k chunks. Chunk i is the contiguous range from ChunkStart(i), of size n/k + 1 for i < n % k and n/k otherwise. Every prefix of chunks concatenates to `0..ChunkStart(i)`, and all of them to `0..n` in order. |
| Uniform.ChunkStartClosedForm | execution/block-partitioner/src/omega_partitioner/mod.rs:319-324 | Chunk i starts at i * (n / k) + min(i, n % k). |
| Uniform.ChunkSizesNearlyEqual | execution/block-partitioner/src/omega_partitioner/mod.rs:316-322 | Chunk sizes differ by at most one, and larger chunks come first. |
| Uniform.UniformPartitionExamples | execution/block-partitioner/src/omega_partitioner/mod.rs:330-339 | (18, 5) gives sizes [4,4,4,3,3] and (18, 3) gives [6,6,6]. Both cover 0..18. |
| Uniform.StartTxnIds | execution/block-partitioner/src/omega_partitioner/mod.rs:252-257 | Entry s of the start table is the total size of chunks 0..s-1. |
| Uniform.StartOfUniformChunk | execution/block-partitioner/src/omega_partitioner/mod.rs:252-257 | On the uniform split, entry s is the chunk's start, which is its first id when the chunk is non-empty. |
| Uniform.EarlierChunkSmallerIds | execution/block-partitioner/src/omega_partitioner/mod.rs:320-325 | Ids of an earlier chunk are smaller than ids of a later one. |
| Sorting.SortInPlace | execution/block-partitioner/src/omega_partitioner/mod.rs:346 | `y.sort()`: after the call the array is sorted and a permutation of its old contents. |
| Sorting.SortedPermutationsEqual | execution/block-partitioner/src/omega_partitioner/mod.rs:346 | Two sorted permutations of the same contents are equal, so the sorted row is determined by the row's contents. |
| Sorting.ExtractAndSort | execution/block-partitioner/src/omega_partitioner/mod.rs:342-349 | Each row comes out sorted and holds the same ids as it went in. |
| Rounds.AnyConflict | execution/block-partitioner/src/omega_partitioner/mod.rs:169-175 | The pass-1 test holds exactly when some touched location has a write in the range from its anchor shard's start to the candidate shard's start. |
| Rounds.DiscardKeepsPassState | execution/block-partitioner/src/omega_partitioner/mod.rs:176-179 | Discarding a conflicting candidate and lowering its sender's minimum with `fetch_min` keeps the pass-1 invariant. The invariant says the discards are exactly the conflicting candidates, the pending ones exactly the others, and each sender's minimum is the least conflicting id of that sender. |
| Rounds.ConflictStep | execution/block-partitioner/src/omega_partitioner/mod.rs:168-182 | One candidate of pass 1 extends the pass-1 invariant by that candidate. |
| Rounds.ConflictPass | execution/block-partitioner/src/omega_partitioner/mod.rs:167-183 | Pass 1 over one shard's candidates establishes the pass-1 invariant for all of them. |
| Rounds.ConflictPhase | execution/block-partitioner/src/omega_partitioner/mod.rs:166-184 | Pass 1 over every shard, sharing one per-sender minimum map, establishes the invariant for every shard. |
| Rounds.AcceptPass | execution/block-partitioner/src/omega_partitioner/mod.rs:187-200 | Pass 2 over one shard splits the pending candidates into accepted (id below its sender's minimum) and rejected (the rest). The trackers gain exactly the accepted slots of that cell, per location. |
| Rounds.AcceptPhase | execution/block-partitioner/src/omega_partitioner/mod.rs:186-201 | Pass 2 over every shard. The trackers gain exactly the accepted slots of the round. |
| Rounds.OutcomeOfPhases | execution/block-partitioner/src/omega_partitioner/mod.rs:204 | After both passes and the sort, the round has the outcome the round predicate describes. |
| Rounds.DiscardingRound | execution/block-partitioner/src/omega_partitioner/mod.rs:142-205 | Per shard, the accepted and discarded lists are sorted and together hold the shard's input exactly once. Accepted candidates do not conflict and are below their sender's minimum. The minimum is usize::MAX or the least conflicting id of that sender. The trackers gain exactly the accepted slots. |
| Rounds.RoundMembership | execution/block-partitioner/src/omega_partitioner/mod.rs:176-199 | A candidate is accepted if and only if it does not conflict and its id is below its sender's minimum. It is discarded if and only if the opposite holds. |
| Rounds.RoundOutcomeUnique | execution/block-partitioner/src/omega_partitioner/mod.rs:165-204 | The round's result is determined by its inputs. Any two results of the parallel passes give the same minima and the same accepted and discarded lists. |
| Rounds.AcceptedBeforeDiscarded | execution/block-partitioner/src/omega_partitioner/mod.rs:186-199 | A txn accepted in any shard precedes, by id, every discarded txn of the same sender in any shard. |
| Rounds.CatchAll | execution/block-partitioner/src/omega_partitioner/mod.rs:276-288 | The catch-all row has numShards cells. All are empty except the last, which is the discards flattened in shard order. Every tracker gains exactly the slots (1, numShards - 1, id) of those discards that touch it. |
| Edges.IndexCell | execution/block-partitioner/src/omega_partitioner/mod.rs:60-63 | Indexing one cell extends the re-index to the listing so far followed by the cell. |
| Edges.IndexRound | execution/block-partitioner/src/omega_partitioner/mod.rs:58-66 | Indexing one round extends the re-index by the round's flattened cells. The counter advances by the round's size. Each cell's start is the counter plus the sizes of the earlier cells. |
| Edges.ReIndex | execution/block-partitioner/src/omega_partitioner/mod.rs:53-67 | `new_indices[x]` is the position of x's last occurrence in the round-major, shard-minor listing of the grid. `start_index_matrix[r][s]` is the number of ids before cell (r, s). |
| Edges.NewIndexOfCell | execution/block-partitioner/src/omega_partitioner/mod.rs:53-67 | On a partition grid, the new index of grid[r][s][p] is the start of cell (r, s) plus p. |
| Edges.ReIndexIsPermutation | execution/block-partitioner/src/omega_partitioner/mod.rs:53-67 | On a partition grid the re-index is a bijection of 0..n-1, and its inverse is the flattened grid. |
| Edges.RequiredEdgesMeaning | execution/block-partitioner/src/omega_partitioner/mod.rs:87-98 | Every required edge is on a location the txn touches. Its source is that location's latest promoted writer before (r, s, 0), at a strictly earlier cell. Every touched location that has a promoted writer before the cell gets a required edge. |
| Edges.RequiredDeps | execution/block-partitioner/src/omega_partitioner/mod.rs:87-98 | The required-edge loop computes exactly the required edges above. |
| Edges.LastWriterInCellMeaning | execution/block-partitioner/src/omega_partitioner/mod.rs:104 | The last-writer test holds exactly when no promoted writer of the location is later in the same cell. |
| Edges.LocFollowersLater | execution/block-partitioner/src/omega_partitioner/mod.rs:106-107 | Every follower visited is a promoted touch of the location in a strictly later cell. |
| Edges.FollowersStayInShard | execution/block-partitioner/src/omega_partitioner/mod.rs:107-120 | Once end_id is the start of the shard after a writer w, and no later touch sits exactly at that start, each follower still visited is in w's cell. |
| Edges.FollowersStopAfterWriterShard | execution/block-partitioner/src/omega_partitioner/mod.rs:107-120 | Every follower visited after a writer follower lies in that writer's round and shard. |
| Edges.FollowersComplete | execution/block-partitioner/src/omega_partitioner/mod.rs:107-120 | The walk stops early only at a touch beyond the grid end or beyond the shard of an earlier visited writer. |
| Edges.TargetsMembers | execution/block-partitioner/src/omega_partitioner/mod.rs:111-116 | The edges built from a follower list are exactly one edge per follower, on [loc], to the follower's new slot. |
| Edges.DependentEdgesSound | execution/block-partitioner/src/omega_partitioner/mod.rs:100-122 | Every dependent edge is on one write location of the txn. The txn is that location's last writer in the cell, and the edge targets a follower in a strictly later cell. |
| Edges.DependentEdgesComplete | execution/block-partitioner/src/omega_partitioner/mod.rs:100-122 | For every write location where the txn is the last writer in its cell, every follower of that location gets a dependent edge. |
| Edges.VisitFollowers | execution/block-partitioner/src/omega_partitioner/mod.rs:107-120 | The follower loop with its moving end_id and break emits exactly one edge per follower, in order. |
| Edges.FollowerEdges | execution/block-partitioner/src/omega_partitioner/mod.rs:103-121 | For one write location, the loop emits exactly the edges to that location's followers. |
| Edges.DependentDeps | execution/block-partitioner/src/omega_partitioner/mod.rs:100-122 | The dependent-edge loop over the write hints computes exactly the dependent edges above. |
| Edges.TxnDeps | execution/block-partitioner/src/omega_partitioner/mod.rs:86-122 | A txn's dependencies are its required edges over write and read locations and its dependent edges over write locations. |
| Edges.CellTxns | execution/block-partitioner/src/omega_partitioner/mod.rs:83-125 | A cell's sub-block lists one entry per id of the cell, in order, each carrying that id's transaction. |
| Edges.BuildSubBlock | execution/block-partitioner/src/omega_partitioner/mod.rs:81-126 | A cell's sub-block starts at the cell's start index and holds its txns with their dependencies. |
| Edges.AddEdges | execution/block-partitioner/src/omega_partitioner/mod.rs:43-140 | The result has one entry per shard, with the shard's id and one sub-block per round. Entry s, round r, is the sub-block of cell (r, s). |
| Partitioner.InitialSplit | execution/block-partitioner/src/omega_partitioner/mod.rs:251-257 | The initial split is the uniform split of 0..n-1, and the start table is the chunk starts. |
| Partitioner.TxnZeroInFirstChunk | execution/block-partitioner/src/omega_partitioner/mod.rs:315-328 | Only the first chunk of the uniform split can hold txn 0. |
| Partitioner.RegisteredAnchors | execution/block-partitioner/src/omega_partitioner/mod.rs:239-241 | With the anchor function into [0, numShards), every registered tracker's anchor shard is in range. |
| Partitioner.GridIsPartition | execution/block-partitioner/src/omega_partitioner/mod.rs:260-288 | When round 0 splits its input into accepted and discarded rows, the grid of the accepted row and the catch-all row holds every id of 0..n-1 exactly once. |
| Partitioner.GridOfRounds | execution/block-partitioner/src/omega_partitioner/mod.rs:260-288 | The two-row grid has numShards cells per row, holds only ids of the block, and is a partition of 0..n-1. |
| Partitioner.GridSlotShape | execution/block-partitioner/src/omega_partitioner/mod.rs:260-288 | Every slot of the grid is in round 0, where txn 0 can only be in shard 0, or in the last shard of round 1. |
| Partitioner.PartitionGridNoShardStarts | execution/block-partitioner/src/omega_partitioner/mod.rs:106-108 | In the grid `partition` builds, no promoted touch sits exactly at the start of the next shard's range, so the strict break test has no visible effect. |
| Partitioner.RoundIdsFromChunks | execution/block-partitioner/src/omega_partitioner/mod.rs:264 | Round 0's accepted and discarded ids in shard s are ids of chunk s, below n. |
| Partitioner.MultiRounds | execution/block-partitioner/src/omega_partitioner/mod.rs:259-291 | The rounds leave a partition grid of 2 rows. Row 0 is the discarding round's outcome on the uniform split, and row 1 is the catch-all row. The trackers gain exactly the grid's slots, per location. |
| Partitioner.SenderOrderAcrossRounds | execution/block-partitioner/src/omega_partitioner/mod.rs:264-288 | A txn accepted in round 0 precedes, by id, every same-sender txn in the catch-all cell. |
| Partitioner.SenderOrderOfSlots | execution/block-partitioner/src/omega_partitioner/mod.rs:260-288 | Of two distinct same-sender txns in the grid, the one with the smaller original index is exactly the one with the smaller slot id. |
| Partitioner.PromotedFromGrid | execution/block-partitioner/src/omega_partitioner/mod.rs:192-195 | Promotion that starts from registered trackers leaves only grid slots in the promoted sets, all of block txns. |
| Partitioner.Partition | execution/block-partitioner/src/omega_partitioner/mod.rs:209-302 | End to end: registration as above; a two-round partition grid whose round 0 is the discarding round on the uniform split and whose round 1 is the catch-all row; sender order across rounds; trackers holding exactly the grid's slots; and one sub-block list per shard whose round-r entry is the sub-block of cell (r, s). |

## Left out

- Parallelism and locking (`par_iter`, `DashMap`, `RwLock`, `Mutex`, atomics): each pass is a sequential loop and each barrier is sequential composition. `Rounds.RoundOutcomeUnique` shows that a round's result depends on nothing but its inputs.
- Registry.Register: ids are handed out in first-seen sequential order. Under parallel `fetch_add` (lines 226-236) the numbering can differ; only density and injectivity are promised.
- `txn_counts_by_sender_id` (line 229) is never read by the partitioner and is not modelled.
- Metrics timers, `println!`, the `OMEGA_PARTITIONER__DASHMAP_NUM_SHARDS` environment read, and `print_storage_location_helper_summary` have no effect on the result.
- `get_anchor_shard_id` (crate root) is not part of this model. It is a parameter into [0, numShards).
- `storage_location_helper` is not part of this model.
  - `has_write_in_range` is an abstract predicate on the tracker's candidate writers and the range.
  - `promote_txn_id` is modelled as inserting the slot into the promoted touches, and into the promoted writers when the txn is a candidate writer.
  - `brief` is not modelled.
- State keys are numbers compared only for equality. `AnalyzedTransaction` is reduced to its sender and its write and read keys. `Transaction` payloads are not modelled.
- `CrossShardDependencies` is plain lists of required and dependent edges, in emission order. Edges to the same slot are not merged by key, as `add_required_edge` may do.
- The panics of `unwrap()` are not modelled: a second `take()` of the same transaction, a missing helper or id, and `num_executor_shards == 0`. The last is excluded by `requires numShards >= 1`, and the first cannot happen on a partition grid.
- Every read and write hint is taken to name a specific state key: the model's locations are keys only. `maybe_state_key().unwrap()` at line 233 panics on a wildcard location, and that panic is not modelled.
- Integer widths: ids, counters and indices are unbounded. `usize::MAX` appears only as the initial per-sender minimum. The counters never exceed the number of transactions, so wrap-around is not modelled.
- Edges.CellTxns: its contract states the cell's transactions and their order. The dependencies are stated by `Edges.TxnDeps`, `Edges.RequiredEdgesMeaning`, `Edges.DependentEdgesSound` and `Edges.DependentEdgesComplete`.
