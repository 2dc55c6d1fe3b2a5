/**
 * Initial assignment: `uniform_partition` splits 0..n-1 into k contiguous,
 * near-equal chunks (the first n % k chunks get one extra id), and the
 * per-shard start-index table records the first original index of each chunk.
 */
module Uniform {
  import opened Seqs

  /** Size of chunk i: n / k, plus one for the first n % k chunks. */
  function ChunkSize(n: nat, k: nat, i: nat): nat
    requires k >= 1
  {
    n / k + if i < n % k then 1 else 0
  }

  /** First id of chunk i: the sizes of chunks 0..i-1 added up. */
  function ChunkStart(n: nat, k: nat, i: nat): nat
    requires k >= 1
  {
    if i == 0 then 0 else ChunkStart(n, k, i - 1) + ChunkSize(n, k, i - 1)
  }

  lemma ChunkStartStep(n: nat, k: nat, i: nat)
    requires k >= 1
    ensures ChunkStart(n, k, i + 1) == ChunkStart(n, k, i) + ChunkSize(n, k, i)
  {
  }

  /** Chunk i starts at i * (n / k) + min(i, n % k). */
  lemma {:induction false} ChunkStartClosedForm(n: nat, k: nat, i: nat)
    requires k >= 1
    ensures ChunkStart(n, k, i) == i * (n / k) + if i < n % k then i else n % k
  {
    if i > 0 {
      ChunkStartClosedForm(n, k, i - 1);
      var q := n / k;
      assert i * q == (i - 1) * q + q;
    }
  }

  /** The chunks cover exactly n ids. */
  lemma ChunkStartOfAll(n: nat, k: nat)
    requires k >= 1
    ensures ChunkStart(n, k, k) == n
  {
    ChunkStartClosedForm(n, k, k);
    assert n % k < k;
    assert k * (n / k) + n % k == n;
  }

  lemma {:induction false} ChunkStartMonotone(n: nat, k: nat, a: nat, b: nat)
    requires k >= 1 && a <= b
    ensures ChunkStart(n, k, a) <= ChunkStart(n, k, b)
    decreases b - a
  {
    if a < b {
      ChunkStartStep(n, k, a);
      ChunkStartMonotone(n, k, a + 1, b);
    }
  }

  lemma RangeAppend(lo: nat, mid: nat, hi: nat)
    requires lo <= mid <= hi
    ensures Range(lo, mid) + Range(mid, hi) == Range(lo, hi)
  {
  }

  /** Chunk i of the split of n ids into k chunks: the ids from its start up to the next chunk's. */
  function Chunk(n: nat, k: nat, i: nat): seq<nat>
    requires k >= 1
  {
    Range(ChunkStart(n, k, i), ChunkStart(n, k, i + 1))
  }

  /** The first c chunks of a split concatenate to the ids below chunk c's start. */
  lemma {:induction false} ConcatOfChunks(n: nat, k: nat, chunks: seq<seq<nat>>, c: nat)
    requires k >= 1 && c <= |chunks|
    requires forall i :: 0 <= i < c ==> chunks[i] == Chunk(n, k, i)
    ensures Concat(chunks[..c]) == Range(0, ChunkStart(n, k, c))
  {
    if c > 0 {
      ConcatOfChunks(n, k, chunks, c - 1);
      assert chunks[..c] == chunks[..c - 1] + [chunks[c - 1]];
      ConcatAppend(chunks[..c - 1], chunks[c - 1]);
      ChunkStartMonotone(n, k, 0, c - 1);
      ChunkStartStep(n, k, c - 1);
      RangeAppend(0, ChunkStart(n, k, c - 1), ChunkStart(n, k, c));
    }
  }

  /** `uniform_partition(num_items, num_chunks)`. */
  method UniformPartition(numItems: nat, numChunks: nat) returns (ret: seq<seq<nat>>)
    requires numChunks >= 1
    ensures |ret| == numChunks
    ensures forall i :: 0 <= i < numChunks ==>
      |ret[i]| == ChunkSize(numItems, numChunks, i) && ret[i] == Chunk(numItems, numChunks, i)
    ensures forall i :: 0 <= i <= numChunks ==> Concat(ret[..i]) == Range(0, ChunkStart(numItems, numChunks, i))
    ensures Concat(ret) == Range(0, numItems)
  {
    var numBigChunks := numItems % numChunks;
    var smallChunkSize := numItems / numChunks;
    ret := [];
    var nextChunkStart := 0;
    for chunkId := 0 to numChunks
      invariant |ret| == chunkId
      invariant nextChunkStart == ChunkStart(numItems, numChunks, chunkId)
      invariant forall i :: 0 <= i < chunkId ==> ret[i] == Chunk(numItems, numChunks, i)
    {
      var extra := if chunkId < numBigChunks then 1 else 0;
      var nextChunkEnd := nextChunkStart + smallChunkSize + extra;
      ChunkStartStep(numItems, numChunks, chunkId);
      var chunk := Range(nextChunkStart, nextChunkEnd);
      nextChunkStart := nextChunkEnd;
      ret := ret + [chunk];
    }
    forall i | 0 <= i <= numChunks ensures Concat(ret[..i]) == Range(0, ChunkStart(numItems, numChunks, i)) {
      ConcatOfChunks(numItems, numChunks, ret, i);
    }
    ChunkStartOfAll(numItems, numChunks);
    assert ret[..numChunks] == ret;
    forall i | 0 <= i < numChunks ensures |ret[i]| == ChunkSize(numItems, numChunks, i) {
      ChunkStartStep(numItems, numChunks, i);
    }
  }

  /** The number of ids in chunks 0..s-1. */
  function SizeBefore(chunks: seq<seq<nat>>, s: nat): nat
    requires s <= |chunks|
  {
    |Concat(chunks[..s])|
  }

  lemma SizeBeforeStep(chunks: seq<seq<nat>>, s: nat)
    requires s < |chunks|
    ensures SizeBefore(chunks, s + 1) == SizeBefore(chunks, s) + |chunks[s]|
  {
    assert chunks[..s + 1] == chunks[..s] + [chunks[s]];
    ConcatAppend(chunks[..s], chunks[s]);
  }

  /** The start-index table built from a split: entry s is the number of ids in chunks 0..s-1. */
  method StartTxnIds(chunks: seq<seq<nat>>) returns (start: seq<nat>)
    ensures |start| == |chunks|
    ensures forall s :: 0 <= s < |chunks| ==> start[s] == SizeBefore(chunks, s)
  {
    var table := new nat[|chunks|](_ => 0);
    var shardId := 1;
    while shardId < |chunks|
      invariant 1 <= shardId
      invariant forall s :: 0 <= s < shardId && s < |chunks| ==> table[s] == SizeBefore(chunks, s)
    {
      SizeBeforeStep(chunks, shardId - 1);
      table[shardId] := table[shardId - 1] + |chunks[shardId - 1]|;
      shardId := shardId + 1;
    }
    start := table[..];
  }

  /** On a uniform split, entry s of the start table is chunk s's closed-form start, its first id when non-empty. */
  lemma StartOfUniformChunk(n: nat, k: nat, chunks: seq<seq<nat>>, s: nat)
    requires k >= 1 && |chunks| == k && s < k
    requires forall i :: 0 <= i < k ==> chunks[i] == Chunk(n, k, i)
    ensures SizeBefore(chunks, s) == ChunkStart(n, k, s)
    ensures chunks[s] != [] ==> chunks[s][0] == SizeBefore(chunks, s)
  {
    ConcatOfChunks(n, k, chunks, s);
    ChunkStartMonotone(n, k, 0, s);
    ChunkStartStep(n, k, s);
  }

  /** Ids of an earlier chunk are smaller than ids of a later one. */
  lemma EarlierChunkSmallerIds(n: nat, k: nat, a: nat, b: nat, x: nat, y: nat)
    requires k >= 1 && a < b < k
    requires ChunkStart(n, k, a) <= x < ChunkStart(n, k, a + 1)
    requires ChunkStart(n, k, b) <= y < ChunkStart(n, k, b + 1)
    ensures x < y
  {
    ChunkStartMonotone(n, k, a + 1, b);
  }

  /** Every chunk has n / k or n / k + 1 ids, and the larger ones come first. */
  lemma ChunkSizesNearlyEqual(n: nat, k: nat, i: nat, j: nat)
    requires k >= 1 && i <= j < k
    ensures n / k <= ChunkSize(n, k, i) <= n / k + 1
    ensures ChunkSize(n, k, j) <= ChunkSize(n, k, i)
  {
  }

  /** The test cases of `uniform_partition`: (18, 5) gives sizes 4,4,4,3,3 and (18, 3) gives 6,6,6. */
  lemma UniformPartitionExamples()
    ensures seq(5, i requires 0 <= i < 5 => ChunkSize(18, 5, i)) == [4, 4, 4, 3, 3]
    ensures seq(3, i requires 0 <= i < 3 => ChunkSize(18, 3, i)) == [6, 6, 6]
    ensures ChunkStart(18, 5, 5) == 18 && ChunkStart(18, 3, 3) == 18
  {
  }
}
