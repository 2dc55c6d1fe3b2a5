/**
 * The composite slot identifier `TxnFatId` (round, shard, original index) and
 * its lexicographic order, plus the ordered-set operations the partitioner
 * performs on `BTreeSet<TxnFatId>`: insertion, the greatest element below a
 * bound, an emptiness test on a half-open range, and the elements from a bound on.
 * An ordered set is modelled as a strictly increasing sequence.
 */
module FatIds {

  datatype TxnFatId = TxnFatId(round: nat, shard: nat, oldTxnIdx: nat)

  datatype Ordering = Less | Equal | Greater

  function CompareNat(x: nat, y: nat): Ordering
  {
    if x < y then Less else if x == y then Equal else Greater
  }

  /** `partial_cmp` of the tuples (round, shard, old index). */
  function Compare(a: TxnFatId, b: TxnFatId): Ordering
  {
    if a.round != b.round then CompareNat(a.round, b.round)
    else if a.shard != b.shard then CompareNat(a.shard, b.shard)
    else CompareNat(a.oldTxnIdx, b.oldTxnIdx)
  }

  predicate Lt(a: TxnFatId, b: TxnFatId)
  {
    Compare(a, b) == Less
  }

  predicate Le(a: TxnFatId, b: TxnFatId)
  {
    Compare(a, b) != Greater
  }

  /** The first id of the shard after f's, in f's round: the exclusive end of f's cell. */
  function NextShard(f: TxnFatId): TxnFatId
  {
    TxnFatId(f.round, f.shard + 1, 0)
  }

  /** Compare is lexicographic on (round, shard, old index) and is a strict total order. */
  lemma CompareIsLexicographicTotalOrder(a: TxnFatId, b: TxnFatId, c: TxnFatId)
    ensures Lt(a, b) <==> (a.round < b.round
                           || (a.round == b.round && a.shard < b.shard)
                           || (a.round == b.round && a.shard == b.shard && a.oldTxnIdx < b.oldTxnIdx))
    ensures Compare(a, b) == Equal <==> a == b
    ensures Compare(a, b) == Greater <==> Compare(b, a) == Less
    ensures Lt(a, b) && Lt(b, c) ==> Lt(a, c)
    ensures Lt(a, b) || a == b || Lt(b, a)
    ensures Le(a, b) <==> (Lt(a, b) || a == b)
  {
  }

  /** Every fat id of cell (r, s) lies at or after (r, s, 0) and strictly before NextShard. */
  lemma InOwnCell(f: TxnFatId)
    ensures Le(TxnFatId(f.round, f.shard, 0), f) && Lt(f, NextShard(f))
  {
  }

  ghost predicate SortedIds(s: seq<TxnFatId>)
  {
    forall i, j :: 0 <= i < j < |s| ==> Lt(s[i], s[j])
  }

  /** `BTreeSet::insert`: the set gains x and keeps its order. */
  function Insert(s: seq<TxnFatId>, x: TxnFatId): (r: seq<TxnFatId>)
    ensures forall y :: y in r <==> y in s || y == x
    ensures SortedIds(s) ==> SortedIds(r)
    ensures SortedIds(s) ==> |r| == if x in s then |s| else |s| + 1
  {
    if s == [] then [x]
    else if Lt(x, s[0]) then [x] + s
    else if x == s[0] then s
    else
      var rest := Insert(s[1..], x);
      CompareIsLexicographicTotalOrder(x, s[0], x);
      assert SortedIds(s) ==> forall y :: y in rest ==> Lt(s[0], y);
      [s[0]] + rest
  }

  /** `range(..bound).last()`: the greatest element strictly below bound. */
  function LastBelow(s: seq<TxnFatId>, bound: TxnFatId): (r: Option)
    ensures r.Some? ==> r.value in s && Lt(r.value, bound)
    ensures r.None? ==> forall y :: y in s ==> !Lt(y, bound)
    ensures r.Some? && SortedIds(s) ==> forall y :: y in s && Lt(y, bound) ==> Le(y, r.value)
  {
    if s == [] then None
    else if Lt(s[|s| - 1], bound) then
      assert SortedIds(s) ==> forall y :: y in s ==> Le(y, s[|s| - 1]);
      Some(s[|s| - 1])
    else
      var r := LastBelow(s[..|s| - 1], bound);
      assert forall y :: y in s ==> y in s[..|s| - 1] || y == s[|s| - 1];
      r
  }

  datatype Option = None | Some(value: TxnFatId)

  /** `range(lo..hi).next().is_none()`: no element lies in [lo, hi). */
  predicate NoneInRange(s: seq<TxnFatId>, lo: TxnFatId, hi: TxnFatId)
  {
    forall i :: 0 <= i < |s| ==> !(Le(lo, s[i]) && Lt(s[i], hi))
  }

  /** `range(lo..)`: the elements at or above lo, in order. */
  function From(s: seq<TxnFatId>, lo: TxnFatId): (r: seq<TxnFatId>)
    ensures forall y :: y in r <==> y in s && Le(lo, y)
    ensures SortedIds(s) ==> SortedIds(r)
    ensures forall i :: 0 <= i < |r| ==> Le(lo, r[i])
  {
    if s == [] then []
    else if Le(lo, s[0]) then [s[0]] + From(s[1..], lo)
    else From(s[1..], lo)
  }
}
