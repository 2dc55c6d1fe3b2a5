/**
 * `extract_and_sort`: each shard's list of txn ids is taken out of its lock
 * and sorted ascending in place (`Vec::sort`). The sort is an insertion sort
 * on an array; what matters is sortedness and that the ids are a permutation
 * of the input, which together fix the result uniquely.
 */
module Sorting {
  import opened Seqs

  /** a[..n] is sorted. */
  ghost predicate SortedPrefix(a: array<nat>, n: nat)
    requires n <= a.Length
    reads a
  {
    forall p, q :: 0 <= p < q < n ==> a[p] <= a[q]
  }

  /** Insert a[i] into the sorted prefix a[..i] by swapping it downwards. */
  method InsertDown(a: array<nat>, i: nat)
    requires i < a.Length && SortedPrefix(a, i)
    modifies a
    ensures SortedPrefix(a, i + 1)
    ensures multiset(a[..]) == multiset(old(a[..]))
  {
    var j := i;
    while j > 0 && a[j - 1] > a[j]
      invariant 0 <= j <= i
      invariant forall p, q :: 0 <= p < q <= i && p != j && q != j ==> a[p] <= a[q]
      invariant forall q :: j < q <= i ==> a[j] < a[q]
      invariant multiset(a[..]) == multiset(old(a[..]))
    {
      a[j - 1], a[j] := a[j], a[j - 1];
      j := j - 1;
    }
  }

  /** `slice::sort` on one shard's ids. */
  method SortInPlace(a: array<nat>)
    modifies a
    ensures Sorted(a[..])
    ensures multiset(a[..]) == multiset(old(a[..]))
  {
    for i := 0 to a.Length
      invariant SortedPrefix(a, i)
      invariant multiset(a[..]) == multiset(old(a[..]))
    {
      InsertDown(a, i);
    }
  }

  /** The head of a sorted sequence is its least element. */
  lemma SortedHeadLeast(a: seq<nat>, x: nat)
    requires Sorted(a) && x in a
    ensures a[0] <= x
  {
    var k :| 0 <= k < |a| && a[k] == x;
  }

  lemma SortedTail(a: seq<nat>)
    requires Sorted(a) && a != []
    ensures Sorted(a[1..])
  {
  }

  lemma TailMultiset(a: seq<nat>)
    requires a != []
    ensures multiset(a[1..]) == multiset(a) - multiset{a[0]}
  {
    assert a == [a[0]] + a[1..];
    MultisetCons(a[0], a[1..]);
  }

  /** Two sorted sequences with the same elements are equal: the sorted order is unique. */
  lemma {:induction false} SortedPermutationsEqual(a: seq<nat>, b: seq<nat>)
    requires Sorted(a) && Sorted(b) && multiset(a) == multiset(b)
    ensures a == b
    decreases |a|
  {
    assert |a| == |multiset(a)| == |multiset(b)| == |b|;
    if a != [] {
      assert a[0] in multiset(a) && b[0] in multiset(b);
      SortedHeadLeast(a, b[0]);
      SortedHeadLeast(b, a[0]);
      SortedTail(a);
      SortedTail(b);
      TailMultiset(a);
      TailMultiset(b);
      assert a[0] == b[0];
      var ta, tb := a[1..], b[1..];
      assert multiset(ta) == multiset(tb);
      SortedPermutationsEqual(ta, tb);
      assert a == [a[0]] + a[1..] && b == [b[0]] + b[1..];
    }
  }

  /**
   * `extract_and_sort`: every shard's ids, sorted. Each output row is the
   * sorted permutation of the corresponding input row.
   */
  method ExtractAndSort(rows: seq<seq<nat>>) returns (sorted: seq<seq<nat>>)
    ensures |sorted| == |rows|
    ensures forall s :: 0 <= s < |rows| ==> Sorted(sorted[s]) && multiset(sorted[s]) == multiset(rows[s])
  {
    sorted := [];
    for s := 0 to |rows|
      invariant |sorted| == s
      invariant forall s' :: 0 <= s' < s ==> Sorted(sorted[s']) && multiset(sorted[s']) == multiset(rows[s'])
    {
      var row := rows[s];
      var a := new nat[|row|](p requires 0 <= p < |row| => row[p]);
      assert a[..] == row;
      SortInPlace(a);
      sorted := sorted + [a[..]];
    }
  }
}
