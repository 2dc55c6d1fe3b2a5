/**
 * Sequence vocabulary shared by the partitioner model: index ranges, the
 * concatenation of a row of cells and of a whole rounds-by-shards grid,
 * sortedness, and the "last write wins" position of an id in a sequence.
 */
module Seqs {

  /** The ids lo, lo+1, ..., hi-1 in order (Rust's `(lo..hi).collect()`). */
  function Range(lo: nat, hi: nat): (r: seq<nat>)
    ensures |r| == if lo <= hi then hi - lo else 0
    ensures forall i :: 0 <= i < |r| ==> r[i] == lo + i
    decreases hi - lo
  {
    if lo >= hi then [] else [lo] + Range(lo + 1, hi)
  }

  /** Concatenation of a list of lists in order (Rust's `concat()` / `flatten()`). */
  function Concat(ls: seq<seq<nat>>): seq<nat>
  {
    if ls == [] then [] else Concat(ls[..|ls| - 1]) + ls[|ls| - 1]
  }

  /** All cells of a rounds-by-shards grid, round-major and shard-minor. */
  function FlatGrid(g: seq<seq<seq<nat>>>): seq<nat>
  {
    if g == [] then [] else FlatGrid(g[..|g| - 1]) + Concat(g[|g| - 1])
  }

  /** Number of ids in the cells that come before cell (r, s) in round-major, shard-minor order. */
  function CellStart(g: seq<seq<seq<nat>>>, r: nat, s: nat): nat
    requires r < |g| && s <= |g[r]|
  {
    |FlatGrid(g[..r])| + |Concat(g[r][..s])|
  }

  ghost predicate Sorted(s: seq<nat>)
  {
    forall i, j :: 0 <= i < j < |s| ==> s[i] <= s[j]
  }

  ghost predicate StrictlySorted(s: seq<nat>)
  {
    forall i, j :: 0 <= i < j < |s| ==> s[i] < s[j]
  }

  ghost predicate Distinct(s: seq<nat>)
  {
    forall i, j :: 0 <= i < j < |s| ==> s[i] != s[j]
  }

  /** Every id 0..n-1 occurs exactly once among all the grid's cells, and nothing else does. */
  ghost predicate IsPartition(g: seq<seq<seq<nat>>>, n: nat)
  {
    multiset(FlatGrid(g)) == multiset(Range(0, n))
  }

  /**
   * The index of the last occurrence of x in s, or 0 when x does not occur:
   * the value an array holds after `a[s[k]] := k` has been run for k = 0, 1, ...
   * on a zero-initialised array.
   */
  function LastIndexOr0(s: seq<nat>, x: nat): nat
  {
    if s == [] then 0
    else if s[|s| - 1] == x then |s| - 1
    else LastIndexOr0(s[..|s| - 1], x)
  }

  lemma ConcatAppend(ls: seq<seq<nat>>, l: seq<nat>)
    ensures Concat(ls + [l]) == Concat(ls) + l
  {
    assert (ls + [l])[..|ls|] == ls;
  }

  lemma FlatGridAppend(g: seq<seq<seq<nat>>>, row: seq<seq<nat>>)
    ensures FlatGrid(g + [row]) == FlatGrid(g) + Concat(row)
  {
    assert (g + [row])[..|g|] == g;
  }

  lemma {:induction false} ConcatSplit(ls: seq<seq<nat>>, i: nat)
    requires i <= |ls|
    ensures Concat(ls) == Concat(ls[..i]) + Concat(ls[i..])
    decreases |ls|
  {
    if i < |ls| {
      var k := |ls| - 1;
      assert ls[..k][..i] == ls[..i];
      ConcatSplit(ls[..k], i);
      assert ls[i..] == ls[i..k] + [ls[k]];
      assert ls[..k][i..] == ls[i..k];
      ConcatAppend(ls[i..k], ls[k]);
    } else {
      assert ls[..i] == ls;
      assert ls[i..] == [];
    }
  }

  lemma {:induction false} FlatGridSplit(g: seq<seq<seq<nat>>>, i: nat)
    requires i <= |g|
    ensures FlatGrid(g) == FlatGrid(g[..i]) + FlatGrid(g[i..])
    decreases |g|
  {
    if i < |g| {
      var k := |g| - 1;
      var front := g[..k];
      assert FlatGrid(g) == FlatGrid(front) + Concat(g[k]);
      assert front[..i] == g[..i];
      FlatGridSplit(front, i);
      assert g[i..] == front[i..] + [g[k]];
      FlatGridAppend(front[i..], g[k]);
    } else {
      assert g[..i] == g;
      assert g[i..] == [];
    }
  }

  lemma ConcatSingleton(l: seq<nat>)
    ensures Concat([l]) == l
  {
    ConcatAppend([], l);
  }

  /** Concatenations of equal length lists of lists add up multiset-wise. */
  lemma {:induction false} ConcatMultisetSum(a: seq<seq<nat>>, b: seq<seq<nat>>, c: seq<seq<nat>>)
    requires |a| == |b| == |c|
    requires forall i :: 0 <= i < |a| ==> multiset(a[i]) + multiset(b[i]) == multiset(c[i])
    ensures multiset(Concat(a)) + multiset(Concat(b)) == multiset(Concat(c))
    decreases |a|
  {
    if |a| > 0 {
      var k := |a| - 1;
      ConcatMultisetSum(a[..k], b[..k], c[..k]);
    }
  }

  /** Lists that are all empty concatenate to nothing. */
  lemma {:induction false} ConcatOfEmpties(ls: seq<seq<nat>>)
    requires forall i :: 0 <= i < |ls| ==> ls[i] == []
    ensures Concat(ls) == []
    decreases |ls|
  {
    if ls != [] {
      ConcatOfEmpties(ls[..|ls| - 1]);
    }
  }

  /** Position p of list s lands at |Concat(ls[..s])| + p of the concatenation. */
  lemma {:induction false} ConcatIndex(ls: seq<seq<nat>>, s: nat, p: nat)
    requires s < |ls| && p < |ls[s]|
    ensures |Concat(ls[..s])| + p < |Concat(ls)|
    ensures Concat(ls)[|Concat(ls[..s])| + p] == ls[s][p]
    decreases |ls|
  {
    var k := |ls| - 1;
    var front := ls[..k];
    if s < k {
      assert front[..s] == ls[..s];
      ConcatIndex(front, s, p);
    } else {
      assert ls[..s] == front;
    }
  }

  /** Position i of row r's concatenation lands at |FlatGrid(g[..r])| + i of the flattened grid. */
  lemma {:induction false} FlatGridIndex(g: seq<seq<seq<nat>>>, r: nat, i: nat)
    requires r < |g| && i < |Concat(g[r])|
    ensures |FlatGrid(g[..r])| + i < |FlatGrid(g)|
    ensures FlatGrid(g)[|FlatGrid(g[..r])| + i] == Concat(g[r])[i]
    decreases |g|
  {
    var k := |g| - 1;
    var front := g[..k];
    if r < k {
      assert front[..r] == g[..r];
      FlatGridIndex(front, r, i);
    } else {
      assert g[..r] == front;
    }
  }

  /** Where cell (r, s) position p lands once the grid is flattened. */
  lemma CellPosition(g: seq<seq<seq<nat>>>, r: nat, s: nat, p: nat)
    requires r < |g| && s < |g[r]| && p < |g[r][s]|
    ensures CellStart(g, r, s) + p < |FlatGrid(g)|
    ensures FlatGrid(g)[CellStart(g, r, s) + p] == g[r][s][p]
  {
    ConcatIndex(g[r], s, p);
    FlatGridIndex(g, r, |Concat(g[r][..s])| + p);
  }

  /** The cells before (r, s + 1) are those before (r, s) and cell (r, s) itself. */
  lemma CellStartNext(g: seq<seq<seq<nat>>>, r: nat, s: nat)
    requires r < |g| && s < |g[r]|
    ensures CellStart(g, r, s + 1) == CellStart(g, r, s) + |g[r][s]|
  {
    assert g[r][..s + 1] == g[r][..s] + [g[r][s]];
    ConcatAppend(g[r][..s], g[r][s]);
  }

  lemma RangeMultiplicity(n: nat, x: nat)
    ensures multiset(Range(0, n))[x] == if x < n then 1 else 0
  {
    RangeMultiplicityFrom(0, n, x);
  }

  lemma {:induction false} RangeMultiplicityFrom(lo: nat, hi: nat, x: nat)
    ensures multiset(Range(lo, hi))[x] == if lo <= x < hi then 1 else 0
    decreases hi - lo
  {
    if lo < hi {
      RangeMultiplicityFrom(lo + 1, hi, x);
      MultisetCons(lo, Range(lo + 1, hi));
    }
  }

  lemma MultisetCons(a: nat, s: seq<nat>)
    ensures multiset([a] + s) == multiset{a} + multiset(s)
  {
  }

  /** An id occurring at two positions has multiplicity at least two. */
  lemma TwoOccurrences(s: seq<nat>, i: nat, j: nat)
    requires i < j < |s| && s[i] == s[j]
    ensures multiset(s)[s[i]] >= 2
  {
    assert s == s[..i] + [s[i]] + s[i + 1..j] + [s[j]] + s[j + 1..];
    assert multiset(s) == multiset(s[..i]) + multiset{s[i]} + multiset(s[i + 1..j]) + multiset{s[j]} + multiset(s[j + 1..]);
  }

  /** A sequence whose multiset is that of 0..n-1 lists each of 0..n-1 exactly once. */
  lemma PermutationOfRange(s: seq<nat>, n: nat)
    requires multiset(s) == multiset(Range(0, n))
    ensures |s| == n
    ensures Distinct(s)
    ensures forall x: nat :: x in s <==> x < n
  {
    assert |s| == |multiset(s)| == |Range(0, n)|;
    forall i, j | 0 <= i < j < |s| ensures s[i] != s[j] {
      if s[i] == s[j] {
        TwoOccurrences(s, i, j);
        RangeMultiplicity(n, s[i]);
        assert false;
      }
    }
    forall x: nat ensures x in s <==> x < n {
      RangeMultiplicity(n, x);
      assert (x in s) == (multiset(s)[x] > 0);
    }
  }

  /** In a duplicate-free sequence the last occurrence of s[j] is j itself. */
  lemma {:induction false} LastIndexOfDistinct(s: seq<nat>, j: nat)
    requires Distinct(s) && j < |s|
    ensures LastIndexOr0(s, s[j]) == j
    decreases |s|
  {
    if j < |s| - 1 {
      LastIndexOfDistinct(s[..|s| - 1], j);
    }
  }

  /** A concatenation of rows whose ids are all below n has only ids below n. */
  lemma {:induction false} ConcatBelow(ls: seq<seq<nat>>, n: nat)
    requires forall s, j :: 0 <= s < |ls| && 0 <= j < |ls[s]| ==> ls[s][j] < n
    ensures forall j :: 0 <= j < |Concat(ls)| ==> Concat(ls)[j] < n
  {
    if ls != [] {
      var init := ls[..|ls| - 1];
      assert forall s :: 0 <= s < |init| ==> init[s] == ls[s];
      ConcatBelow(init, n);
    }
  }

  /** An id occurs in a concatenation exactly when it occurs in one of the lists. */
  lemma {:induction false} ConcatMembers(ls: seq<seq<nat>>, y: nat)
    ensures y in Concat(ls) <==> exists t :: 0 <= t < |ls| && y in ls[t]
  {
    if ls != [] {
      var init := ls[..|ls| - 1];
      ConcatMembers(init, y);
      assert forall t :: 0 <= t < |init| ==> init[t] == ls[t];
      if y in Concat(ls) && y !in ls[|ls| - 1] {
        assert y in Concat(init);
      }
    }
  }
}
