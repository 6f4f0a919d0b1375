/** A random subset of the selected exposures: draw a value for each, sort their positions by
    it, take the first ones. */
module RandomSubset {

  // ---------------------------------------------------------------- sorting positions

  /** `p` holds every position below its length exactly once. */
  ghost predicate Permutation(p: seq<int>) {
    && (forall i | 0 <= i < |p| :: 0 <= p[i] < |p|)
    && (forall i, j | 0 <= i < j < |p| :: p[i] != p[j])
  }

  /** The value at position `i` is at least that at `j`. */
  ghost predicate AtLeast(value: seq<real>, p: seq<int>, i: int, j: int)
    requires 0 <= i < |p| == |value| && 0 <= j < |p| && Permutation(p)
  {
    value[p[i]] >= value[p[j]]
  }

  /** The heap of the sort: position `j` hangs below `j / 2`, so the root 0 has the single
      child 1.  Here for the parents from `lo` on and the children up to `last`. */
  ghost predicate HeapFrom(value: seq<real>, p: seq<int>, last: nat, lo: int)
    requires last < |p| == |value| && Permutation(p)
  {
    forall j | 1 <= j <= last && lo <= j / 2 :: AtLeast(value, p, j / 2, j)
  }

  ghost predicate Below(value: seq<real>, p: seq<int>, last: nat, bound: real)
    requires last < |p| == |value| && Permutation(p)
  {
    forall j | 0 <= j <= last :: value[p[j]] <= bound
  }

  /** Let the element at `start` sink to its place. */
  method DownHeap(index: array<int>, value: seq<real>, last: nat, start: nat)
    requires last < index.Length == |value| && Permutation(index[..])
    requires HeapFrom(value, index[..], last, start + 1)
    modifies index
    ensures Permutation(index[..]) && HeapFrom(value, index[..], last, start)
    ensures index[last + 1..] == old(index[last + 1..])
    ensures forall b :: Below(value, old(index[..]), last, b) ==> Below(value, index[..], last, b)
  {
    var k := start;
    while k <= last / 2
      invariant start <= k && Permutation(index[..])
      invariant index[last + 1..] == old(index[last + 1..])
      invariant forall b :: Below(value, old(index[..]), last, b) ==> Below(value, index[..], last, b)
      invariant Sinking(value, index[..], last, start, k)
      decreases last - k
    {
      var j := 2 * k;
      if j < last && value[index[j]] < value[index[j + 1]] {
        j := j + 1;
      }
      if !(value[index[k]] < value[index[j]]) {
        SunkHere(value, index[..], last, start, k);
        return;
      }
      ghost var before := index[..];
      index[j], index[k] := index[k], index[j];
      assert index[..] == before[j := before[k]][k := before[j]];
      SinksOn(value, before, last, start, k, j);
      k := j;
    }
    SunkHere(value, index[..], last, start, k);
  }

  /** A heap from `start` on, except that the element at `k` may be smaller than its
      children; its parent is not. */
  ghost predicate Sinking(value: seq<real>, p: seq<int>, last: nat, start: nat, k: nat)
    requires last < |p| == |value| && Permutation(p)
  {
    && (forall j | 1 <= j <= last && start <= j / 2 && j / 2 != k :: AtLeast(value, p, j / 2, j))
    && (forall j | 1 <= j <= last && j / 2 == k && start <= k / 2 && k != 0 && k <= last :: AtLeast(value, p, k / 2, j))
  }

  lemma SunkHere(value: seq<real>, p: seq<int>, last: nat, start: nat, k: nat)
    requires last < |p| == |value| && Permutation(p) && Sinking(value, p, last, start, k)
    requires forall j | 1 <= j <= last && j / 2 == k :: AtLeast(value, p, k, j)
    ensures HeapFrom(value, p, last, start)
  {
  }

  lemma SinksOn(value: seq<real>, p: seq<int>, last: nat, start: nat, k: nat, j: nat)
    requires last < |p| == |value| && Permutation(p) && start <= k && k < j <= last && j / 2 == k
    requires Sinking(value, p, last, start, k)
    requires value[p[k]] < value[p[j]]
    requires forall c | 1 <= c <= last && c / 2 == k :: AtLeast(value, p, j, c)
    ensures var q := p[j := p[k]][k := p[j]];
      && Permutation(q) && q[last + 1..] == p[last + 1..] && Sinking(value, q, last, start, j)
      && forall b :: Below(value, p, last, b) ==> Below(value, q, last, b)
  {
    var q := p[j := p[k]][k := p[j]];
    forall c | 1 <= c <= last && start <= c / 2 && c / 2 != j
      ensures AtLeast(value, q, c / 2, c)
    {
      assert c != k && c / 2 != k ==> AtLeast(value, p, c / 2, c);
      assert c / 2 == k ==> AtLeast(value, p, j, c);
      assert c == k ==> AtLeast(value, p, k / 2, j);
    }
    forall c | 1 <= c <= last && c / 2 == j
      ensures AtLeast(value, q, j / 2, c)
    {
      assert AtLeast(value, p, j, c);
    }
  }

  lemma {:induction false} RootIsLargest(value: seq<real>, p: seq<int>, last: nat, j: nat)
    requires last < |p| == |value| && Permutation(p) && HeapFrom(value, p, last, 0) && j <= last
    ensures AtLeast(value, p, 0, j)
  {
    if j > 0 {
      RootIsLargest(value, p, last, j / 2);
      assert AtLeast(value, p, j / 2, j);
    }
  }

  /** `p` lists the positions in the order of their values. */
  ghost predicate SortsFrom(value: seq<real>, p: seq<int>, lo: nat)
    requires |p| == |value| && Permutation(p)
  {
    forall i, j | 0 <= i < j < |p| && lo <= j :: AtLeast(value, p, j, i)
  }

  /** The positions of a vector in the order of its values, by heap sort. */
  method SortIndex(value: seq<real>) returns (index: array<int>)
    ensures fresh(index) && index.Length == |value| && Permutation(index[..])
    ensures SortsFrom(value, index[..], 0)
  {
    index := new int[|value|](i => i);
    if |value| < 2 {
      return;
    }
    var last := |value| - 1;
    var i := last / 2 + 1;
    while i > 0
      invariant 0 <= i <= last / 2 + 1 && fresh(index) && index.Length == |value|
      invariant Permutation(index[..]) && HeapFrom(value, index[..], last, i)
    {
      i := i - 1;
      DownHeap(index, value, last, i);
    }
    while last > 0
      invariant 0 <= last < |value| && fresh(index) && index.Length == |value|
      invariant Permutation(index[..]) && HeapFrom(value, index[..], last, 0)
      invariant SortsFrom(value, index[..], last + 1)
    {
      ghost var before := index[..];
      index[0], index[last] := index[last], index[0];
      assert index[..] == before[0 := before[last]][last := before[0]];
      RootMovesUp(value, before, last);
      last := last - 1;
      ghost var heap := index[..];
      DownHeap(index, value, last, 0);
      StillSorted(value, heap, index[..], last);
    }
  }

  lemma RootMovesUp(value: seq<real>, p: seq<int>, last: nat)
    requires 0 < last < |p| == |value| && Permutation(p)
    requires HeapFrom(value, p, last, 0) && SortsFrom(value, p, last + 1)
    ensures var q := p[0 := p[last]][last := p[0]];
      && Permutation(q) && HeapFrom(value, q, last - 1, 1) && SortsFrom(value, q, last)
  {
    var q := p[0 := p[last]][last := p[0]];
    forall j | 1 <= j <= last - 1 && 1 <= j / 2
      ensures AtLeast(value, q, j / 2, j)
    {
      assert AtLeast(value, p, j / 2, j);
    }
    forall i, j | 0 <= i < j < |q| && last <= j
      ensures AtLeast(value, q, j, i)
    {
      var was := if i == 0 then last else i;
      if j == last {
        RootIsLargest(value, p, last, was);
      } else {
        assert AtLeast(value, p, j, i) && AtLeast(value, p, j, if i == 0 then last else if i == last then 0 else i);
      }
    }
  }

  lemma StillSorted(value: seq<real>, p: seq<int>, q: seq<int>, last: nat)
    requires last + 1 < |p| == |q| == |value| && Permutation(p) && Permutation(q)
    requires SortsFrom(value, p, last + 1) && q[last + 1..] == p[last + 1..]
    requires forall b :: Below(value, p, last, b) ==> Below(value, q, last, b)
    ensures SortsFrom(value, q, last + 1)
  {
    forall i, j | 0 <= i < j < |q| && last + 1 <= j
      ensures AtLeast(value, q, j, i)
    {
      assert q[j] == q[last + 1..][j - last - 1] == p[j];
      if i <= last {
        forall c | 0 <= c <= last
          ensures value[p[c]] <= value[p[j]]
        {
          assert AtLeast(value, p, j, c);
        }
        assert Below(value, p, last, value[p[j]]);
      } else {
        assert q[i] == q[last + 1..][i - last - 1] == p[i];
        assert AtLeast(value, p, j, i);
      }
    }
  }

  // ---------------------------------------------------------------- the subset

  function Pick<T>(rows: seq<T>, positions: seq<int>): (r: seq<T>)
    requires forall i | 0 <= i < |positions| :: 0 <= positions[i] < |rows|
  {
    seq(|positions|, i requires 0 <= i < |positions| => rows[positions[i]])
  }

  /** `subset` holds the rows at the first `n` positions of a permutation that sorts the
      random values. */
  ghost predicate FirstBy<T(!new)>(rows: seq<T>, value: seq<real>, n: nat, subset: seq<T>) {
    exists p :: |p| == |rows| == |value| && n <= |p| && Permutation(p) && SortsFrom(value, p, 0) && subset == Pick(rows, p[..n])
  }

  /** The rows that -random_subset and -random_limit leave, given the random value drawn for
      each row. */
  method Choose<T(!new)>(rows: seq<T>, randomSubset: bool, limit: nat, value: seq<real>) returns (subset: seq<T>)
    requires |value| == |rows|
    ensures !randomSubset || limit >= |rows| ==> subset == rows
    ensures randomSubset && limit < |rows| ==> FirstBy(rows, value, limit, subset)
  {
    if !randomSubset || limit >= |rows| {
      return rows;
    }
    var index := SortIndex(value);
    subset := [];
    var i := 0;
    while i < limit
      invariant 0 <= i <= limit && subset == Pick(rows, index[..i])
    {
      subset := subset + [rows[index[i]]];
      i := i + 1;
      assert subset == Pick(rows, index[..i]);
    }
    assert index[..limit] == index[..][..limit];
  }

  /** The subset has the requested size and uses no row twice: it is contained in the rows
      with their multiplicities. */
  lemma SubsetIsContained<T(!new)>(rows: seq<T>, value: seq<real>, n: nat, subset: seq<T>)
    requires FirstBy(rows, value, n, subset)
    ensures |subset| == n && multiset(subset) <= multiset(rows)
  {
    var p :| |p| == |rows| == |value| && n <= |p| && Permutation(p) && SortsFrom(value, p, 0) && subset == Pick(rows, p[..n]);
    PickAll(rows, p);
    assert Pick(rows, p) == Pick(rows, p[..n]) + Pick(rows, p[n..]);
  }

  lemma {:induction false} PickAll<T>(rows: seq<T>, p: seq<int>)
    requires |p| == |rows| && Permutation(p)
    ensures multiset(Pick(rows, p)) == multiset(rows)
    decreases |p|
  {
    if p != [] {
      var n := |p| - 1;
      var i := PositionOf(p, n);
      var q := p[i := p[n]][..n];
      PickAll(rows[..n], q);
      PickSwapped(rows, p, i);
      assert rows == rows[..n] + [rows[n]];
    }
  }

  lemma PickSwapped<T>(rows: seq<T>, p: seq<int>, i: nat)
    requires |p| == |rows| > 0 && Permutation(p) && i < |p| && p[i] == |p| - 1
    ensures var n := |p| - 1; var q := p[i := p[n]][..n];
      Permutation(q) && multiset(Pick(rows, p)) == multiset(Pick(rows[..n], q)) + multiset{rows[n]}
  {
    var n := |p| - 1;
    var q := p[i := p[n]][..n];
    var all, rest := Pick(rows, p), Pick(rows[..n], q);
    assert rest == all[i := all[n]][..n];
    assert all[i := all[n]][n := all[i]] == rest + [rows[n]];
    assert multiset(all[i := all[n]][n := all[i]]) == multiset(all);
  }

  /** By counting, a permutation takes every value below its length. */
  lemma PositionOf(p: seq<int>, v: int) returns (i: nat)
    requires Permutation(p) && 0 <= v < |p|
    ensures i < |p| && p[i] == v
  {
    var taken, possible := (set x | x in p), Range(|p|);
    DistinctElements(p);
    assert taken * possible == taken;
    assert |possible - taken| == |possible| - |taken|;
    assert v !in possible - taken;
    i :| 0 <= i < |p| && p[i] == v;
  }

  function Range(n: nat): (r: set<int>)
    ensures |r| == n && forall x :: x in r <==> 0 <= x < n
  {
    if n == 0 then {} else Range(n - 1) + {n - 1}
  }

  lemma {:induction false} DistinctElements(p: seq<int>)
    requires forall i, j | 0 <= i < j < |p| :: p[i] != p[j]
    ensures |set x | x in p| == |p|
  {
    if p != [] {
      var n := |p| - 1;
      DistinctElements(p[..n]);
      assert (set x | x in p) == (set x | x in p[..n]) + {p[n]};
    }
  }

  /** No row that was left out has a smaller random value than one that was taken. */
  lemma SubsetHasSmallestValues(value: seq<real>, p: seq<int>, n: nat, i: nat, j: nat)
    requires |p| == |value| && Permutation(p) && SortsFrom(value, p, 0)
    requires i < n <= j < |p|
    ensures value[p[i]] <= value[p[j]]
  {
    assert AtLeast(value, p, j, i);
  }
}
