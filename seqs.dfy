/** Kotlin collection operations on lists: `filter`, `takeLast`, `firstOrNull`. */
module Seqs {
  import opened Wrappers

  /** `filter(p)`: the elements satisfying `p`, in their order. */
  function Filter<T>(xs: seq<T>, p: T -> bool): (r: seq<T>)
    ensures |r| <= |xs|
    ensures forall i :: 0 <= i < |r| ==> r[i] in xs && p(r[i])
    ensures forall i :: 0 <= i < |xs| && p(xs[i]) ==> xs[i] in r
    decreases |xs|
  {
    if xs == [] then []
    else if p(xs[|xs| - 1]) then Filter(xs[..|xs| - 1], p) + [xs[|xs| - 1]]
    else Filter(xs[..|xs| - 1], p)
  }

  /** Filtering distributes over concatenation, which is what keeps the relative order. */
  lemma {:induction false} FilterAppend<T>(xs: seq<T>, ys: seq<T>, p: T -> bool)
    ensures Filter(xs + ys, p) == Filter(xs, p) + Filter(ys, p)
    decreases |ys|
  {
    if ys == [] {
      assert xs + ys == xs;
    } else {
      var zs, y := ys[..|ys| - 1], ys[|ys| - 1];
      var all := xs + ys;
      assert all[..|all| - 1] == xs + zs && all[|all| - 1] == y;
      FilterAppend(xs, zs, p);
    }
  }

  /** Filtering with a test every element passes changes nothing; one no element passes leaves nothing. */
  lemma {:induction false} FilterAll<T>(xs: seq<T>, p: T -> bool)
    requires forall i :: 0 <= i < |xs| ==> p(xs[i])
    ensures Filter(xs, p) == xs
    decreases |xs|
  {
    if xs != [] {
      FilterAll(xs[..|xs| - 1], p);
    }
  }

  lemma {:induction false} FilterNone<T>(xs: seq<T>, p: T -> bool)
    requires forall i :: 0 <= i < |xs| ==> !p(xs[i])
    ensures Filter(xs, p) == []
    decreases |xs|
  {
    if xs != [] {
      FilterNone(xs[..|xs| - 1], p);
    }
  }

  /** Filtering twice with the same test is filtering once. */
  lemma {:induction false} FilterTwice<T>(xs: seq<T>, p: T -> bool)
    ensures Filter(Filter(xs, p), p) == Filter(xs, p)
  {
    FilterAll(Filter(xs, p), p);
  }

  /** The elements failing `p` are those passing its negation. */
  function Not<T>(p: T -> bool): T -> bool {
    x => !p(x)
  }

  /** Splitting by a test and its negation loses and duplicates nothing. */
  lemma {:induction false} FilterSplit<T>(xs: seq<T>, p: T -> bool)
    ensures multiset(Filter(xs, p)) + multiset(Filter(xs, Not(p))) == multiset(xs)
    decreases |xs|
  {
    if xs != [] {
      var ys, y := xs[..|xs| - 1], xs[|xs| - 1];
      FilterSplit(ys, p);
      assert xs == ys + [y];
      assert Not(p)(y) == !p(y);
    }
  }

  /** Every pair of elements, in list order, is related by `rel`. */
  predicate Pairwise<T>(xs: seq<T>, rel: (T, T) -> bool) {
    forall i, j :: 0 <= i < j < |xs| ==> rel(xs[i], xs[j])
  }

  /** The elements `Filter` keeps come from the list in order, at increasing positions. */
  lemma {:induction false} FilterPairwise<T>(xs: seq<T>, p: T -> bool, rel: (T, T) -> bool)
    requires Pairwise(xs, rel)
    ensures Pairwise(Filter(xs, p), rel)
    decreases |xs|
  {
    if xs != [] {
      var init, x := xs[..|xs| - 1], xs[|xs| - 1];
      assert Pairwise(init, rel);
      FilterPairwise(init, p, rel);
      if p(x) {
        var f := Filter(init, p);
        forall k | 0 <= k < |f|
          ensures rel(f[k], x)
        {
          var i :| 0 <= i < |init| && init[i] == f[k];
          assert xs[i] == init[i];
        }
        var r := f + [x];
        forall i, j | 0 <= i < j < |r|
          ensures rel(r[i], r[j])
        {
          if j < |f| {
            assert r[i] == f[i] && r[j] == f[j];
          }
        }
      }
    }
  }

  /** The elements failing `p`, then those passing it, each group in its order. */
  function Partition<T>(xs: seq<T>, p: T -> bool): seq<T> {
    Filter(xs, Not(p)) + Filter(xs, p)
  }

  /** No element passing `p` comes before one failing it. */
  predicate PartitionedBy<T>(s: seq<T>, p: T -> bool) {
    forall i, j :: 0 <= i < j < |s| ==> !(p(s[i]) && !p(s[j]))
  }

  lemma PartitionPermutes<T>(xs: seq<T>, p: T -> bool)
    ensures multiset(Partition(xs, p)) == multiset(xs)
  {
    FilterSplit(xs, p);
  }

  /** The partition is ordered and keeps the order within each group. */
  lemma PartitionSorts<T>(xs: seq<T>, p: T -> bool)
    ensures PartitionedBy(Partition(xs, p), p)
    ensures Filter(Partition(xs, p), p) == Filter(xs, p)
    ensures Filter(Partition(xs, p), Not(p)) == Filter(xs, Not(p))
  {
    var a, b := Filter(xs, Not(p)), Filter(xs, p);
    assert forall i :: 0 <= i < |a| ==> !p(a[i]) by {
      forall i | 0 <= i < |a| ensures !p(a[i]) {
        assert Not(p)(a[i]);
      }
    }
    FilterAppend(a, b, p);
    FilterAppend(a, b, Not(p));
    FilterNone(a, p);
    FilterAll(b, p);
    FilterAll(a, Not(p));
    FilterNone(b, Not(p));
  }

  /** A list ordered by `p` is its failing elements followed by its passing ones. */
  lemma {:induction false} PartitionedSplits<T>(s: seq<T>, p: T -> bool)
    requires PartitionedBy(s, p)
    ensures s == Filter(s, Not(p)) + Filter(s, p)
    decreases |s|
  {
    if s != [] {
      var init, x := s[..|s| - 1], s[|s| - 1];
      assert s == init + [x];
      assert PartitionedBy(init, p);
      PartitionedSplits(init, p);
      if p(x) {
        assert !Not(p)(x);
      } else {
        assert Not(p)(x);
        assert forall i :: 0 <= i < |init| ==> !p(init[i]) by {
          forall i | 0 <= i < |init| ensures !p(init[i]) {
            assert s[i] == init[i];
          }
        }
        FilterNone(init, p);
        FilterAll(init, Not(p));
      }
    }
  }

  /**
   * The partition is the only ordering by `p` that keeps each group's order: what
   * a stable sort with a comparator ranking the `p` elements last must return.
   */
  lemma PartitionUnique<T>(xs: seq<T>, s: seq<T>, p: T -> bool)
    requires PartitionedBy(s, p)
    requires Filter(s, p) == Filter(xs, p)
    requires Filter(s, Not(p)) == Filter(xs, Not(p))
    ensures s == Partition(xs, p)
  {
    PartitionedSplits(s, p);
  }

  /** `takeLast(n)`: the last `n` elements, or all of them when there are fewer. */
  function TakeLast<T>(xs: seq<T>, n: nat): (r: seq<T>)
    ensures |r| == if |xs| <= n then |xs| else n
    ensures r == xs[|xs| - |r|..]
  {
    if |xs| <= n then xs else xs[|xs| - n..]
  }

  /** Trimming before appending one element trims nothing that trimming afterwards would keep. */
  lemma TakeLastSnoc<T>(xs: seq<T>, x: T, n: nat)
    requires n > 0
    ensures TakeLast(TakeLast(xs, n) + [x], n) == TakeLast(xs + [x], n)
  {
    if |xs| >= n {
      var a := TakeLast(xs, n);
      assert a == xs[|xs| - n..];
      assert (a + [x])[1..] == xs[|xs| - n + 1..] + [x];
      assert (xs + [x])[|xs| + 1 - n..] == xs[|xs| - n + 1..] + [x];
    }
  }

  /** `firstOrNull()`. */
  function FirstOrNull<T>(xs: seq<T>): (r: Option<T>)
    ensures r.None? <==> xs == []
    ensures r.Some? ==> r.value == xs[0]
  {
    if xs == [] then None else Some(xs[0])
  }

  /** `flatMap(f)`: the lists `f` gives for each element, one after another. */
  function ConcatMap<T, U>(xs: seq<T>, f: T -> seq<U>): (r: seq<U>)
    ensures xs == [] ==> r == []
    decreases |xs|
  {
    if xs == [] then [] else ConcatMap(xs[..|xs| - 1], f) + f(xs[|xs| - 1])
  }

  /** One more element adds its list at the end: the step of a `forEach` that appends. */
  lemma ConcatMapSnoc<T, U>(xs: seq<T>, x: T, f: T -> seq<U>)
    ensures ConcatMap(xs + [x], f) == ConcatMap(xs, f) + f(x)
  {
    assert (xs + [x])[..|xs|] == xs;
  }

  /** The step of a loop that appends `f(xs[k])` to what it has built from `xs[..k]`. */
  lemma ConcatMapStep<T, U>(prefix: seq<U>, xs: seq<T>, k: nat, f: T -> seq<U>)
    requires k < |xs|
    ensures prefix + ConcatMap(xs[..k + 1], f) == (prefix + ConcatMap(xs[..k], f)) + f(xs[k])
  {
    assert xs[..k + 1] == xs[..k] + [xs[k]];
    ConcatMapSnoc(xs[..k], xs[k], f);
  }

  /** `flatMap` distributes over concatenation: the lists come out in the order of the elements. */
  lemma {:induction false} ConcatMapAppend<T, U>(xs: seq<T>, ys: seq<T>, f: T -> seq<U>)
    ensures ConcatMap(xs + ys, f) == ConcatMap(xs, f) + ConcatMap(ys, f)
    decreases |ys|
  {
    if ys == [] {
      assert xs + ys == xs;
    } else {
      var zs, y := ys[..|ys| - 1], ys[|ys| - 1];
      assert xs + ys == (xs + zs) + [y];
      assert ys == zs + [y];
      ConcatMapAppend(xs, zs, f);
      ConcatMapSnoc(xs + zs, y, f);
      ConcatMapSnoc(zs, y, f);
    }
  }
}
