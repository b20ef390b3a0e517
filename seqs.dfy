/** `Array.prototype.filter` and the subsequence relation it establishes. */
module Seqs {

  /** `xs` is an order-preserving subsequence of `ys` (matched greedily from the left). */
  predicate IsSubseq<T(==)>(xs: seq<T>, ys: seq<T>)
    decreases |ys|
  {
    if xs == [] then true
    else if ys == [] then false
    else if xs[0] == ys[0] then IsSubseq(xs[1..], ys[1..])
    else IsSubseq(xs, ys[1..])
  }

  /** No element occurs twice. */
  predicate NoDuplicates<T(==)>(xs: seq<T>) {
    forall i, j :: 0 <= i < j < |xs| ==> xs[i] != xs[j]
  }

  /** Putting an element in front keeps a subsequence a subsequence. */
  lemma {:induction false} SubseqOfCons<T>(xs: seq<T>, y: T, ys: seq<T>)
    requires IsSubseq(xs, ys)
    ensures IsSubseq(xs, [y] + ys)
    decreases |ys|, 1
  {
    assert ([y] + ys)[1..] == ys;
    if xs != [] && xs[0] == y {
      SubseqDropHead(xs, ys);
    }
  }

  /** Dropping the first element of a subsequence leaves a subsequence. */
  lemma {:induction false} SubseqDropHead<T>(xs: seq<T>, ys: seq<T>)
    requires xs != [] && IsSubseq(xs, ys)
    ensures IsSubseq(xs[1..], ys)
    decreases |ys|, 0
  {
    assert [ys[0]] + ys[1..] == ys;
    if xs[0] != ys[0] {
      SubseqDropHead(xs, ys[1..]);
    }
    SubseqOfCons(xs[1..], ys[0], ys[1..]);
  }

  /** `xs.filter(keep)`: the elements that pass, in their original order. */
  function Filter<T(==,!new)>(xs: seq<T>, keep: T -> bool): (r: seq<T>)
    ensures |r| <= |xs|
    ensures forall x :: x in r <==> x in xs && keep(x)
    ensures IsSubseq(r, xs)
  {
    if xs == [] then []
    else
      var rest := Filter(xs[1..], keep);
      if keep(xs[0]) then
        assert ([xs[0]] + rest)[1..] == rest;
        [xs[0]] + rest
      else
        assert [xs[0]] + xs[1..] == xs;
        SubseqOfCons(rest, xs[0], xs[1..]);
        rest
  }

  lemma {:induction false} FilterAppend<T(!new)>(a: seq<T>, b: seq<T>, keep: T -> bool)
    ensures Filter(a + b, keep) == Filter(a, keep) + Filter(b, keep)
  {
    if a != [] {
      assert (a + b)[1..] == a[1..] + b;
      FilterAppend(a[1..], b, keep);
    } else {
      assert a + b == b;
    }
  }

  /** Filtering keeps every copy of an element that passes and none of one that fails. */
  lemma {:induction false} FilterCounts<T(!new)>(xs: seq<T>, keep: T -> bool)
    ensures forall x :: multiset(Filter(xs, keep))[x] == if keep(x) then multiset(xs)[x] else 0
  {
    if xs != [] {
      FilterCounts(xs[1..], keep);
      assert xs == [xs[0]] + xs[1..];
    }
  }

  lemma {:induction false} FilterKeepsAll<T(!new)>(xs: seq<T>, keep: T -> bool)
    requires forall x :: x in xs ==> keep(x)
    ensures Filter(xs, keep) == xs
  {
    if xs != [] { FilterKeepsAll(xs[1..], keep); }
  }

  lemma {:induction false} FilterPreservesNoDuplicates<T(!new)>(xs: seq<T>, keep: T -> bool)
    requires NoDuplicates(xs)
    ensures NoDuplicates(Filter(xs, keep))
  {
    if xs != [] {
      FilterPreservesNoDuplicates(xs[1..], keep);
      assert xs[0] !in xs[1..];
    }
  }

  /** Filtering twice keeps what passes both tests. */
  lemma {:induction false} FilterFilter<T(!new)>(xs: seq<T>, p: T -> bool, q: T -> bool, both: T -> bool)
    requires forall x :: both(x) == (p(x) && q(x))
    ensures Filter(Filter(xs, p), q) == Filter(xs, both)
  {
    if xs != [] { FilterFilter(xs[1..], p, q, both); }
  }

  /** Two tests that agree on every element filter alike. */
  lemma {:induction false} FilterSameTest<T(!new)>(xs: seq<T>, p: T -> bool, q: T -> bool)
    requires forall x :: p(x) == q(x)
    ensures Filter(xs, p) == Filter(xs, q)
  {
    if xs != [] { FilterSameTest(xs[1..], p, q); }
  }

  /** A sequence is a subsequence of itself followed by more. */
  lemma {:induction false} SubseqAppend<T>(xs: seq<T>, ys: seq<T>)
    ensures IsSubseq(xs, xs + ys)
  {
    if xs != [] {
      assert (xs + ys)[1..] == xs[1..] + ys;
      SubseqAppend(xs[1..], ys);
    }
  }

  lemma SubseqReflexive<T>(xs: seq<T>)
    ensures IsSubseq(xs, xs)
  {
    SubseqAppend(xs, []);
    assert xs + [] == xs;
  }

  lemma {:induction false} SubseqTransitive<T>(xs: seq<T>, ys: seq<T>, zs: seq<T>)
    requires IsSubseq(xs, ys) && IsSubseq(ys, zs)
    ensures IsSubseq(xs, zs)
    decreases |zs|
  {
    if xs != [] {
      if ys[0] == zs[0] && xs[0] == ys[0] {
        SubseqTransitive(xs[1..], ys[1..], zs[1..]);
      } else {
        if ys[0] == zs[0] {
          SubseqTransitive(xs, ys[1..], zs[1..]);
        } else {
          SubseqTransitive(xs, ys, zs[1..]);
        }
        if xs[0] == zs[0] {
          SubseqDropHead(xs, zs[1..]);
        }
      }
    }
  }
}
