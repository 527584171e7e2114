/** Sums of real-valued columns over a sequence of records.
    The running totals of the valuation loop are sums of this shape. */
module Sums {

  /** The sum of f over xs, accumulated from the front the way a loop does:
      the sum over a sequence is the sum over all but its last element plus
      the last element's contribution. */
  function SumOf<T>(xs: seq<T>, f: T -> real): real
    decreases |xs|
  {
    if |xs| == 0 then 0.0 else SumOf(xs[..|xs| - 1], f) + f(xs[|xs| - 1])
  }

  /** Appending one record adds its contribution. */
  lemma SumOfSnoc<T>(xs: seq<T>, x: T, f: T -> real)
    ensures SumOf(xs + [x], f) == SumOf(xs, f) + f(x)
  {
    assert (xs + [x])[..|xs|] == xs;
  }

  /** Summing over a concatenation is summing over each part. */
  lemma {:induction false} SumOfAppend<T>(xs: seq<T>, ys: seq<T>, f: T -> real)
    ensures SumOf(xs + ys, f) == SumOf(xs, f) + SumOf(ys, f)
    decreases |ys|
  {
    if |ys| == 0 {
      assert xs + ys == xs;
    } else {
      var init := ys[..|ys| - 1];
      assert (xs + ys)[..|xs + ys| - 1] == xs + init;
      assert (xs + ys)[|xs + ys| - 1] == ys[|ys| - 1];
      SumOfAppend(xs, init, f);
    }
  }

  /** Taking x out from between front and back takes out its contribution. */
  lemma SumOfSplice<T>(front: seq<T>, x: T, back: seq<T>, f: T -> real)
    ensures SumOf(front + [x] + back, f) == SumOf(front + back, f) + f(x)
  {
    SumOfAppend(front + [x], back, f);
    SumOfSnoc(front, x, f);
    SumOfAppend(front, back, f);
  }

  /** Removing the element at k takes out its contribution. */
  lemma SumOfRemoveAt<T>(ys: seq<T>, k: int, f: T -> real)
    requires 0 <= k < |ys|
    ensures SumOf(ys, f) == SumOf(ys[..k] + ys[k + 1..], f) + f(ys[k])
  {
    SpliceAt(ys, k);
    SumOfSplice(ys[..k], ys[k], ys[k + 1..], f);
  }

  /** A sequence is its part before k, its element at k and its part after k. */
  lemma SpliceAt<T>(ys: seq<T>, k: int)
    requires 0 <= k < |ys|
    ensures ys == ys[..k] + [ys[k]] + ys[k + 1..]
  {
  }

  /** Taking out the element at k takes one copy of it out of the multiset. */
  lemma MultisetRemoveAt<T>(ys: seq<T>, k: int)
    requires 0 <= k < |ys|
    ensures multiset(ys[..k] + ys[k + 1..]) == multiset(ys) - multiset{ys[k]}
  {
    SpliceAt(ys, k);
  }

  /** In a permutation of a non-empty xs, some position k holds the last
      element of xs, and the rest of the two sequences are permutations of
      each other. */
  lemma MatchLast<T>(xs: seq<T>, ys: seq<T>) returns (k: int)
    requires |xs| > 0 && multiset(xs) == multiset(ys)
    ensures 0 <= k < |ys| && ys[k] == xs[|xs| - 1]
    ensures multiset(xs[..|xs| - 1]) == multiset(ys[..k] + ys[k + 1..])
  {
    var n := |xs| - 1;
    assert xs[n] in multiset(ys) by {
      assert xs[n] in multiset(xs);
    }
    k :| 0 <= k < |ys| && ys[k] == xs[n];
    MultisetRemoveAt(xs, n);
    MultisetRemoveAt(ys, k);
    assert xs[..n] + xs[n + 1..] == xs[..n];
  }

  /** The sum does not depend on the order of the records: any permutation
      of xs has the same sum. */
  lemma {:induction false} SumOfPermutation<T>(xs: seq<T>, ys: seq<T>, f: T -> real)
    requires multiset(xs) == multiset(ys)
    ensures SumOf(xs, f) == SumOf(ys, f)
    decreases |xs|
  {
    if |xs| == 0 {
      assert |multiset(ys)| == 0;
      assert ys == [];
    } else {
      var n := |xs| - 1;
      var k := MatchLast(xs, ys);
      SumOfPermutation(xs[..n], ys[..k] + ys[k + 1..], f);
      SumOfRemoveAt(ys, k, f);
    }
  }
}
