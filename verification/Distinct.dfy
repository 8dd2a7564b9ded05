/** Order-preserving deduplication by a key: the loops with a `seen` set compute this. */
module Distinct {

  predicate HasKey<T>(xs: seq<T>, key: T -> string, k: string) {
    exists i :: 0 <= i < |xs| && key(xs[i]) == k
  }

  /** The elements of `xs` whose key no earlier element has, in order. */
  function DistinctBy<T>(xs: seq<T>, key: T -> string): seq<T> {
    if xs == [] then []
    else
      var front := DistinctBy(xs[..|xs| - 1], key);
      var x := xs[|xs| - 1];
      if HasKey(front, key, key(x)) then front else front + [x]
  }

  ghost predicate PairwiseDistinct<T>(xs: seq<T>, key: T -> string) {
    forall i, j :: 0 <= i < j < |xs| ==> key(xs[i]) != key(xs[j])
  }

  lemma DistinctBySnoc<T>(xs: seq<T>, x: T, key: T -> string)
    ensures DistinctBy(xs + [x], key) ==
            if HasKey(DistinctBy(xs, key), key, key(x)) then DistinctBy(xs, key) else DistinctBy(xs, key) + [x]
  {
    assert (xs + [x])[..|xs|] == xs;
  }

  lemma HasKeySnoc<T>(xs: seq<T>, x: T, key: T -> string, k: string)
    ensures HasKey(xs + [x], key, k) <==> HasKey(xs, key, k) || key(x) == k
  {
    if HasKey(xs, key, k) {
      var i :| 0 <= i < |xs| && key(xs[i]) == k;
      assert key((xs + [x])[i]) == k;
    }
    assert (xs + [x])[|xs|] == x;
  }

  /** No key is lost, and none is invented. */
  lemma {:induction false} DistinctByKeys<T>(xs: seq<T>, key: T -> string, k: string)
    ensures HasKey(DistinctBy(xs, key), key, k) <==> HasKey(xs, key, k)
  {
    if xs != [] {
      var n := |xs| - 1;
      DistinctByKeys(xs[..n], key, k);
      assert xs == xs[..n] + [xs[n]];
      HasKeySnoc(xs[..n], xs[n], key, k);
      HasKeySnoc(DistinctBy(xs[..n], key), xs[n], key, k);
    }
  }

  lemma {:induction false} DistinctBySubset<T>(xs: seq<T>, key: T -> string)
    ensures forall x :: x in DistinctBy(xs, key) ==> x in xs
  {
    if xs != [] {
      DistinctBySubset(xs[..|xs| - 1], key);
    }
  }

  lemma {:induction false} DistinctByPairwise<T>(xs: seq<T>, key: T -> string)
    ensures PairwiseDistinct(DistinctBy(xs, key), key)
  {
    if xs != [] {
      DistinctByPairwise(xs[..|xs| - 1], key);
    }
  }

  /** A list without repeated keys is left alone. */
  lemma {:induction false} DistinctByFixed<T>(xs: seq<T>, key: T -> string)
    requires PairwiseDistinct(xs, key)
    ensures DistinctBy(xs, key) == xs
  {
    if xs != [] {
      var n := |xs| - 1;
      DistinctByFixed(xs[..n], key);
    }
  }

  /** Deduplicating early or late is the same. */
  lemma {:induction false} DistinctByAbsorbs<T>(xs: seq<T>, ys: seq<T>, key: T -> string)
    ensures DistinctBy(DistinctBy(xs, key) + ys, key) == DistinctBy(xs + ys, key)
  {
    if ys == [] {
      assert DistinctBy(xs, key) + ys == DistinctBy(xs, key) && xs + ys == xs;
      DistinctByPairwise(xs, key);
      DistinctByFixed(DistinctBy(xs, key), key);
    } else {
      var n := |ys| - 1;
      DistinctByAbsorbs(xs, ys[..n], key);
      assert (DistinctBy(xs, key) + ys)[..|DistinctBy(xs, key)| + n] == DistinctBy(xs, key) + ys[..n];
      assert (xs + ys)[..|xs| + n] == xs + ys[..n];
    }
  }

  /** What was kept of a prefix is a prefix of what is kept of the whole. */
  lemma {:induction false} DistinctByPrefix<T>(xs: seq<T>, ys: seq<T>, key: T -> string)
    ensures DistinctBy(xs, key) <= DistinctBy(xs + ys, key)
  {
    if ys == [] {
      assert xs + ys == xs;
    } else {
      var n := |ys| - 1;
      DistinctByPrefix(xs, ys[..n], key);
      assert (xs + ys)[..|xs| + n] == xs + ys[..n];
    }
  }

  function Take<T>(xs: seq<T>, n: nat): seq<T> {
    if |xs| <= n then xs else xs[..n]
  }

  /** Capping an intermediate list at `n` does not change the first `n` of the final one. */
  lemma CappedAbsorbs<T>(xs: seq<T>, ys: seq<T>, key: T -> string, n: nat)
    ensures Take(DistinctBy(Take(DistinctBy(xs, key), n) + ys, key), n) == Take(DistinctBy(xs + ys, key), n)
  {
    var d := DistinctBy(xs, key);
    DistinctByAbsorbs(xs, ys, key);
    if |d| > n {
      DistinctByPairwise(xs, key);
      DistinctByFixed(d[..n], key);
      DistinctByPrefix(d[..n], ys, key);
      DistinctByPrefix(xs, ys, key);
    }
  }
}
