/** The insertion sort over map keys of cmd/stress_release_surface.go (`sortedKeys`). */
module KeySort {

  /** Go's string order: lexicographic. */
  predicate Less(a: string, b: string) {
    b != "" && (a == "" || a[0] < b[0] || (a[0] == b[0] && Less(a[1..], b[1..])))
  }

  predicate AtMost(a: string, b: string) { !Less(b, a) }

  lemma {:induction false} LessTotal(a: string, b: string)
    ensures Less(a, b) || Less(b, a) || a == b
    ensures !(Less(a, b) && Less(b, a)) && !Less(a, a)
  {
    if a != "" && b != "" && a[0] == b[0] {
      LessTotal(a[1..], b[1..]);
    }
    if a != "" {
      LessTotal(a[1..], a[1..]);
    }
  }

  /** At `k`, where `a` and `b` first part, `a` ends or has the smaller character. */
  predicate PartsAt(a: string, b: string, k: nat) {
    && k <= |a| && k < |b| && (forall i :: 0 <= i < k ==> a[i] == b[i])
    && (k == |a| || (a[k] as int) < (b[k] as int))
  }

  /** The order is that of a dictionary. */
  lemma {:induction false} LessIff(a: string, b: string)
    ensures Less(a, b) <==> exists k: nat :: PartsAt(a, b, k)
  {
    if a == "" || b == "" {
      assert b != "" ==> PartsAt(a, b, 0);
    } else {
      LessIff(a[1..], b[1..]);
      if Less(a, b) {
        if a[0] < b[0] {
          assert PartsAt(a, b, 0);
        } else {
          var k: nat :| PartsAt(a[1..], b[1..], k);
          PartsLater(a, b, k + 1);
        }
      }
      if k: nat :| PartsAt(a, b, k) {
        if k > 0 {
          PartsLater(a, b, k);
        }
      }
    }
  }

  lemma PartsLater(a: string, b: string, k: nat)
    requires a != "" && b != "" && k > 0
    ensures PartsAt(a, b, k) <==> a[0] == b[0] && PartsAt(a[1..], b[1..], k - 1)
  {
    if PartsAt(a, b, k) {
      forall i | 0 <= i < k - 1 ensures a[1..][i] == b[1..][i] {
        assert a[i + 1] == b[i + 1];
      }
    }
    if a[0] == b[0] && PartsAt(a[1..], b[1..], k - 1) {
      forall i | 0 < i < k ensures a[i] == b[i] {
        assert a[1..][i - 1] == b[1..][i - 1];
      }
    }
  }

  lemma {:induction false} LessTransitive(a: string, b: string, c: string)
    requires Less(a, b) && Less(b, c)
    ensures Less(a, c)
  {
    if a != "" && a[0] == b[0] == c[0] {
      LessTransitive(a[1..], b[1..], c[1..]);
    }
  }

  lemma AtMostTransitive(a: string, b: string, c: string)
    requires AtMost(a, b) && AtMost(b, c)
    ensures AtMost(a, c)
  {
    LessTotal(a, b);
    LessTotal(b, c);
    LessTotal(a, c);
    if a != b && b != c {
      LessTransitive(a, b, c);
      LessTotal(c, a);
    }
  }

  /** Ascending among the first `n`, ignoring the element at `j`. */
  ghost predicate SortedBut(a: seq<string>, n: int, j: int) {
    forall p, q :: 0 <= p < q < n <= |a| && p != j && q != j ==> AtMost(a[p], a[q])
  }

  /** ... and the element at `j` is at most everything after it. */
  ghost predicate SinkingAt(a: seq<string>, n: int, j: int) {
    SortedBut(a, n, j) && forall q :: 0 <= j < q < n <= |a| ==> AtMost(a[j], a[q])
  }

  ghost predicate Sorted(a: seq<string>, n: int) {
    forall p, q :: 0 <= p < q < n <= |a| ==> AtMost(a[p], a[q])
  }

  function Swapped(a: seq<string>, j: int): seq<string>
    requires 0 < j < |a|
  {
    a[j := a[j - 1]][j - 1 := a[j]]
  }

  lemma SwapSinks(a: seq<string>, n: int, j: int)
    requires 0 < j < n <= |a| && SinkingAt(a, n, j) && Less(a[j], a[j - 1])
    ensures SinkingAt(Swapped(a, j), n, j - 1)
  {
    LessTotal(a[j], a[j - 1]);
  }

  lemma SwapKeeps(a: seq<string>, j: int)
    requires 0 < j < |a|
    ensures multiset(Swapped(a, j)) == multiset(a)
  {
  }

  lemma SinkStops(a: seq<string>, n: int, j: int)
    requires 0 <= j < n <= |a| && SinkingAt(a, n, j)
    requires j > 0 ==> AtMost(a[j - 1], a[j])
    ensures Sorted(a, n)
  {
    forall p | 0 <= p < j ensures AtMost(a[p], a[j]) {
      if p < j - 1 {
        AtMostTransitive(a[p], a[j - 1], a[j]);
      }
    }
  }

  method InsertionSort(out: array<string>)
    modifies out
    ensures Sorted(out[..], out.Length)
    ensures multiset(out[..]) == multiset(old(out[..]))
  {
    var i := 1;
    while i < out.Length
      invariant 1 <= i
      invariant Sorted(out[..], if i <= out.Length then i else out.Length)
      invariant multiset(out[..]) == multiset(old(out[..]))
    {
      var j := i;
      while j > 0 && Less(out[j], out[j - 1])
        invariant 0 <= j <= i
        invariant SinkingAt(out[..], i + 1, j)
        invariant multiset(out[..]) == multiset(old(out[..]))
      {
        SwapSinks(out[..], i + 1, j);
        SwapKeeps(out[..], j);
        ghost var before := out[..];
        out[j], out[j - 1] := out[j - 1], out[j];
        assert out[..] == Swapped(before, j);
        j := j - 1;
      }
      SinkStops(out[..], i + 1, j);
      i := i + 1;
    }
  }

  /** The keys, strictly ascending. */
  ghost predicate AreKeysOf(out: seq<string>, m: map<string, bool>) {
    && (forall p, q :: 0 <= p < q < |out| ==> Less(out[p], out[q]))
    && (forall k :: k in out <==> k in m)
  }

  /** The map is iterated in an arbitrary order, which the sort makes irrelevant. */
  method SortedKeys(m: map<string, bool>) returns (sorted: seq<string>)
    ensures AreKeysOf(sorted, m)
  {
    var keys: seq<string> := [];
    var left := m.Keys;
    while left != {}
      invariant left <= m.Keys
      invariant forall k :: k in keys <==> k in m.Keys && k !in left
      invariant NoRepeats(keys)
    {
      var k :| k in left;
      keys := keys + [k];
      left := left - {k};
    }
    var out := new string[|keys|](i requires 0 <= i < |keys| => keys[i]);
    assert out[..] == keys;
    InsertionSort(out);
    SortedDistinct(out[..], keys);
    sorted := out[..];
  }

  ghost predicate NoRepeats(a: seq<string>) {
    forall p, q :: 0 <= p < q < |a| ==> a[p] != a[q]
  }

  lemma {:induction false} NoRepeatsCount(a: seq<string>)
    ensures NoRepeats(a) <==> forall x :: multiset(a)[x] <= 1
  {
    if a != [] {
      var n := |a| - 1;
      var front := a[..n];
      NoRepeatsCount(front);
      assert a == front + [a[n]];
      assert multiset(a) == multiset(front) + multiset{a[n]};
      if NoRepeats(a) {
        assert a[n] !in front;
      } else if NoRepeats(front) {
        assert a[n] in front;
        assert multiset(a)[a[n]] >= 2;
      } else {
        var x :| multiset(front)[x] > 1;
        assert multiset(a)[x] > 1;
      }
    }
  }

  lemma SortedDistinct(out: seq<string>, keys: seq<string>)
    requires multiset(out) == multiset(keys) && NoRepeats(keys) && Sorted(out, |out|)
    ensures forall p, q :: 0 <= p < q < |out| ==> Less(out[p], out[q])
    ensures forall k :: k in out <==> k in keys
  {
    NoRepeatsCount(keys);
    NoRepeatsCount(out);
    forall p, q | 0 <= p < q < |out| ensures Less(out[p], out[q]) {
      LessTotal(out[p], out[q]);
    }
    forall k ensures k in out <==> k in keys {
      assert k in out <==> k in multiset(out);
      assert k in keys <==> k in multiset(keys);
    }
  }

  lemma HasMember(b: seq<string>)
    ensures b != [] ==> exists k :: k in b
  {
    if b != [] {
      assert b[0] in b;
    }
  }

  lemma HeadNotInTail(a: seq<string>)
    requires a != [] && forall p, q :: 0 <= p < q < |a| ==> Less(a[p], a[q])
    ensures a[0] !in a[1..]
  {
    LessTotal(a[0], a[0]);
    forall q | 0 < q < |a| ensures a[q] != a[0] {
      assert Less(a[0], a[q]);
    }
  }

  /** The result does not depend on the iteration order: there is only one strictly ascending list of
      a map's keys. */
  lemma {:induction false} SortedKeysUnique(a: seq<string>, b: seq<string>)
    requires forall p, q :: 0 <= p < q < |a| ==> Less(a[p], a[q])
    requires forall p, q :: 0 <= p < q < |b| ==> Less(b[p], b[q])
    requires forall k :: k in a <==> k in b
    ensures a == b
  {
    if a == [] {
      HasMember(b);
    } else {
      assert a[0] in b && b != [];
      assert b[0] in a;
      var i :| 0 <= i < |b| && b[i] == a[0];
      var j :| 0 <= j < |a| && a[j] == b[0];
      LessTotal(a[0], b[0]);
      assert a[0] == b[0];
      HeadNotInTail(a);
      HeadNotInTail(b);
      assert a == [a[0]] + a[1..] && b == [b[0]] + b[1..];
      forall k ensures k in a[1..] <==> k in b[1..] {
        assert k in a <==> k == a[0] || k in a[1..];
        assert k in b <==> k == b[0] || k in b[1..];
      }
      SortedKeysUnique(a[1..], b[1..]);
    }
  }
}
