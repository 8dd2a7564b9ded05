/** Vocabulary shared by the other modules: optional values and small facts about sequences. */
module Common {

  /** A nullable value of the source: `None` stands for `null` or `undefined`. */
  datatype Option<+T> = None | Some(value: T)

  /** The elements of `xs` that satisfy `p`, in order. */
  function Filter<T>(xs: seq<T>, p: T -> bool): seq<T> {
    if xs == [] then []
    else if p(xs[0]) then [xs[0]] + Filter(xs[1..], p)
    else Filter(xs[1..], p)
  }

  /** `Filter` distributes over concatenation. */
  lemma {:induction false} FilterConcat<T>(a: seq<T>, b: seq<T>, p: T -> bool)
    ensures Filter(a + b, p) == Filter(a, p) + Filter(b, p)
  {
    if a == [] {
      assert a + b == b;
    } else {
      FilterConcat(a[1..], b, p);
      assert (a + b)[1..] == a[1..] + b;
    }
  }

  /** An element survives `Filter` exactly when it was there and satisfies the predicate. */
  lemma {:induction false} FilterMembers<T>(xs: seq<T>, p: T -> bool)
    ensures forall x :: x in Filter(xs, p) <==> x in xs && p(x)
  {
    if xs != [] {
      FilterMembers(xs[1..], p);
      assert forall x :: x in xs <==> x == xs[0] || x in xs[1..];
    }
  }

  /** Filtering twice by the same predicate changes nothing. */
  lemma {:induction false} FilterFilter<T>(xs: seq<T>, p: T -> bool)
    ensures Filter(Filter(xs, p), p) == Filter(xs, p)
  {
    if xs != [] {
      FilterFilter(xs[1..], p);
      if p(xs[0]) {
        assert Filter(xs, p)[1..] == Filter(xs[1..], p);
      }
    }
  }
}
