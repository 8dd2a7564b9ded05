/** The callers of `ensure` in src/resources.ts: documented as consumers of their request, counted as none. */
module ResourceWaiters {
  import opened Common
  import opened Resources
  import opened ResourceOwnership
  import opened ResourceRefinement

  /** The `ensure` calls of the run for `key` whose request has not settled in `w`. */
  function Waiting(start: World, steps: seq<Step>, key: Key, w: World): nat {
    if steps == [] then 0
    else
      Waiting(start, steps[..|steps| - 1], key, w) + if WaitsAt(start, steps, key, w, |steps| - 1) then 1 else 0
  }

  /** The `n`-th call of the run is an `ensure` of the key that joined or started a request still unsettled in `w`. */
  predicate WaitsAt(start: World, steps: seq<Step>, key: Key, w: World, n: nat) {
    && n < |steps| && steps[n].Ensure? && steps[n].key == key
    && var answer := AnswerTo(Exec(start, steps[..n]), key, steps[n].force); !answer.Hit? && IsPending(w, answer.f)
  }

  lemma WaitsAtFront(start: World, steps: seq<Step>, key: Key, w: World, n: nat)
    requires n < |steps| - 1
    ensures WaitsAt(start, steps[..|steps| - 1], key, w, n) <==> WaitsAt(start, steps, key, w, n)
  {
    assert steps[..|steps| - 1][..n] == steps[..n];
  }

  lemma {:induction false} WaitsCounts(start: World, steps: seq<Step>, key: Key, w: World, n: nat)
    requires WaitsAt(start, steps, key, w, n)
    ensures Waiting(start, steps, key, w) > 0
  {
    if n < |steps| - 1 {
      WaitsAtFront(start, steps, key, w, n);
      WaitsCounts(start, steps[..|steps| - 1], key, w, n);
    }
  }

  lemma {:induction false} SomebodyWaits(start: World, steps: seq<Step>, key: Key, w: World) returns (n: nat)
    requires Waiting(start, steps, key, w) > 0
    ensures WaitsAt(start, steps, key, w, n)
  {
    var last := |steps| - 1;
    if WaitsAt(start, steps, key, w, last) {
      n := last;
    } else {
      n := SomebodyWaits(start, steps[..last], key, w);
      WaitsAtFront(start, steps, key, w, n);
    }
  }

  // ---- Every unsettled request has a waiting caller --------------------------------------

  lemma NewFetchKey(w: World, step: Step)
    requires |Next(w, step).fetches| > |w.fetches|
    ensures step.Ensure? && AnswerTo(w, step.key, step.force) == Started(|w.fetches|)
    ensures |Next(w, step).fetches| == |w.fetches| + 1 && Next(w, step).fetches[|w.fetches|].key == step.key
  {
  }

  /** The call that started request `f`. */
  lemma {:induction false} StarterOf(start: World, steps: seq<Step>, f: nat) returns (n: nat)
    requires |start.fetches| <= f < |Exec(start, steps).fetches|
    ensures n < |steps| && steps[n].Ensure? && steps[n].key == Exec(start, steps).fetches[f].key
    ensures AnswerTo(Exec(start, steps[..n]), steps[n].key, steps[n].force) == Started(f)
  {
    var last := |steps| - 1;
    var front := steps[..last];
    var w := Exec(start, front);
    NextGrows(w, steps[last]);
    if f < |w.fetches| {
      n := StarterOf(start, front, f);
      assert front[..n] == steps[..n];
      assert SameFetch(w.fetches[f], Next(w, steps[last]).fetches[f]);
    } else {
      NewFetchKey(w, steps[last]);
      n := last;
    }
  }

  lemma PendingIsWaitedFor(now: int, steps: seq<Step>, f: nat)
    requires IsPending(Exec(Initial(now), steps), f)
    ensures var w := Exec(Initial(now), steps); Waiting(Initial(now), steps, w.fetches[f].key, w) > 0
  {
    var w := Exec(Initial(now), steps);
    var n := StarterOf(Initial(now), steps, f);
    WaitsCounts(Initial(now), steps, w.fetches[f].key, w, n);
  }

  /** In every run, resets included: whenever a grace timer aborts a request that still runs, at least one caller of
      `ensure` is waiting for that key. The callers the ownership rule promises to protect are the ones it ignores. */
  lemma AbortHitsWaiting(now: int, steps: seq<Step>, t: nat)
    requires var w := Exec(Initial(now), steps); AbortTarget(w, t).Some? && IsPending(w, AbortTarget(w, t).value)
    ensures var w := Exec(Initial(now), steps);
            Waiting(Initial(now), steps, w.fetches[AbortTarget(w, t).value].key, w) > 0
  {
    PendingIsWaitedFor(now, steps, AbortTarget(Exec(Initial(now), steps), t).value);
  }

  // ---- Who is waited for is in flight ----------------------------------------------------

  /** Every request was started on the entry its key still has. */
  ghost predicate FetchesCurrent(w: World) {
    forall f :: 0 <= f < |w.fetches| ==> w.fetches[f].key in w.entries && w.entries[w.fetches[f].key] == w.fetches[f].entry
  }

  lemma NewFetchEntry(w: World, step: Step)
    requires |Next(w, step).fetches| > |w.fetches|
    ensures var w', f := Next(w, step), |w.fetches|;
            w'.fetches[f].key in w'.entries && w'.entries[w'.fetches[f].key] == w'.fetches[f].entry
  {
  }

  lemma FetchesCurrentNext(w: World, step: Step)
    requires FetchesCurrent(w) && !step.Reset?
    ensures FetchesCurrent(Next(w, step))
  {
    var w' := Next(w, step);
    NextEntries(w, step);
    NextGrows(w, step);
    forall f | 0 <= f < |w'.fetches|
      ensures w'.fetches[f].key in w'.entries && w'.entries[w'.fetches[f].key] == w'.fetches[f].entry
    {
      if f < |w.fetches| {
        assert SameFetch(w.fetches[f], w'.fetches[f]);
      } else {
        NewFetchKey(w, step);
        NewFetchEntry(w, step);
      }
    }
  }

  lemma {:induction false} ResetFreeFetches(now: int, steps: seq<Step>)
    requires ResetFree(steps)
    ensures FetchesCurrent(Exec(Initial(now), steps))
  {
    if steps != [] {
      ResetFreeFetches(now, steps[..|steps| - 1]);
      FetchesCurrentNext(Exec(Initial(now), steps[..|steps| - 1]), steps[|steps| - 1]);
    }
  }

  lemma {:induction false} GrowsFrom(start: World, steps: seq<Step>, m: nat)
    requires m <= |steps|
    ensures Grows(Exec(start, steps[..m]), Exec(start, steps))
  {
    if m < |steps| {
      var front := steps[..|steps| - 1];
      GrowsFrom(start, front, m);
      assert front[..m] == steps[..m];
      NextGrows(Exec(start, front), steps[|steps| - 1]);
      GrowsTransitive(Exec(start, steps[..m]), Exec(start, front), Exec(start, steps));
    } else {
      assert steps[..m] == steps;
    }
  }

  lemma AfterEnsure(start: World, steps: seq<Step>, n: nat)
    requires n < |steps| && steps[n].Ensure?
    ensures Exec(start, steps[..n + 1]) == EnsuredFresh(Exec(start, steps[..n]), steps[n].key, steps[n].force)
  {
    assert steps[..n + 1] == steps[..n] + [steps[n]];
    ExecSnoc(start, steps[..n], steps[n]);
  }

  lemma AnsweredLater(mid: World, w: World, key: Key, force: bool)
    requires Inv(mid) && !AnswerTo(mid, key, force).Hit? && Grows(EnsuredFresh(mid, key, force), w)
    ensures AnswerTo(mid, key, force).f < |w.fetches| && w.fetches[AnswerTo(mid, key, force).f].key == key
  {
    AnsweredKey(mid, key, force);
    SameKey(EnsuredFresh(mid, key, force), w, AnswerTo(mid, key, force).f);
  }

  /** The request a call waits for belongs to the key of the call. */
  lemma WaitedKey(now: int, steps: seq<Step>, key: Key, n: nat)
    requires WaitsAt(Initial(now), steps, key, Exec(Initial(now), steps), n)
    ensures var w, answer := Exec(Initial(now), steps), AnswerTo(Exec(Initial(now), steps[..n]), key, steps[n].force);
            w.fetches[answer.f].key == key
  {
    assert Inv(Initial(now));
    ExecKeeps(Initial(now), steps[..n]);
    GrowsFrom(Initial(now), steps, n + 1);
    AfterEnsure(Initial(now), steps, n);
    AnsweredLater(Exec(Initial(now), steps[..n]), Exec(Initial(now), steps), key, steps[n].force);
  }

  lemma SameKey(w: World, w': World, f: nat)
    requires Grows(w, w') && f < |w.fetches|
    ensures w'.fetches[f].key == w.fetches[f].key
  {
    assert SameFetch(w.fetches[f], w'.fetches[f]);
  }

  lemma AnsweredKey(w: World, key: Key, force: bool)
    requires Inv(w) && !AnswerTo(w, key, force).Hit?
    ensures var w', f := EnsuredFresh(w, key, force), AnswerTo(w, key, force).f;
            f < |w'.fetches| && w'.fetches[f].key == key
  {
    if key in w.entries {
      assert EntryOk(w, w.entries[key]);
    }
  }

  /** In every reset-free run somebody waits for the key exactly while a request is in flight for it. */
  lemma WaitingIffInFlight(now: int, steps: seq<Step>, key: Key)
    requires ResetFree(steps)
    ensures var w := Exec(Initial(now), steps);
            Waiting(Initial(now), steps, key, w) > 0 <==> EntryOf(w, key).inFlight.Some?
  {
    var w := Exec(Initial(now), steps);
    assert Inv(Initial(now));
    ExecKeeps(Initial(now), steps);
    ResetFreeFetches(now, steps);
    if Waiting(Initial(now), steps, key, w) > 0 {
      var n := SomebodyWaits(Initial(now), steps, key, w);
      WaitedKey(now, steps, key, n);
      assert FetchOk(w, AnswerTo(Exec(Initial(now), steps[..n]), key, steps[n].force).f);
    }
    if EntryOf(w, key).inFlight.Some? {
      assert EntryOk(w, w.entries[key]);
      PendingIsWaitedFor(now, steps, EntryOf(w, key).inFlight.value);
    }
  }

  /** In every reset-free run the documented count, subscribers and waiting `ensure` callers together, is the actual
      one exactly while no request is in flight for the key. */
  lemma DocumentedCountIff(now: int, steps: seq<Step>, key: Key)
    requires ResetFree(steps)
    ensures var w := Exec(Initial(now), steps);
            EntryOf(w, key).consumers == CountKey(w.subs, key) + Waiting(Initial(now), steps, key, w) <==>
            EntryOf(w, key).inFlight.None?
  {
    ResetFreeConsumers(now, steps, key);
    WaitingIffInFlight(now, steps, key);
  }
}
