/** Who keeps a shared request alive: subscriptions, the grace timer and the abort of src/resources.ts. */
module ResourceOwnership {
  import opened Common
  import opened Resources

  /** The live subscriptions made on entry `i`. */
  function CountOn(subs: seq<Sub>, i: nat): nat {
    if subs == [] then 0
    else
      var last := subs[|subs| - 1];
      CountOn(subs[..|subs| - 1], i) + if last.live && last.entry == i then 1 else 0
  }

  /** The live subscriptions of `key`. */
  function CountKey(subs: seq<Sub>, key: Key): nat {
    if subs == [] then 0
    else
      var last := subs[|subs| - 1];
      CountKey(subs[..|subs| - 1], key) + if last.live && last.key == key then 1 else 0
  }

  lemma CountSnoc(subs: seq<Sub>, sub: Sub, i: nat)
    ensures CountOn(subs + [sub], i) == CountOn(subs, i) + if sub.live && sub.entry == i then 1 else 0
  {
    assert (subs + [sub])[..|subs|] == subs;
  }

  /** Ending one subscription takes it out of the count of its entry. */
  lemma {:induction false} CountEnd(subs: seq<Sub>, s: nat, i: nat)
    requires s < |subs| && subs[s].live
    ensures CountOn(subs[s := subs[s].(live := false)], i) == CountOn(subs, i) - if subs[s].entry == i then 1 else 0
  {
    var n := |subs| - 1;
    var subs' := subs[s := subs[s].(live := false)];
    if s < n {
      CountEnd(subs[..n], s, i);
      assert subs'[..n] == subs[..n][s := subs[s].(live := false)];
    } else {
      assert subs'[..n] == subs[..n];
    }
  }

  lemma {:induction false} CountNone(subs: seq<Sub>, i: nat)
    ensures CountOn(subs, i) == 0 <==> forall s :: 0 <= s < |subs| && subs[s].entry == i ==> !subs[s].live
  {
    if subs != [] {
      var n := |subs| - 1;
      CountNone(subs[..n], i);
      assert forall s :: 0 <= s < n ==> subs[..n][s] == subs[s];
    }
  }

  /** Every reachable entry counts exactly its own live subscriptions. */
  ghost predicate Owned(w: World) {
    forall k :: k in w.entries ==> At(w, w.entries[k]).consumers == CountOn(w.subs, w.entries[k])
  }

  /** An unsubscribe whose entry was replaced by a reset and whose key's present entry has a consumer. */
  predicate IsStaleRelease(w: World, step: Step) {
    && step.Unsubscribe? && step.s < |w.subs| && w.subs[step.s].live
    && w.subs[step.s].key in w.entries
    && w.entries[w.subs[step.s].key] != w.subs[step.s].entry
    && EntryOf(w, w.subs[step.s].key).consumers > 0
  }

  /** The counts survive when neither the subscriptions nor the consumers of reachable entries change. */
  lemma SameCountsOwned(w: World, w': World)
    requires Owned(w) && EntriesOk(w) && w'.subs == w.subs
    requires forall k :: k in w'.entries ==> k in w.entries && w'.entries[k] == w.entries[k]
    requires forall k :: k in w'.entries ==> At(w', w'.entries[k]).consumers == At(w, w.entries[k]).consumers
    ensures Owned(w')
  {
  }

  lemma EnsuredOwned(w: World, key: Key)
    requires Owned(w) && Inv(w)
    ensures Owned(Ensured(w, key))
  {
    var w1 := Ensured(w, key);
    CountNone(w.subs, |w.heap|);
    forall k | k in w1.entries ensures At(w1, w1.entries[k]).consumers == CountOn(w1.subs, w1.entries[k]) {
      if k in w.entries {
        assert w1.entries[k] == w.entries[k];
      }
    }
  }

  lemma AttachedCounts(w: World, key: Key, listener: Listener, k: Key)
    requires EntriesOk(w) && key in w.entries && k in w.entries
    ensures var w' := Attached(w, key, listener);
            && w'.entries == w.entries && w'.subs == w.subs + [Sub(w.entries[key], key, listener, true)]
            && At(w', w.entries[k]).consumers == At(w, w.entries[k]).consumers + if k == key then 1 else 0
  {
  }

  lemma AttachedOwned(w: World, key: Key, listener: Listener)
    requires Owned(w) && EntriesOk(w) && key in w.entries
    ensures Owned(Attached(w, key, listener))
  {
    var w' := Attached(w, key, listener);
    forall k | k in w.entries
      ensures w'.entries == w.entries && At(w', w.entries[k]).consumers == CountOn(w'.subs, w.entries[k])
    {
      AttachedCounts(w, key, listener, k);
      CountSnoc(w.subs, Sub(w.entries[key], key, listener, true), w.entries[k]);
    }
    AttachedCounts(w, key, listener, key);
  }

  lemma SubscribedOwned(w: World, key: Key, listener: Listener)
    requires Owned(w) && Inv(w)
    ensures Owned(Subscribed(w, key, listener))
  {
    EnsuredOwned(w, key);
    EnsuredKeeps(w, key);
    AttachedOwned(Ensured(w, key), key, listener);
  }

  /** Ending a subscription counts its key down, whatever entry the subscription was made on. */
  lemma UnsubscribedCounts(w: World, s: nat, k: Key)
    requires Inv(w) && s < |w.subs| && w.subs[s].live && k in w.entries
    ensures var w', sub, i := Unsubscribed(w, s), w.subs[s], w.entries[k];
            && w'.entries == w.entries
            && At(w', i).consumers == At(w, i).consumers - (if k == sub.key && At(w, i).consumers > 0 then 1 else 0)
            && CountOn(w'.subs, i) == CountOn(w.subs, i) - if sub.entry == i then 1 else 0
  {
    CountEnd(w.subs, s, w.entries[k]);
  }

  /** An unsubscribe keeps the counts exactly when it is not a stale release. */
  lemma UnsubscribedOwnedIff(w: World, s: nat)
    requires Owned(w) && Inv(w)
    ensures Owned(Unsubscribed(w, s)) <==> !IsStaleRelease(w, Unsubscribe(s))
  {
    if s < |w.subs| && w.subs[s].live {
      var sub, w' := w.subs[s], Unsubscribed(w, s);
      UnsubscribedEntries(w, s);
      forall k | k in w.entries
        ensures At(w', w.entries[k]).consumers == CountOn(w'.subs, w.entries[k]) <==>
                !(k == sub.key && IsStaleRelease(w, Unsubscribe(s)))
      {
        UnsubscribedCounts(w, s, k);
        CountNone(w.subs, w.entries[k]);
      }
    }
  }

  lemma NotifiedOwned(w: World, key: Key)
    requires Owned(w) && Inv(w)
    ensures Owned(Notified(w, key))
  {
    EnsuredOwned(w, key);
    EnsuredKeeps(w, key);
    SameCountsOwned(Ensured(w, key), Notified(w, key));
  }

  lemma LaunchedOwned(w: World, key: Key)
    requires Owned(w) && Inv(w) && key in w.entries && EntryOf(w, key).inFlight.None?
    ensures Owned(Launched(w, key)) && Inv(Launched(w, key))
  {
    LaunchedKeeps(w, key);
    SameCountsOwned(w, Launched(w, key));
  }

  lemma EnsuredFreshOwned(w: World, key: Key, force: bool)
    requires Owned(w) && Inv(w)
    ensures Owned(EnsuredFresh(w, key, force))
  {
    EnsuredOwned(w, key);
    EnsuredKeeps(w, key);
    if AnswerTo(w, key, force).Started? {
      var w1 := Ensured(w, key);
      LaunchedOwned(w1, key);
      NotifiedOwned(Launched(w1, key), key);
    }
  }

  lemma SettledOwned(w: World, f: nat, result: Result)
    requires Owned(w) && Inv(w)
    ensures Owned(Settled(w, f, result))
  {
    if IsPending(w, f) {
      LandedKeeps(w, f, result);
      SameCountsOwned(w, Landed(w, f, result));
      NotifiedOwned(Landed(w, f, result), w.fetches[f].key);
    }
  }

  lemma InvalidatedOwned(w: World, key: Key)
    requires Owned(w) && Inv(w)
    ensures Owned(Invalidated(w, key))
  {
    EnsuredOwned(w, key);
    EnsuredKeeps(w, key);
    SameCountsOwned(Ensured(w, key), Invalidated(w, key));
  }

  lemma WasResetOwned(w: World, key: Key)
    requires Owned(w) && Inv(w)
    ensures Owned(WasReset(w, key))
  {
    SameCountsOwned(w, WasReset(w, key));
  }

  lemma FiredOwned(w: World, t: nat)
    requires Owned(w) && Inv(w)
    ensures Owned(Fired(w, t))
  {
    SameCountsOwned(w, Fired(w, t));
  }

  lemma HousekeepingOwned(w: World, step: Step)
    requires Owned(w) && Inv(w) && IsHousekeeping(step)
    ensures Owned(Next(w, step))
  {
    match step
    case Invalidate(k) => InvalidatedOwned(w, k);
    case Get(k) => EnsuredOwned(w, k);
    case Reset(k) => WasResetOwned(w, k);
    case FireTimer(t) => FiredOwned(w, t);
    case _ =>
  }

  lemma OtherStepsOwned(w: World, step: Step)
    requires Owned(w) && Inv(w) && !step.Subscribe? && !step.Unsubscribe?
    ensures Owned(Next(w, step))
  {
    match step
    case Ensure(k, force) => EnsuredFreshOwned(w, k, force);
    case Settle(f, r) => SettledOwned(w, f, r);
    case _ => HousekeepingOwned(w, step);
  }

  /** Every step keeps the counts, except a stale release, which always breaks them. */
  lemma NextOwnedIff(w: World, step: Step)
    requires Owned(w) && Inv(w)
    ensures Owned(Next(w, step)) <==> !IsStaleRelease(w, step)
  {
    if step.Subscribe? {
      SubscribedOwned(w, step.key, step.listener);
    } else if step.Unsubscribe? {
      UnsubscribedOwnedIff(w, step.s);
    } else {
      OtherStepsOwned(w, step);
    }
  }

  ghost predicate NoStaleRelease(w: World, steps: seq<Step>) {
    forall n :: 0 <= n < |steps| ==> !IsStaleRelease(Exec(w, steps[..n]), steps[n])
  }

  lemma NoStaleFront(w: World, steps: seq<Step>)
    requires steps != [] && NoStaleRelease(w, steps)
    ensures NoStaleRelease(w, steps[..|steps| - 1])
  {
    var front := steps[..|steps| - 1];
    forall n | 0 <= n < |front| ensures !IsStaleRelease(Exec(w, front[..n]), front[n]) {
      assert front[..n] == steps[..n];
    }
  }

  /** In every run without a stale release, resets included, each reachable entry counts exactly the
      subscriptions on it that were not ended yet. */
  lemma {:induction false} ConsumersCountSubscriptions(w: World, steps: seq<Step>)
    requires Owned(w) && Inv(w) && NoStaleRelease(w, steps)
    ensures Owned(Exec(w, steps))
  {
    if steps != [] {
      var n := |steps| - 1;
      NoStaleFront(w, steps);
      ConsumersCountSubscriptions(w, steps[..n]);
      ExecKeeps(w, steps[..n]);
      NextOwnedIff(Exec(w, steps[..n]), steps[n]);
    }
  }

  // ---- Reset-free runs -------------------------------------------------------------------

  ghost predicate ResetFree(steps: seq<Step>) {
    forall n :: 0 <= n < |steps| ==> !steps[n].Reset?
  }

  /** Every subscription was made on the entry its key still has. */
  ghost predicate SubsCurrent(w: World) {
    forall s :: 0 <= s < |w.subs| ==> w.subs[s].key in w.entries && w.entries[w.subs[s].key] == w.subs[s].entry
  }

  lemma {:induction false} ResetFreeKeepsEntries(now: int, steps: seq<Step>)
    requires ResetFree(steps)
    ensures SubsCurrent(Exec(Initial(now), steps))
  {
    if steps != [] {
      var front, step := steps[..|steps| - 1], steps[|steps| - 1];
      ResetFreeKeepsEntries(now, front);
      var w := Exec(Initial(now), front);
      SubsCurrentNext(w, step);
    }
  }

  lemma SubsCurrentNext(w: World, step: Step)
    requires SubsCurrent(w) && !step.Reset?
    ensures SubsCurrent(Next(w, step))
  {
    var w' := Next(w, step);
    NextEntries(w, step);
    NextGrows(w, step);
    forall s | 0 <= s < |w'.subs|
      ensures w'.subs[s].key in w'.entries && w'.entries[w'.subs[s].key] == w'.subs[s].entry
    {
      if s < |w.subs| {
        assert SameSub(w.subs[s], w'.subs[s]);
      } else {
        NewSub(w, step);
      }
    }
  }

  lemma OthersRecordNothing(w: World, step: Step)
    requires !step.Subscribe?
    ensures |Next(w, step).subs| == |w.subs|
  {
  }

  /** Only subscribing records a subscription: on the entry its key has from then on. */
  lemma NewSub(w: World, step: Step)
    requires |Next(w, step).subs| > |w.subs|
    ensures step.Subscribe? && |Next(w, step).subs| == |w.subs| + 1
    ensures var w', s := Next(w, step), |w.subs|;
            w'.subs[s].key == step.key && w'.subs[s].live && step.key in w'.entries && w'.entries[step.key] == w'.subs[s].entry
  {
    if !step.Subscribe? {
      OthersRecordNothing(w, step);
    }
  }

  lemma {:induction false} ResetFreeNoStale(now: int, steps: seq<Step>)
    requires ResetFree(steps)
    ensures NoStaleRelease(Initial(now), steps)
  {
    forall n | 0 <= n < |steps| ensures !IsStaleRelease(Exec(Initial(now), steps[..n]), steps[n]) {
      ResetFreeKeepsEntries(now, steps[..n]);
    }
  }

  lemma {:induction false} CountByKey(w: World, subs: seq<Sub>, key: Key)
    requires EntriesOk(w) && key in w.entries
    requires forall s :: 0 <= s < |subs| ==> subs[s].key in w.entries && w.entries[subs[s].key] == subs[s].entry
    ensures CountOn(subs, w.entries[key]) == CountKey(subs, key)
  {
    if subs != [] {
      CountByKey(w, subs[..|subs| - 1], key);
    }
  }

  lemma {:induction false} CountKeyNone(w: World, subs: seq<Sub>, key: Key)
    requires key !in w.entries
    requires forall s :: 0 <= s < |subs| ==> subs[s].key in w.entries
    ensures CountKey(subs, key) == 0
  {
    if subs != [] {
      CountKeyNone(w, subs[..|subs| - 1], key);
    }
  }

  lemma InitialIsSound(now: int)
    ensures Inv(Initial(now)) && Owned(Initial(now))
  {
  }

  /** In every reset-free run, `consumers` of a key is the number of its subscriptions not yet ended. */
  lemma ResetFreeConsumers(now: int, steps: seq<Step>, key: Key)
    requires ResetFree(steps)
    ensures var w := Exec(Initial(now), steps); EntryOf(w, key).consumers == CountKey(w.subs, key)
  {
    var w := Exec(Initial(now), steps);
    InitialIsSound(now);
    ResetFreeNoStale(now, steps);
    ResetFreeKeepsEntries(now, steps);
    ExecKeeps(Initial(now), steps);
    ConsumersCountSubscriptions(Initial(now), steps);
    if key in w.entries {
      CountByKey(w, w.subs, key);
    } else {
      CountKeyNone(w, w.subs, key);
    }
  }

  /** Ending a subscription twice is ending it once. */
  lemma DoubleUnsubscribe(w: World, s: nat)
    ensures Unsubscribed(Unsubscribed(w, s), s) == Unsubscribed(w, s)
  {
  }

  // ---- The grace timer -------------------------------------------------------------------

  /** When the last consumer leaves: in a world that counts right, ending a subscription leaves its
      entry with an armed timer exactly when nobody else is subscribed and a request is in flight. */
  lemma LastLeaverArms(w: World, s: nat)
    requires Owned(w) && Inv(w) && s < |w.subs| && w.subs[s].live
    requires w.subs[s].key in w.entries && w.entries[w.subs[s].key] == w.subs[s].entry
    ensures var w', i := Unsubscribed(w, s), w.subs[s].entry;
            At(w', i).cancelTimer.Some? <==> CountOn(w'.subs, i) == 0 && At(w, i).inFlight.Some?
  {
    var i := w.subs[s].entry;
    CountEnd(w.subs, s, i);
    CountNone(w.subs, i);
    assert EntryOk(w, i);
    assert At(w, i).consumers > 0;
  }

  /** The request an unsubscribe arms its timer for is the one in flight at that moment. */
  lemma ArmingCapturesInFlight(w: World, s: nat)
    requires Inv(w) && |Unsubscribed(w, s).timers| > |w.timers|
    ensures var timer := Unsubscribed(w, s).timers[|w.timers|];
            && |Unsubscribed(w, s).timers| == |w.timers| + 1
            && timer.controller == At(w, timer.entry).inFlight && timer.controller.Some?
  {
    var key := w.subs[s].key;
    assert EntryOk(w, w.entries[key]);
  }

  /** The abort is delivered only with no consumer, only to the captured request, and it reaches a
      request that still runs exactly when the captured one has not settled. */
  lemma AbortHitsOnlyCaptured(w: World, t: nat)
    requires Inv(w) && IsArmed(w, t)
    ensures var captured := w.timers[t].controller;
            && captured.Some?
            && (forall f :: 0 <= f < |w.fetches| && captured != Some(f) ==> Fired(w, t).fetches[f] == w.fetches[f])
            && (AbortTarget(w, t).Some? ==> AbortTarget(w, t) == captured && At(w, w.timers[t].entry).consumers == 0)
            && (AbortTarget(w, t).Some? && IsPending(w, AbortTarget(w, t).value) <==> IsPending(w, captured.value))
  {
    assert TimerOk(w, t);
    assert FetchOk(w, w.timers[t].controller.value);
    assert EntryOk(w, w.timers[t].entry);
  }

  /** A request started after the timer was armed is never aborted by it, however late it fires. */
  lemma NeverAbortsNewer(w: World, steps: seq<Step>, t: nat)
    requires Inv(w) && t < |w.timers|
    ensures var w' := Exec(w, steps);
            AbortTarget(w', t).Some? ==> AbortTarget(w', t).value < |w.fetches|
  {
    ExecGrows(w, steps);
    assert SameTimer(w.timers[t], Exec(w, steps).timers[t]);
    assert TimerOk(w, t);
  }

  /** In a world that counts right, a timer that aborts a running request aborts one whose entry has no
      live subscription: an unmount never cancels a request another consumer still needs. */
  lemma NeverAbortsNeeded(w: World, t: nat)
    requires Inv(w) && Owned(w) && AbortTarget(w, t).Some? && IsPending(w, AbortTarget(w, t).value)
    ensures forall s :: 0 <= s < |w.subs| && w.subs[s].entry == w.fetches[AbortTarget(w, t).value].entry ==> !w.subs[s].live
  {
    assert TimerOk(w, t);
    CountNone(w.subs, w.timers[t].entry);
    var k :| k in w.entries && w.entries[k] == w.timers[t].entry;
  }

  /** ... hence in every run without a stale release, at every firing. */
  lemma RunNeverAbortsNeeded(now: int, steps: seq<Step>, t: nat)
    requires NoStaleRelease(Initial(now), steps)
    ensures var w := Exec(Initial(now), steps);
            AbortTarget(w, t).Some? && IsPending(w, AbortTarget(w, t).value) ==>
            forall s :: 0 <= s < |w.subs| && w.subs[s].entry == w.fetches[AbortTarget(w, t).value].entry ==> !w.subs[s].live
  {
    var w := Exec(Initial(now), steps);
    InitialIsSound(now);
    ExecKeeps(Initial(now), steps);
    ConsumersCountSubscriptions(Initial(now), steps);
    if AbortTarget(w, t).Some? && IsPending(w, AbortTarget(w, t).value) {
      NeverAbortsNeeded(w, t);
    }
  }

  /** A stale release of the only consumer of a running request makes its timer abort that request while
      the consumer is still subscribed to it. */
  lemma StaleReleaseAborts(w: World, s: nat)
    requires Inv(w) && Owned(w) && IsStaleRelease(w, Unsubscribe(s))
    requires EntryOf(w, w.subs[s].key).consumers == 1 && EntryOf(w, w.subs[s].key).inFlight.Some?
    ensures var w', t := Unsubscribed(w, s), |w.timers|;
            && AbortTarget(w', t).Some? && IsPending(w', AbortTarget(w', t).value)
            && CountOn(w'.subs, w'.fetches[AbortTarget(w', t).value].entry) == 1
  {
    var i := w.entries[w.subs[s].key];
    assert EntryOk(w, i);
    CountEnd(w.subs, s, i);
  }

  /** Such a run, up to the release: one component subscribes, the key is reset, a second one subscribes
      and its request starts. */
  function Remounted(now: int, key: Key, first: Listener, second: Listener): World {
    EnsuredFresh(Subscribed(WasReset(Subscribed(Initial(now), key, first), key), key, second), key, false)
  }

  lemma AfterFirst(now: int, key: Key, first: Listener)
    ensures var w := WasReset(Subscribed(Initial(now), key, first), key);
            w.entries == map[] && |w.heap| == 1 && w.subs == [Sub(0, key, first, true)] && w.fetches == []
  {
    var w := Subscribed(Initial(now), key, first);
    assert w.entries == map[key := 0] && |w.heap| == 1 && w.subs == [Sub(0, key, first, true)];
  }

  lemma AfterSecond(w: World, key: Key, second: Listener)
    requires w.entries == map[] && |w.heap| == 1 && |w.subs| == 1
    ensures var w' := Subscribed(w, key, second);
            && w'.entries == map[key := 1] && |w'.heap| == 2 && w'.subs == w.subs + [Sub(1, key, second, true)]
            && w'.fetches == w.fetches && At(w', 1) == BLANK.(consumers := 1, listeners := {second})
  {
  }

  lemma AfterEnsure(w: World, key: Key)
    requires w.entries == map[key := 1] && |w.heap| == 2 && w.fetches == []
    requires At(w, 1).inFlight.None? && At(w, 1).data.None?
    ensures var w' := EnsuredFresh(w, key, false);
            && w'.entries == w.entries && w'.subs == w.subs
            && At(w', 1).consumers == At(w, 1).consumers && At(w', 1).inFlight == Some(0)
  {
  }

  lemma FirstSubscribe(now: int, key: Key, first: Listener)
    ensures Exec(Initial(now), [Subscribe(key, first)]) == Subscribed(Initial(now), key, first)
  {
    ExecSnoc(Initial(now), [], Subscribe(key, first));
    assert [] + [Subscribe(key, first)] == [Subscribe(key, first)];
  }

  lemma FirstReset(now: int, key: Key, first: Listener)
    ensures Exec(Initial(now), [Subscribe(key, first), Reset(key)]) == WasReset(Subscribed(Initial(now), key, first), key)
  {
    FirstSubscribe(now, key, first);
    ExecSnoc(Initial(now), [Subscribe(key, first)], Reset(key));
    assert [Subscribe(key, first)] + [Reset(key)] == [Subscribe(key, first), Reset(key)];
  }

  lemma SecondSubscribe(w: World, steps: seq<Step>, key: Key, second: Listener)
    ensures Exec(w, steps + [Subscribe(key, second)]) == Subscribed(Exec(w, steps), key, second)
  {
    ExecSnoc(w, steps, Subscribe(key, second));
  }

  lemma ThenEnsure(w: World, steps: seq<Step>, key: Key)
    ensures Exec(w, steps + [Ensure(key, false)]) == EnsuredFresh(Exec(w, steps), key, false)
  {
    ExecSnoc(w, steps, Ensure(key, false));
  }

  /** The four calls that lead there. */
  function Remounting(key: Key, first: Listener, second: Listener): seq<Step> {
    [Subscribe(key, first), Reset(key)] + [Subscribe(key, second)] + [Ensure(key, false)]
  }

  lemma RemountedStale(now: int, key: Key, first: Listener, second: Listener)
    ensures var w := Remounted(now, key, first, second);
            && IsStaleRelease(w, Unsubscribe(0)) && |w.subs| == 2 && w.subs[0].key == key && w.entries == map[key := 1]
            && EntryOf(w, key).consumers == 1 && EntryOf(w, key).inFlight.Some?
  {
    AfterFirst(now, key, first);
    AfterSecond(WasReset(Subscribed(Initial(now), key, first), key), key, second);
    AfterEnsure(Subscribed(WasReset(Subscribed(Initial(now), key, first), key), key, second), key);
  }

  lemma RemountedCounts(now: int, key: Key, first: Listener, second: Listener)
    ensures Inv(Remounted(now, key, first, second)) && Owned(Remounted(now, key, first, second))
  {
    var w1 := Subscribed(Initial(now), key, first);
    InitialIsSound(now);
    SubscribedKeeps(Initial(now), key, first);
    SubscribedOwned(Initial(now), key, first);
    WasResetKeeps(w1, key);
    WasResetOwned(w1, key);
    SubscribedKeeps(WasReset(w1, key), key, second);
    SubscribedOwned(WasReset(w1, key), key, second);
    EnsuredFreshKeeps(Subscribed(WasReset(w1, key), key, second), key, false);
    EnsuredFreshOwned(Subscribed(WasReset(w1, key), key, second), key, false);
  }

  /** So with a reset in the run the promise fails: the first component leaves last and the timer aborts
      the request the second one still waits for. */
  lemma ResetBreaksOwnership(now: int, key: Key, first: Listener, second: Listener)
    ensures var w := Exec(Initial(now), Remounting(key, first, second));
            var w', t := Unsubscribed(w, 0), |w.timers|;
            && AbortTarget(w', t).Some? && IsPending(w', AbortTarget(w', t).value)
            && CountOn(w'.subs, w'.fetches[AbortTarget(w', t).value].entry) == 1
  {
    FirstReset(now, key, first);
    SecondSubscribe(Initial(now), [Subscribe(key, first), Reset(key)], key, second);
    ThenEnsure(Initial(now), [Subscribe(key, first), Reset(key)] + [Subscribe(key, second)], key);
    RemountedStale(now, key, first, second);
    RemountedCounts(now, key, first, second);
    StaleReleaseAborts(Remounted(now, key, first, second), 0);
  }
}
