/** Which unused requests of src/resources.ts are eventually cancelled, and which never are. */
module ResourceCancellation {
  import opened Common
  import opened Resources
  import opened ResourceOwnership
  import opened ResourceFrames
  import opened ResourceRefinement

  /** A request is in flight on entry object `i`, reachable or not, and nobody is subscribed to it. */
  predicate IsIdle(w: World, i: nat) {
    CountOn(w.subs, i) == 0 && At(w, i).inFlight.Some?
  }

  ghost predicate ContainedAt(w: World, i: nat) {
    IsIdle(w, i) ==> IsAborted(w, At(w, i).inFlight.value) || IsCaptured(w, i)
  }

  /** "Unused requests are eventually cancellable": on every entry object that was ever created, an unused request
      is aborted already or captured by the armed timer. */
  ghost predicate Contained(w: World) {
    forall i: nat :: ContainedAt(w, i)
  }

  /** An `ensure` that starts a request on an entry nobody is subscribed to. */
  predicate IsUnsharedStart(w: World, step: Step) {
    && step.Ensure? && AnswerTo(w, step.key, step.force).Started?
    && (step.key in w.entries ==> CountOn(w.subs, w.entries[step.key]) == 0)
  }

  /** A reset of a key whose unused request was not aborted yet. */
  predicate IsLosingReset(w: World, step: Step) {
    && step.Reset? && step.key in w.entries && IsIdle(w, w.entries[step.key])
    && !IsAborted(w, EntryOf(w, step.key).inFlight.value)
  }

  /** The end of the last subscription of entry object `i`, with no timer for its request: `i` was replaced, or its
      counter does not go down to zero here. */
  predicate IsUntimedEnd(w: World, step: Step) {
    && step.Unsubscribe? && step.s < |w.subs| && w.subs[step.s].live
    && var sub := w.subs[step.s];
       var e := At(w, sub.entry);
       && CountOn(w.subs, sub.entry) == 1 && e.inFlight.Some? && !IsAborted(w, e.inFlight.value)
       && !(sub.key in w.entries && w.entries[sub.key] == sub.entry && (e.consumers == 1 || IsCaptured(w, sub.entry)))
  }

  predicate IsLeak(w: World, step: Step) {
    IsUnsharedStart(w, step) || IsLosingReset(w, step) || IsUntimedEnd(w, step)
  }

  lemma LeftAloneContained(w: World, w': World, i: nat)
    requires LeftAlone(w, w', i)
    ensures ContainedAt(w', i) <==> ContainedAt(w, i)
  {
  }

  lemma EnsureContained(w: World, key: Key, force: bool, i: nat)
    requires Inv(w) && ContainedAt(w, i)
    ensures var p := Ensured(w, key).entries[key];
            ContainedAt(EnsuredFresh(w, key, force), i) <==>
            !(AnswerTo(w, key, force).Started? && i == p && CountOn(w.subs, p) == 0)
  {
    var w1 := Ensured(w, key);
    EnsuredKeeps(w, key);
    EnsuredLeaves(w, key, i);
    LeftAloneContained(w, w1, i);
    if AnswerTo(w, key, force).Started? {
      var w2 := Launched(w1, key);
      LaunchedKeeps(w1, key);
      NotifiedLeaves(w2, key, i);
      LeftAloneContained(w2, Notified(w2, key), i);
      if i == w1.entries[key] {
        LaunchedSelf(w1, key);
      } else {
        LaunchedLeaves(w1, key, i);
        LeftAloneContained(w1, w2, i);
      }
    }
  }

  /** Nobody can be subscribed to an entry that does not exist yet. */
  lemma NobodyOnNew(w: World)
    requires Inv(w)
    ensures CountOn(w.subs, |w.heap|) == 0
  {
    CountNone(w.subs, |w.heap|);
  }

  lemma EnsureLeaksIff(w: World, key: Key, force: bool)
    requires Inv(w) && Contained(w)
    ensures Contained(EnsuredFresh(w, key, force)) <==> !IsLeak(w, Ensure(key, force))
  {
    NobodyOnNew(w);
    var w', p := EnsuredFresh(w, key, force), Ensured(w, key).entries[key];
    forall i: nat | i != p ensures ContainedAt(w', i) { EnsureContained(w, key, force, i); }
    EnsureContained(w, key, force, p);
  }

  lemma SettleContained(w: World, f: nat, r: Result, i: nat)
    requires Inv(w) && ContainedAt(w, i)
    ensures ContainedAt(Settled(w, f, r), i)
  {
    if IsPending(w, f) {
      var w1 := Landed(w, f, r);
      LandedKeeps(w, f, r);
      NotifiedLeaves(w1, w.fetches[f].key, i);
      LeftAloneContained(w1, Settled(w, f, r), i);
      if i == w.fetches[f].entry {
        LandedSelf(w, f, r);
      } else {
        LandedLeaves(w, f, r, i);
        LeftAloneContained(w, w1, i);
      }
    }
  }

  lemma SubscribeContained(w: World, key: Key, l: Listener, i: nat)
    requires Inv(w) && ContainedAt(w, i)
    ensures ContainedAt(Subscribed(w, key, l), i)
  {
    if i == Ensured(w, key).entries[key] {
      SubscribedSelf(w, key, l);
    } else {
      SubscribedLeaves(w, key, l, i);
      LeftAloneContained(w, Subscribed(w, key, l), i);
    }
  }

  lemma UnsubscribeContained(w: World, s: nat, i: nat)
    requires Inv(w) && ContainedAt(w, i) && s < |w.subs| && w.subs[s].live
    ensures ContainedAt(Unsubscribed(w, s), i) <==> !(i == w.subs[s].entry && IsUntimedEnd(w, Unsubscribe(s)))
  {
    var sub := w.subs[s];
    if sub.key in w.entries && i == w.entries[sub.key] {
      ReleasedSelf(w, s);
    } else if i == sub.entry {
      OrphanSelf(w, s);
    } else {
      UnsubscribedLeaves(w, s, i);
      LeftAloneContained(w, Unsubscribed(w, s), i);
    }
  }

  lemma UnsubscribeLeaksIff(w: World, s: nat)
    requires Inv(w) && Contained(w)
    ensures Contained(Unsubscribed(w, s)) <==> !IsLeak(w, Unsubscribe(s))
  {
    if s < |w.subs| && w.subs[s].live {
      var w', p := Unsubscribed(w, s), w.subs[s].entry;
      forall i: nat | i != p ensures ContainedAt(w', i) { UnsubscribeContained(w, s, i); }
      UnsubscribeContained(w, s, p);
    }
  }

  lemma FireContained(w: World, t: nat, i: nat)
    requires Inv(w) && ContainedAt(w, i)
    ensures ContainedAt(Fired(w, t), i)
  {
    if IsArmed(w, t) {
      if i == w.timers[t].entry {
        FiredSelf(w, t);
      } else {
        FiredLeaves(w, t, i);
        LeftAloneContained(w, Fired(w, t), i);
      }
    }
  }

  lemma ResetContained(w: World, key: Key, i: nat)
    requires Inv(w) && ContainedAt(w, i)
    ensures ContainedAt(WasReset(w, key), i) <==> !(key in w.entries && i == w.entries[key] && IsLosingReset(w, Reset(key)))
  {
    if key in w.entries {
      if i == w.entries[key] {
        ResetSelf(w, key);
      } else {
        UnarmedLeaves(w, w.entries[key], i);
        LeftAloneContained(w, Unarmed(w, w.entries[key]), i);
      }
    }
  }

  lemma ResetLeaksIff(w: World, key: Key)
    requires Inv(w) && Contained(w)
    ensures Contained(WasReset(w, key)) <==> !IsLeak(w, Reset(key))
  {
    if key in w.entries {
      var w', p := WasReset(w, key), w.entries[key];
      forall i: nat | i != p ensures ContainedAt(w', i) { ResetContained(w, key, i); }
      ResetContained(w, key, p);
    }
  }

  lemma OtherContained(w: World, step: Step, i: nat)
    requires Inv(w) && ContainedAt(w, i) && (step.Invalidate? || step.Get? || step.Tick?)
    ensures ContainedAt(Next(w, step), i)
  {
    match step
    case Invalidate(k) => InvalidatedLeaves(w, k, i);
    case Get(k) => EnsuredLeaves(w, k, i);
    case Tick(_) =>
  }

  lemma NextContained(w: World, step: Step, i: nat)
    requires Inv(w) && ContainedAt(w, i) && !step.Ensure? && !step.Unsubscribe? && !step.Reset?
    ensures ContainedAt(Next(w, step), i)
  {
    match step
    case Subscribe(k, l) => SubscribeContained(w, k, l, i);
    case Settle(f, r) => SettleContained(w, f, r, i);
    case FireTimer(t) => FireContained(w, t, i);
    case _ => OtherContained(w, step, i);
  }

  /** Every step keeps every unused request of every entry object cancellable, except exactly three kinds: an
      `ensure` that starts one nobody is subscribed to, a reset of a key whose unused request was not aborted, and
      the end of the last subscription of an entry object whose counter does not go down to zero with it. */
  lemma NextLeaksIff(w: World, step: Step)
    requires Inv(w) && Contained(w)
    ensures Contained(Next(w, step)) <==> !IsLeak(w, step)
  {
    match step
    case Ensure(k, force) => EnsureLeaksIff(w, k, force);
    case Unsubscribe(s) => UnsubscribeLeaksIff(w, s);
    case Reset(k) => ResetLeaksIff(w, k);
    case _ => forall i: nat ensures ContainedAt(Next(w, step), i) { NextContained(w, step, i); }
  }

  /** An `ensure` that starts a request while nobody is counted on its key. */
  predicate IsUnownedStart(w: World, step: Step) {
    step.Ensure? && AnswerTo(w, step.key, step.force).Started? && EntryOf(w, step.key).consumers == 0
  }

  /** The end of the last subscription of an entry object its key no longer has. */
  predicate IsOrphanEnd(w: World, step: Step) {
    && step.Unsubscribe? && step.s < |w.subs| && w.subs[step.s].live
    && var sub := w.subs[step.s];
       var e := At(w, sub.entry);
       && !(sub.key in w.entries && w.entries[sub.key] == sub.entry)
       && CountOn(w.subs, sub.entry) == 1 && e.inFlight.Some? && !IsAborted(w, e.inFlight.value)
  }

  /** Where the counters are right the third kind is the end of the last subscription of a replaced entry object. */
  lemma CountedLeaksIff(w: World, step: Step)
    requires Inv(w) && Owned(w) && Contained(w)
    ensures Contained(Next(w, step)) <==> !(IsUnownedStart(w, step) || IsLosingReset(w, step) || IsOrphanEnd(w, step))
  {
    NextLeaksIff(w, step);
  }

  ghost predicate NoLeak(w: World, steps: seq<Step>) {
    forall n :: 0 <= n < |steps| ==> !IsLeak(Exec(w, steps[..n]), steps[n])
  }

  lemma NoLeakFront(w: World, steps: seq<Step>)
    requires steps != [] && NoLeak(w, steps)
    ensures NoLeak(w, steps[..|steps| - 1])
    ensures !IsLeak(Exec(w, steps[..|steps| - 1]), steps[|steps| - 1])
  {
    var front := steps[..|steps| - 1];
    forall n | 0 <= n < |front| ensures !IsLeak(Exec(w, front[..n]), front[n]) {
      assert front[..n] == steps[..n];
    }
  }

  lemma {:induction false} RunIsContained(now: int, steps: seq<Step>)
    requires NoLeak(Initial(now), steps)
    ensures Inv(Exec(Initial(now), steps)) && Contained(Exec(Initial(now), steps))
  {
    InitialIsSound(now);
    if steps != [] {
      var front := steps[..|steps| - 1];
      NoLeakFront(Initial(now), steps);
      RunIsContained(now, front);
      ExecKeeps(Initial(now), steps);
      NextLeaksIff(Exec(Initial(now), front), steps[|steps| - 1]);
    }
  }

  /** Over every run without such a step nothing leaks: every request that still runs has a subscriber on its entry
      object, was aborted, or is the one an armed timer will abort when it fires. */
  lemma NothingLeaks(now: int, steps: seq<Step>, f: nat)
    requires NoLeak(Initial(now), steps) && IsPending(Exec(Initial(now), steps), f)
    ensures var w := Exec(Initial(now), steps);
            || CountOn(w.subs, w.fetches[f].entry) > 0
            || IsAborted(w, f)
            || exists t: nat :: IsArmed(w, t) && IsAborted(Fired(w, t), f)
  {
    var w := Exec(Initial(now), steps);
    RunIsContained(now, steps);
    assert FetchOk(w, f);
    var i := w.fetches[f].entry;
    assert ContainedAt(w, i);
    if IsCaptured(w, i) {
      DoomedIsAborted(w, i);
    }
  }

  /** Being captured means being aborted when the timer fires, if nobody subscribes before. */
  lemma DoomedIsAborted(w: World, i: nat)
    requires Inv(w) && IsCaptured(w, i)
    ensures IsAborted(Fired(w, At(w, i).cancelTimer.value), At(w, i).inFlight.value)
  {
    assert EntryOk(w, i);
    FiredSelf(w, At(w, i).cancelTimer.value);
  }

  // ---- Requests a reset lost -------------------------------------------------------------

  lemma SubscribeAborts(w: World, key: Key, l: Listener)
    ensures Subscribed(w, key, l).fetches == w.fetches
  {
  }

  lemma UnsubscribeAborts(w: World, s: nat)
    ensures Unsubscribed(w, s).fetches == w.fetches
  {
  }

  lemma EnsureAborts(w: World, key: Key, force: bool, f: nat)
    requires f < |w.fetches|
    ensures IsAborted(EnsuredFresh(w, key, force), f) <==> IsAborted(w, f)
  {
  }

  lemma SettleAborts(w: World, g: nat, r: Result, f: nat)
    requires f < |w.fetches|
    ensures IsAborted(Settled(w, g, r), f) <==> IsAborted(w, f)
  {
  }

  lemma FireAborts(w: World, t: nat, f: nat)
    requires Inv(w) && IsOrphaned(w, f)
    ensures IsAborted(Fired(w, t), f) <==> IsAborted(w, f)
  {
    if IsArmed(w, t) {
      assert TimerOk(w, t);
    }
  }

  lemma NextAborts(w: World, step: Step, f: nat)
    requires Inv(w) && IsOrphaned(w, f)
    ensures IsAborted(Next(w, step), f) <==> IsAborted(w, f)
  {
    match step
    case Subscribe(k, l) => SubscribeAborts(w, k, l);
    case Unsubscribe(s) => UnsubscribeAborts(w, s);
    case Ensure(k, force) => EnsureAborts(w, k, force, f);
    case Settle(g, r) => SettleAborts(w, g, r, f);
    case FireTimer(t) => FireAborts(w, t, f);
    case _ =>
  }

  /** Once the entry object of a request is unreachable, the request is never aborted any more, however long it
      runs and whatever else happens. */
  lemma {:induction false} OrphanIsNeverAborted(w: World, steps: seq<Step>, f: nat)
    requires Inv(w) && IsOrphaned(w, f)
    ensures IsAborted(Exec(w, steps), f) <==> IsAborted(w, f)
  {
    if steps != [] {
      var front := steps[..|steps| - 1];
      OrphanIsNeverAborted(w, front, f);
      ExecKeeps(w, front);
      OrphanedForever(w, front, f);
      NextAborts(Exec(w, front), steps[|steps| - 1], f);
    }
  }

  /** So what a leaking reset loses is lost for good. */
  lemma LosingResetIsFinal(w: World, key: Key, steps: seq<Step>)
    requires Inv(w) && IsLosingReset(w, Reset(key))
    ensures var f := EntryOf(w, key).inFlight.value;
            IsPending(w, f) && !IsAborted(Exec(WasReset(w, key), steps), f)
  {
    var f, w' := EntryOf(w, key).inFlight.value, WasReset(w, key);
    assert EntryOk(w, w.entries[key]);
    ResetSelf(w, key);
    ResetOrphans(w, key, f);
    WasResetKeeps(w, key);
    OrphanIsNeverAborted(w', steps, f);
  }

  /** Nothing is left that could ever cancel the request: it runs, nobody is subscribed, no timer is armed. */
  ghost predicate IsLost(w: World, f: nat) {
    && IsPending(w, f) && !IsAborted(w, f)
    && (forall t: nat :: !IsArmed(w, t))
    && forall s :: 0 <= s < |w.subs| ==> !w.subs[s].live
  }

  lemma Mount(now: int, key: Key, l: Listener) returns (w: World)
    ensures w == Next(Initial(now), Subscribe(key, l)) && Inv(w)
    ensures w.subs == [Sub(0, key, l, true)] && w.entries == map[key := 0] && w.fetches == [] && w.timers == []
    ensures At(w, 0) == BLANK.(consumers := 1, listeners := {l})
  {
    w := Subscribed(Initial(now), key, l);
    InitialIsSound(now);
    SubscribedKeeps(Initial(now), key, l);
  }

  lemma Ask(w: World, key: Key, l: Listener) returns (w': World)
    requires Inv(w) && w.subs == [Sub(0, key, l, true)] && w.entries == map[key := 0] && w.fetches == [] && w.timers == []
    requires At(w, 0) == BLANK.(consumers := 1, listeners := {l})
    ensures w' == Next(w, Ensure(key, false)) && Inv(w')
    ensures w'.subs == w.subs && w'.entries == w.entries && w'.fetches == [Fetch(0, key, true, false)]
    ensures w'.timers == [] && At(w', 0).consumers == 1
  {
    w' := EnsuredFresh(w, key, false);
    EnsuredFreshKeeps(w, key, false);
  }

  lemma LeaveAndReset(w: World, key: Key, l: Listener) returns (w': World)
    requires Inv(w) && w.subs == [Sub(0, key, l, true)] && w.entries == map[key := 0]
    requires w.fetches == [Fetch(0, key, true, false)] && w.timers == [] && At(w, 0).consumers == 1
    ensures w' == Next(Next(w, Unsubscribe(0)), Reset(key)) && Inv(w') && IsLost(w', 0) && IsOrphaned(w', 0)
  {
    assert FetchOk(w, 0) && EntryOk(w, 0);
    UnsubscribedKeeps(w, 0);
    WasResetKeeps(Unsubscribed(w, 0), key);
    w' := WasReset(Unsubscribed(w, 0), key);
    assert w'.entries == map[];
  }

  /** Four calls lead there: a component mounts, asks for the resource and unmounts, and the key is reset before the
      grace timer fires. The request is never aborted, in any continuation. */
  lemma ResetLosesRequest(now: int, key: Key, l: Listener)
    ensures exists w :: Reaches(Initial(now), w) && IsLost(w, 0) && forall steps :: !IsAborted(Exec(w, steps), 0)
  {
    var w0 := Initial(now);
    assert Exec(w0, []) == w0;
    var w1 := Mount(now, key, l);
    var w2 := Ask(w1, key, l);
    ReachTwo(w0, w0, Subscribe(key, l), Ensure(key, false));
    var w := LeaveAndReset(w2, key, l);
    ReachTwo(w0, w2, Unsubscribe(0), Reset(key));
    LostForever(w, 0);
  }

  lemma ReachTwo(w: World, w1: World, first: Step, second: Step)
    requires Reaches(w, w1)
    ensures Reaches(w, Next(Next(w1, first), second))
  {
    ReachNext(w, w1, first);
    ReachNext(w, Next(w1, first), second);
  }

  lemma LostForever(w: World, f: nat)
    requires Inv(w) && IsLost(w, f) && IsOrphaned(w, f)
    ensures forall steps :: !IsAborted(Exec(w, steps), f)
  {
    forall steps ensures !IsAborted(Exec(w, steps), f) {
      OrphanIsNeverAborted(w, steps, f);
    }
  }

  // ---- Requests nobody ever owned --------------------------------------------------------

  /** Request `f` of the key runs without a consumer on its entry and no timer has captured it. */
  ghost predicate IsUnowned(w: World, key: Key, f: nat) {
    && f < |w.fetches| && w.fetches[f].key == key && !w.fetches[f].aborted
    && At(w, w.fetches[f].entry).consumers == 0
    && forall t :: 0 <= t < |w.timers| ==> w.timers[t].controller != Some(f)
  }

  lemma UnsubscribeUnowned(w: World, s: nat, key: Key, f: nat)
    requires Inv(w) && IsUnowned(w, key, f)
    ensures IsUnowned(Unsubscribed(w, s), key, f)
  {
    if s < |w.subs| && w.subs[s].live {
      var w1, k := Muted(w, s), w.subs[s].key;
      SameCoreKeeps(w, w1);
      if k in w1.entries {
        assert EntryOk(w1, w1.entries[k]);
      }
    }
  }

  lemma SubscribeUnowned(w: World, k: Key, l: Listener, key: Key, f: nat)
    requires Inv(w) && IsUnowned(w, key, f) && k != key
    ensures IsUnowned(Subscribed(w, k, l), key, f)
  {
    EnsuredKeeps(w, k);
    assert FetchOk(w, f);
  }

  lemma EnsureUnowned(w: World, k: Key, force: bool, key: Key, f: nat)
    requires Inv(w) && IsUnowned(w, key, f)
    ensures IsUnowned(EnsuredFresh(w, k, force), key, f)
  {
    assert FetchOk(w, f);
  }

  lemma SettleUnowned(w: World, g: nat, r: Result, key: Key, f: nat)
    requires Inv(w) && IsUnowned(w, key, f)
    ensures IsUnowned(Settled(w, g, r), key, f)
  {
    assert FetchOk(w, f);
  }

  lemma HousekeepingUnowned(w: World, step: Step, key: Key, f: nat)
    requires Inv(w) && IsUnowned(w, key, f) && IsHousekeeping(step)
    ensures IsUnowned(Next(w, step), key, f)
  {
    assert FetchOk(w, f);
    match step
    case Invalidate(_) =>
    case Reset(_) =>
    case FireTimer(_) =>
    case _ =>
  }

  ghost predicate NobodySubscribes(steps: seq<Step>, key: Key) {
    forall n :: 0 <= n < |steps| ==> !(steps[n].Subscribe? && steps[n].key == key)
  }

  lemma NextUnowned(w: World, step: Step, key: Key, f: nat)
    requires Inv(w) && IsUnowned(w, key, f) && !(step.Subscribe? && step.key == key)
    ensures IsUnowned(Next(w, step), key, f)
  {
    match step
    case Subscribe(k, l) => SubscribeUnowned(w, k, l, key, f);
    case Unsubscribe(s) => UnsubscribeUnowned(w, s, key, f);
    case Ensure(k, force) => EnsureUnowned(w, k, force, key, f);
    case Settle(g, r) => SettleUnowned(w, g, r, key, f);
    case _ => HousekeepingUnowned(w, step, key, f);
  }

  lemma {:induction false} RunUnowned(w: World, steps: seq<Step>, key: Key, f: nat)
    requires Inv(w) && IsUnowned(w, key, f) && NobodySubscribes(steps, key)
    ensures IsUnowned(Exec(w, steps), key, f)
  {
    if steps != [] {
      RunUnowned(w, steps[..|steps| - 1], key, f);
      ExecKeeps(w, steps[..|steps| - 1]);
      NextUnowned(Exec(w, steps[..|steps| - 1]), steps[|steps| - 1], key, f);
    }
  }

  /** A request started for a key nobody is subscribed to is never aborted, and no timer ever captures it,
      whatever else happens and however long it runs, until somebody subscribes to the key. */
  lemma UnownedIsNeverAborted(w: World, key: Key, force: bool, steps: seq<Step>)
    requires Inv(w) && IsUnownedStart(w, Ensure(key, force)) && NobodySubscribes(steps, key)
    ensures var w', f := Exec(EnsuredFresh(w, key, force), steps), |w.fetches|;
            f < |w'.fetches| && !IsAborted(w', f) && forall t :: 0 <= t < |w'.timers| ==> w'.timers[t].controller != Some(f)
  {
    EnsuredKeeps(w, key);
    EnsuredFreshKeeps(w, key, force);
    StartIsUnowned(w, key, force);
    RunUnowned(EnsuredFresh(w, key, force), steps, key, |w.fetches|);
  }

  lemma StartIsUnowned(w: World, key: Key, force: bool)
    requires Inv(w) && IsUnownedStart(w, Ensure(key, force))
    ensures IsUnowned(EnsuredFresh(w, key, force), key, |w.fetches|)
  {
    EnsuredKeeps(w, key);
    forall t | 0 <= t < |w.timers| ensures w.timers[t].controller != Some(|w.fetches|) { assert TimerOk(w, t); }
  }
}
