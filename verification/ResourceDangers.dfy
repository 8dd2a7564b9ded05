/** When an unsubscribe in src/resources.ts lets the grace timer abort a request that somebody still needs. */
module ResourceDangers {
  import opened Common
  import opened Resources
  import opened ResourceOwnership
  import opened ResourceFrames

  /** Firing timer `t` would abort a running request whose entry has a live subscription. */
  ghost predicate Endangers(w: World, t: nat) {
    && AbortTarget(w, t).Some? && IsPending(w, AbortTarget(w, t).value)
    && CountOn(w.subs, w.fetches[AbortTarget(w, t).value].entry) > 0
  }

  ghost predicate IsEndangered(w: World) {
    exists t: nat :: Endangers(w, t)
  }

  /** The end of a subscription that counts the present entry of its key down to zero, with a request in flight there
      and a live subscription left on it. */
  predicate IsPrematureRelease(w: World, step: Step) {
    && step.Unsubscribe? && step.s < |w.subs| && w.subs[step.s].live
    && var sub := w.subs[step.s];
       && sub.key in w.entries
       && var i := w.entries[sub.key];
          && At(w, i).consumers == 1 && At(w, i).inFlight.Some?
          && CountOn(w.subs, i) > if sub.entry == i then 1 else 0
  }

  /** A stale release of the only consumer of a request in flight. */
  predicate IsFatalRelease(w: World, step: Step) {
    && IsStaleRelease(w, step)
    && EntryOf(w, w.subs[step.s].key).consumers == 1 && EntryOf(w, w.subs[step.s].key).inFlight.Some?
  }

  /** The request in flight on entry object `i` is captured although somebody is subscribed. */
  ghost predicate InDanger(w: World, i: nat) {
    IsCaptured(w, i) && CountOn(w.subs, i) > 0
  }

  lemma EndangersIsInDanger(w: World, t: nat)
    requires Inv(w) && Endangers(w, t)
    ensures InDanger(w, w.timers[t].entry)
  {
    assert TimerOk(w, t) && FetchOk(w, w.timers[t].controller.value);
  }

  lemma InDangerIsEndangered(w: World, i: nat)
    requires Inv(w) && InDanger(w, i)
    ensures Endangers(w, At(w, i).cancelTimer.value)
  {
    assert EntryOk(w, i);
  }

  lemma EndangeredByEntry(w: World)
    requires Inv(w)
    ensures IsEndangered(w) <==> exists i: nat :: InDanger(w, i)
  {
    if IsEndangered(w) {
      var t: nat :| Endangers(w, t);
      EndangersIsInDanger(w, t);
    }
    if i: nat :| InDanger(w, i) {
      InDangerIsEndangered(w, i);
    }
  }

  lemma EnsureDanger(w: World, key: Key, force: bool, i: nat)
    requires Inv(w) && !InDanger(w, i)
    ensures !InDanger(EnsuredFresh(w, key, force), i)
  {
    var w1 := Ensured(w, key);
    EnsuredKeeps(w, key);
    EnsuredLeaves(w, key, i);
    if AnswerTo(w, key, force).Started? {
      LaunchedKeeps(w1, key);
      NotifiedLeaves(Launched(w1, key), key, i);
      if i == w1.entries[key] {
        LaunchedSelf(w1, key);
      } else {
        LaunchedLeaves(w1, key, i);
      }
    }
  }

  lemma SettleDanger(w: World, f: nat, r: Result, i: nat)
    requires Inv(w) && !InDanger(w, i)
    ensures !InDanger(Settled(w, f, r), i)
  {
    if IsPending(w, f) {
      LandedKeeps(w, f, r);
      NotifiedLeaves(Landed(w, f, r), w.fetches[f].key, i);
      if i == w.fetches[f].entry {
        LandedSelf(w, f, r);
      } else {
        LandedLeaves(w, f, r, i);
      }
    }
  }

  lemma SubscribeDanger(w: World, key: Key, l: Listener, i: nat)
    requires Inv(w) && !InDanger(w, i)
    ensures !InDanger(Subscribed(w, key, l), i)
  {
    if i == Ensured(w, key).entries[key] {
      SubscribedSelf(w, key, l);
    } else {
      SubscribedLeaves(w, key, l, i);
    }
  }

  lemma UnsubscribeDangerIff(w: World, s: nat, i: nat)
    requires Inv(w) && !InDanger(w, i) && s < |w.subs| && w.subs[s].live
    ensures InDanger(Unsubscribed(w, s), i) <==>
            w.subs[s].key in w.entries && i == w.entries[w.subs[s].key] && IsPrematureRelease(w, Unsubscribe(s))
  {
    var sub := w.subs[s];
    if sub.key in w.entries && i == w.entries[sub.key] {
      ReleasedSelf(w, s);
      assert EntryOk(w, i);
    } else if i == sub.entry {
      OrphanSelf(w, s);
    } else {
      UnsubscribedLeaves(w, s, i);
    }
  }

  lemma FireDanger(w: World, t: nat, i: nat)
    requires Inv(w) && !InDanger(w, i)
    ensures !InDanger(Fired(w, t), i)
  {
    if IsArmed(w, t) {
      if i == w.timers[t].entry {
        FiredSelf(w, t);
      } else {
        FiredLeaves(w, t, i);
      }
    }
  }

  lemma ResetDanger(w: World, key: Key, i: nat)
    requires Inv(w) && !InDanger(w, i)
    ensures !InDanger(WasReset(w, key), i)
  {
    if key in w.entries {
      if i == w.entries[key] {
        ResetSelf(w, key);
      } else {
        UnarmedLeaves(w, w.entries[key], i);
      }
    }
  }

  lemma HousekeepingDanger(w: World, step: Step, i: nat)
    requires Inv(w) && !InDanger(w, i) && IsHousekeeping(step)
    ensures !InDanger(Next(w, step), i)
  {
    match step
    case Invalidate(k) => InvalidatedLeaves(w, k, i);
    case Get(k) => EnsuredLeaves(w, k, i);
    case Reset(k) => ResetDanger(w, k, i);
    case FireTimer(t) => FireDanger(w, t, i);
    case Tick(_) =>
  }

  lemma NextDanger(w: World, step: Step, i: nat)
    requires Inv(w) && !InDanger(w, i) && !step.Unsubscribe?
    ensures !InDanger(Next(w, step), i)
  {
    match step
    case Subscribe(k, l) => SubscribeDanger(w, k, l, i);
    case Ensure(k, force) => EnsureDanger(w, k, force, i);
    case Settle(f, r) => SettleDanger(w, f, r, i);
    case _ => HousekeepingDanger(w, step, i);
  }

  lemma UnsubscribeEndangersIff(w: World, s: nat)
    requires Inv(w) && forall i: nat :: !InDanger(w, i)
    ensures (exists i: nat :: InDanger(Unsubscribed(w, s), i)) <==> IsPrematureRelease(w, Unsubscribe(s))
  {
    if s < |w.subs| && w.subs[s].live {
      var w' := Unsubscribed(w, s);
      forall i: nat | InDanger(w', i) ensures IsPrematureRelease(w, Unsubscribe(s)) { UnsubscribeDangerIff(w, s, i); }
      if w.subs[s].key in w.entries {
        UnsubscribeDangerIff(w, s, w.entries[w.subs[s].key]);
      }
    }
  }

  /** A step lets a timer abort a request that a subscriber still needs exactly when it is a premature release,
      whatever counters the run so far has left behind. */
  lemma NextEndangersIff(w: World, step: Step)
    requires Inv(w) && !IsEndangered(w)
    ensures IsEndangered(Next(w, step)) <==> IsPrematureRelease(w, step)
  {
    EndangeredByEntry(w);
    NextKeeps(w, step);
    EndangeredByEntry(Next(w, step));
    if step.Unsubscribe? {
      UnsubscribeEndangersIff(w, step.s);
    } else {
      forall i: nat ensures !InDanger(Next(w, step), i) { NextDanger(w, step, i); }
    }
  }

  /** Where the counters are right, the premature releases are exactly the fatal stale ones. */
  lemma CountedEndangersIff(w: World, step: Step)
    requires Inv(w) && Owned(w)
    ensures IsEndangered(Next(w, step)) <==> IsFatalRelease(w, step)
  {
    CountedIsSafe(w);
    NextEndangersIff(w, step);
  }

  lemma CountedIsSafe(w: World)
    requires Inv(w) && Owned(w)
    ensures !IsEndangered(w)
  {
    forall t: nat ensures !Endangers(w, t) {
      if AbortTarget(w, t).Some? && IsPending(w, AbortTarget(w, t).value) {
        NeverAbortsNeeded(w, t);
        CountNone(w.subs, w.fetches[AbortTarget(w, t).value].entry);
      }
    }
  }

  ghost predicate NoPrematureRelease(w: World, steps: seq<Step>) {
    forall n :: 0 <= n < |steps| ==> !IsPrematureRelease(Exec(w, steps[..n]), steps[n])
  }

  lemma NoPrematureFront(w: World, steps: seq<Step>)
    requires steps != [] && NoPrematureRelease(w, steps)
    ensures NoPrematureRelease(w, steps[..|steps| - 1])
    ensures !IsPrematureRelease(Exec(w, steps[..|steps| - 1]), steps[|steps| - 1])
  {
    var front := steps[..|steps| - 1];
    forall n | 0 <= n < |front| ensures !IsPrematureRelease(Exec(w, front[..n]), front[n]) {
      assert front[..n] == steps[..n];
    }
  }

  /** Over every run without a premature release, stale ones included, no timer that fires aborts a running request
      that somebody is subscribed to. */
  lemma {:induction false} NeverEndangered(now: int, steps: seq<Step>)
    requires NoPrematureRelease(Initial(now), steps)
    ensures !IsEndangered(Exec(Initial(now), steps))
  {
    InitialIsSound(now);
    if steps != [] {
      var front := steps[..|steps| - 1];
      NoPrematureFront(Initial(now), steps);
      NeverEndangered(now, front);
      ExecKeeps(Initial(now), front);
      NextEndangersIff(Exec(Initial(now), front), steps[|steps| - 1]);
    }
  }

  /** A stale release of one of two consumers does no harm yet, but the next unsubscribe of either of them, which is
      no stale release, endangers the request the other one waits for. */
  lemma StaleThenOrdinary(w: World, s: nat, t: nat)
    requires Inv(w) && Owned(w) && IsStaleRelease(w, Unsubscribe(s))
    requires EntryOf(w, w.subs[s].key).consumers == 2 && EntryOf(w, w.subs[s].key).inFlight.Some?
    requires t < |w.subs| && w.subs[t].live && w.subs[t].entry == w.entries[w.subs[s].key]
    ensures var w1 := Unsubscribed(w, s);
            && !IsEndangered(w1) && t < |w1.subs| && w1.subs[t].live && !IsStaleRelease(w1, Unsubscribe(t))
            && IsEndangered(Unsubscribed(w1, t))
  {
    var w1 := Unsubscribed(w, s);
    CountedEndangersIff(w, Unsubscribe(s));
    UnsubscribedKeeps(w, s);
    AfterStale(w, s, t);
    NextEndangersIff(w1, Unsubscribe(t));
  }

  lemma AfterStale(w: World, s: nat, t: nat)
    requires Inv(w) && Owned(w) && IsStaleRelease(w, Unsubscribe(s))
    requires EntryOf(w, w.subs[s].key).consumers == 2 && EntryOf(w, w.subs[s].key).inFlight.Some?
    requires t < |w.subs| && w.subs[t].live && w.subs[t].entry == w.entries[w.subs[s].key]
    ensures var w1 := Unsubscribed(w, s);
            t < |w1.subs| && w1.subs[t] == w.subs[t] && w1.entries == w.entries && IsPrematureRelease(w1, Unsubscribe(t))
  {
    CountEnd(w.subs, s, w.entries[w.subs[s].key]);
  }
}
