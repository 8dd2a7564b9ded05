/** Which entry objects of src/resources.ts a step leaves alone, as far as their request, its abort and its
    subscribers go. */
module ResourceFrames {
  import opened Common
  import opened Resources
  import opened ResourceOwnership

  predicate IsAborted(w: World, f: nat) {
    f < |w.fetches| && w.fetches[f].aborted
  }

  /** The armed timer of the entry captured the request in flight. */
  predicate IsCaptured(w: World, i: nat) {
    var e := At(w, i);
    && e.inFlight.Some? && e.cancelTimer.Some?
    && IsArmed(w, e.cancelTimer.value) && w.timers[e.cancelTimer.value].controller == e.inFlight
  }

  /** Entry object `i` has the same request in flight, as aborted, as captured and as subscribed to as before. */
  ghost predicate LeftAlone(w: World, w': World, i: nat) {
    && At(w', i).inFlight == At(w, i).inFlight
    && (At(w, i).inFlight.Some? ==> (IsAborted(w', At(w, i).inFlight.value) <==> IsAborted(w, At(w, i).inFlight.value)))
    && (IsCaptured(w', i) <==> IsCaptured(w, i))
    && CountOn(w'.subs, i) == CountOn(w.subs, i)
  }

  lemma EnsuredLeaves(w: World, key: Key, i: nat)
    requires Inv(w)
    ensures LeftAlone(w, Ensured(w, key), i)
  {
  }

  lemma NotifiedLeaves(w: World, key: Key, i: nat)
    requires Inv(w)
    ensures LeftAlone(w, Notified(w, key), i)
  {
    EnsuredLeaves(w, key, i);
  }

  lemma LeavesTransitive(a: World, b: World, c: World, i: nat)
    requires LeftAlone(a, b, i) && LeftAlone(b, c, i)
    ensures LeftAlone(a, c, i)
  {
  }

  lemma LaunchedLeaves(w: World, key: Key, i: nat)
    requires Inv(w) && key in w.entries && i != w.entries[key]
    ensures LeftAlone(w, Launched(w, key), i)
  {
    assert EntryOk(w, i);
  }

  lemma LandedLeaves(w: World, f: nat, r: Result, i: nat)
    requires Inv(w) && IsPending(w, f) && i != w.fetches[f].entry
    ensures LeftAlone(w, Landed(w, f, r), i)
  {
    assert EntryOk(w, i);
  }

  /** Disarming the timer of one entry disarms nobody else's. */
  lemma DisarmedLeaves(w: World, j: nat, i: nat)
    requires Inv(w) && i != j
    ensures LeftAlone(w, Disarmed(w, At(w, j)), i)
  {
    assert EntryOk(w, i) && EntryOk(w, j);
  }

  lemma PutLeaves(w: World, j: nat, e: EntryState, i: nat)
    requires i != j
    ensures LeftAlone(w, Put(w, j, e), i)
  {
  }

  lemma ClaimedLeaves(w: World, j: nat, i: nat)
    requires Inv(w) && i != j
    ensures LeftAlone(w, Claimed(w, j), i)
  {
    DisarmedLeaves(w, j, i);
    var e := At(w, j);
    PutLeaves(Disarmed(w, e), j, e.(consumers := e.consumers + 1, cancelTimer := None), i);
  }

  lemma RecordedLeaves(w: World, key: Key, l: Listener, i: nat)
    requires key in w.entries && i != w.entries[key]
    ensures LeftAlone(w, Recorded(w, key, l), i)
  {
    CountSnoc(w.subs, Sub(w.entries[key], key, l, true), i);
    SameRecordsLeave(w, Recorded(w, key, l), i);
  }

  lemma SameRecordsLeave(w: World, w': World, i: nat)
    requires w'.heap == w.heap && w'.fetches == w.fetches && w'.timers == w.timers
    requires CountOn(w'.subs, i) == CountOn(w.subs, i)
    ensures LeftAlone(w, w', i)
  {
  }

  lemma AttachedLeaves(w: World, key: Key, l: Listener, i: nat)
    requires Inv(w) && key in w.entries && i != w.entries[key]
    ensures LeftAlone(w, Attached(w, key, l), i)
  {
    var w1 := Listening(w, key, l);
    ListeningKeeps(w, key, l);
    ClaimedLeaves(w1, w1.entries[key], i);
    RecordedLeaves(Acquired(w1, key), key, l, i);
  }

  lemma SubscribedLeaves(w: World, key: Key, l: Listener, i: nat)
    requires Inv(w) && i != Ensured(w, key).entries[key]
    ensures LeftAlone(w, Subscribed(w, key, l), i)
  {
    EnsuredKeeps(w, key);
    EnsuredLeaves(w, key, i);
    AttachedLeaves(Ensured(w, key), key, l, i);
  }

  lemma MutedLeaves(w: World, s: nat, i: nat)
    requires Inv(w) && s < |w.subs| && w.subs[s].live && i != w.subs[s].entry
    ensures LeftAlone(w, Muted(w, s), i)
  {
    CountEnd(w.subs, s, i);
  }

  lemma LeftLeaves(w: World, j: nat, i: nat)
    requires Inv(w) && i != j && At(w, j).consumers > 0
    ensures LeftAlone(w, Left(w, j), i)
  {
    assert EntryOk(w, i);
  }

  lemma UnsubscribedLeaves(w: World, s: nat, i: nat)
    requires Inv(w) && s < |w.subs| && w.subs[s].live && i != w.subs[s].entry
    requires w.subs[s].key in w.entries ==> i != w.entries[w.subs[s].key]
    ensures LeftAlone(w, Unsubscribed(w, s), i)
  {
    var w1, key := Muted(w, s), w.subs[s].key;
    MutedLeaves(w, s, i);
    SameCoreKeeps(w, w1);
    if key in w1.entries && EntryOf(w1, key).consumers > 0 {
      LeftLeaves(w1, w1.entries[key], i);
    }
  }

  lemma FiredLeaves(w: World, t: nat, i: nat)
    requires Inv(w) && IsArmed(w, t) && i != w.timers[t].entry
    ensures LeftAlone(w, Fired(w, t), i)
  {
    assert EntryOk(w, i) && TimerOk(w, t);
  }

  lemma UnarmedLeaves(w: World, j: nat, i: nat)
    requires Inv(w) && i != j
    ensures LeftAlone(w, Unarmed(w, j), i)
  {
    DisarmedLeaves(w, j, i);
    PutLeaves(Disarmed(w, At(w, j)), j, At(w, j).(cancelTimer := None), i);
  }

  lemma InvalidatedLeaves(w: World, key: Key, i: nat)
    requires Inv(w)
    ensures LeftAlone(w, Invalidated(w, key), i)
  {
    EnsuredLeaves(w, key, i);
    EnsuredKeeps(w, key);
  }

  // ---- What a step does to the entry it works on -----------------------------------------

  /** A request started on the entry is new: not aborted, and captured by no timer. */
  lemma LaunchedSelf(w: World, key: Key)
    requires Inv(w) && key in w.entries
    ensures var w', i := Launched(w, key), w.entries[key];
            && At(w', i).inFlight == Some(|w.fetches|) && !IsAborted(w', |w.fetches|) && !IsCaptured(w', i)
            && CountOn(w'.subs, i) == CountOn(w.subs, i)
  {
    var e := EntryOf(w, key);
    assert EntryOk(w, w.entries[key]);
    if e.cancelTimer.Some? {
      assert TimerOk(w, e.cancelTimer.value);
    }
  }

  lemma LandedSelf(w: World, f: nat, r: Result)
    requires Inv(w) && IsPending(w, f)
    ensures At(Landed(w, f, r), w.fetches[f].entry).inFlight.None?
  {
    assert FetchOk(w, f);
  }

  lemma SubscribedSelf(w: World, key: Key, l: Listener)
    requires Inv(w)
    ensures var w', i := Subscribed(w, key, l), Ensured(w, key).entries[key];
            CountOn(w'.subs, i) > 0 && !IsCaptured(w', i)
  {
    EnsuredKeeps(w, key);
    var w1 := Ensured(w, key);
    CountSnoc(w1.subs, Sub(w1.entries[key], key, l, true), w1.entries[key]);
  }

  lemma FiredSelf(w: World, t: nat)
    requires Inv(w) && IsArmed(w, t)
    ensures var w', i := Fired(w, t), w.timers[t].entry;
            && At(w', i).inFlight == At(w, i).inFlight && !IsCaptured(w', i) && CountOn(w'.subs, i) == CountOn(w.subs, i)
            && (At(w, i).inFlight.Some? ==>
                  (IsAborted(w', At(w, i).inFlight.value) <==>
                   IsCaptured(w, i) || IsAborted(w, At(w, i).inFlight.value)))
  {
    assert TimerOk(w, t);
    assert EntryOk(w, w.timers[t].entry);
  }

  lemma ResetSelf(w: World, key: Key)
    requires Inv(w) && key in w.entries
    ensures var w', i := WasReset(w, key), w.entries[key];
            && At(w', i).inFlight == At(w, i).inFlight && !IsCaptured(w', i) && CountOn(w'.subs, i) == CountOn(w.subs, i)
            && forall f :: IsAborted(w', f) <==> IsAborted(w, f)
  {
    assert EntryOk(w, w.entries[key]);
  }

  /** The present entry of the key when one of its subscriptions, or a stale one, ends. */
  lemma ReleasedSelf(w: World, s: nat)
    requires Inv(w) && s < |w.subs| && w.subs[s].live && w.subs[s].key in w.entries
    ensures var w', i := Unsubscribed(w, s), w.entries[w.subs[s].key];
            && At(w', i).inFlight == At(w, i).inFlight && (forall f :: IsAborted(w', f) <==> IsAborted(w, f))
            && CountOn(w'.subs, i) == CountOn(w.subs, i) - (if w.subs[s].entry == i then 1 else 0)
            && (IsCaptured(w', i) <==> IsCaptured(w, i) || (At(w, i).consumers == 1 && At(w, i).inFlight.Some?))
  {
    var i := w.entries[w.subs[s].key];
    CountEnd(w.subs, s, i);
    assert EntryOk(w, i);
  }

  /** The replaced entry of a stale subscription that ends: it has no armed timer. */
  lemma OrphanSelf(w: World, s: nat)
    requires Inv(w) && s < |w.subs| && w.subs[s].live
    requires w.subs[s].key in w.entries ==> w.entries[w.subs[s].key] != w.subs[s].entry
    ensures var w', j := Unsubscribed(w, s), w.subs[s].entry;
            && At(w', j).inFlight == At(w, j).inFlight && (forall f :: IsAborted(w', f) <==> IsAborted(w, f))
            && CountOn(w'.subs, j) == CountOn(w.subs, j) - 1 && !IsCaptured(w', j) && !IsCaptured(w, j)
  {
    var j := w.subs[s].entry;
    var w' := Unsubscribed(w, s);
    CountEnd(w.subs, s, j);
    UnsubscribedKeeps(w, s);
    UnsubscribedEntries(w, s);
    assert !IsCurrent(w, j) && !IsCurrent(w', j);
    if IsCaptured(w, j) {
      CapturedIsCurrent(w, j);
    }
    if IsCaptured(w', j) {
      CapturedIsCurrent(w', j);
    }
  }

  /** Only reachable entries have armed timers. */
  lemma CapturedIsCurrent(w: World, j: nat)
    requires Inv(w) && IsCaptured(w, j)
    ensures IsCurrent(w, j)
  {
    assert EntryOk(w, j);
    assert TimerOk(w, At(w, j).cancelTimer.value);
  }
}
