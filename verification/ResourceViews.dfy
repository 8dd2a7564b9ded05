/** What mounted components show: when the listeners of src/resources.ts were last called with the present
    state of the resource they observe, and when they were not. */
module ResourceViews {
  import opened Common
  import opened Resources

  /** "Ready" outlives the TTL: however much time passes, a ready resource stays ready, and it is still fresh, as
      documented, exactly while its time stamp is less than the TTL old. */
  lemma ReadyOutlivesTtl(w: World, key: Key, ms: int)
    requires SnapshotOf(EntryOf(w, key)).state.Ready?
    ensures var w', at := Next(w, Tick(ms)), EntryOf(w, key).fetchedAt;
            && SnapshotOf(EntryOf(w', key)) == SnapshotOf(EntryOf(w, key))
            && (IsFresh(w', key) <==> at.Some? && w.now + ms - at.value < TtlFor(key))
  {
  }

  // ---- Who is called, and with what ------------------------------------------------------

  predicate LastShown(w: World, k: Key, l: Listener, shown: Option<Snapshot>) {
    if shown.Some? then (k, l) in w.seen && w.seen[(k, l)] == shown.value else (k, l) !in w.seen
  }

  /** What the listener was last called with, if ever. */
  function ShownIn(w: World, k: Key, l: Listener): Option<Snapshot> {
    if (k, l) in w.seen then Some(w.seen[(k, l)]) else None
  }

  /** A new subscriber is called once; a request that starts and one that settles call everybody on the present entry
      of the key. */
  predicate IsCalled(w: World, step: Step, k: Key, l: Listener) {
    match step
    case Subscribe(key, listener) => k == key && l == listener
    case Ensure(key, force) => k == key && AnswerTo(w, key, force).Started? && l in EntryOf(w, key).listeners
    case Settle(f, _) => IsPending(w, f) && k == w.fetches[f].key && l in EntryOf(w, k).listeners
    case _ => false
  }

  lemma NotifiedTells(w: World, key: Key, k: Key, l: Listener)
    requires Inv(w)
    ensures var w', shown := Notified(w, key), SnapshotOf(EntryOf(w, key));
            ShownIn(w', k, l) == if k == key && l in EntryOf(w, key).listeners then Some(shown) else ShownIn(w, k, l)
    ensures EntryOf(Notified(w, key), k) == EntryOf(w, k)
  {
    EnsuredKeeps(w, key);
  }

  lemma EnsureTells(w: World, key: Key, force: bool, k: Key, l: Listener)
    requires Inv(w)
    ensures var w', step := EnsuredFresh(w, key, force), Ensure(key, force);
            ShownIn(w', k, l) == if IsCalled(w, step, k, l) then Some(SnapshotOf(EntryOf(w', k))) else ShownIn(w, k, l)
  {
    EnsuredKeeps(w, key);
    if AnswerTo(w, key, force).Started? {
      var w1 := Launched(Ensured(w, key), key);
      LaunchedKeeps(Ensured(w, key), key);
      assert EntryOf(w1, key).listeners == EntryOf(w, key).listeners;
      NotifiedTells(w1, key, k, l);
    }
  }

  lemma SettleTells(w: World, f: nat, r: Result, k: Key, l: Listener)
    requires Inv(w)
    ensures var w', step := Settled(w, f, r), Settle(f, r);
            ShownIn(w', k, l) == if IsCalled(w, step, k, l) then Some(SnapshotOf(EntryOf(w', k))) else ShownIn(w, k, l)
  {
    if IsPending(w, f) {
      var w1 := Landed(w, f, r);
      LandedKeeps(w, f, r);
      assert EntryOf(w1, w.fetches[f].key).listeners == EntryOf(w, w.fetches[f].key).listeners;
      NotifiedTells(w1, w.fetches[f].key, k, l);
    }
  }

  lemma SubscribeTells(w: World, key: Key, m: Listener, k: Key, l: Listener)
    requires Inv(w)
    ensures var w', step := Subscribed(w, key, m), Subscribe(key, m);
            ShownIn(w', k, l) == if IsCalled(w, step, k, l) then Some(SnapshotOf(EntryOf(w', k))) else ShownIn(w, k, l)
  {
    EnsuredKeeps(w, key);
  }

  lemma OthersTell(w: World, step: Step, k: Key, l: Listener)
    requires !step.Subscribe? && !step.Ensure? && !step.Settle?
    ensures ShownIn(Next(w, step), k, l) == ShownIn(w, k, l)
  {
    match step
    case Unsubscribe(_) =>
    case _ =>
  }

  /** Every call a step makes shows the whole snapshot of the key as the step leaves it, time stamp included, and it
      calls exactly those; everybody else keeps what was shown before. */
  lemma NextTells(w: World, step: Step, k: Key, l: Listener)
    requires Inv(w)
    ensures var w' := Next(w, step);
            ShownIn(w', k, l) == if IsCalled(w, step, k, l) then Some(SnapshotOf(EntryOf(w', k))) else ShownIn(w, k, l)
  {
    match step
    case Subscribe(key, m) => SubscribeTells(w, key, m, k, l);
    case Ensure(key, force) => EnsureTells(w, key, force, k, l);
    case Settle(f, r) => SettleTells(w, f, r, k, l);
    case _ => OthersTell(w, step, k, l);
  }

  /** The same picture on the screen; only the age of the data may differ. */
  predicate SamePicture(a: Snapshot, b: Snapshot) {
    a.state == b.state && a.data == b.data && a.error == b.error
  }

  ghost predicate Sees(w: World, k: Key, l: Listener) {
    (k, l) in w.seen && SamePicture(w.seen[(k, l)], SnapshotOf(EntryOf(w, k)))
  }

  ghost predicate CoherentFor(w: World, k: Key) {
    k in w.entries ==> forall l :: l in EntryOf(w, k).listeners ==> Sees(w, k, l)
  }

  ghost predicate CoherentBut(w: World, key: Key) {
    forall k :: k != key ==> CoherentFor(w, k)
  }

  /** Every listener of every reachable resource was last shown its present picture. */
  ghost predicate Coherent(w: World) {
    forall k :: CoherentFor(w, k)
  }

  /** A time stamp comes with data; it holds as long as no request delivered null. */
  ghost predicate Dated(w: World) {
    forall i :: 0 <= i < |w.heap| && w.heap[i].fetchedAt.Some? ==> w.heap[i].data.Some?
  }

  /** The parts of an entry its snapshot is made of. */
  predicate SameCell(a: EntryState, b: EntryState) {
    a.data == b.data && a.fetchedAt == b.fetchedAt && a.error == b.error && a.inFlight == b.inFlight
  }

  lemma SnapshotByCell(a: EntryState, b: EntryState)
    requires SameCell(a, b)
    ensures SnapshotOf(a) == SnapshotOf(b)
  {
  }

  /** A key whose entry keeps its content, its record and at most its listeners stays coherent. */
  lemma KeptFor(w: World, w': World, k: Key)
    requires CoherentFor(w, k) && (k in w'.entries ==> k in w.entries)
    requires SameCell(EntryOf(w', k), EntryOf(w, k)) && EntryOf(w', k).listeners <= EntryOf(w, k).listeners
    requires forall l :: (k, l) in w.seen ==> (k, l) in w'.seen && w'.seen[(k, l)] == w.seen[(k, l)]
    ensures CoherentFor(w', k)
  {
    SnapshotByCell(EntryOf(w', k), EntryOf(w, k));
    if k in w'.entries {
      forall l | l in EntryOf(w', k).listeners ensures Sees(w', k, l) {
        assert Sees(w, k, l);
      }
    }
  }

  lemma EnsuredFor(w: World, key: Key, k: Key)
    requires Inv(w) && CoherentFor(w, k)
    ensures CoherentFor(Ensured(w, key), k)
  {
    if k in w.entries {
      KeptFor(w, Ensured(w, key), k);
    }
  }

  lemma NotifiedOther(w: World, key: Key, k: Key)
    requires Inv(w) && k != key && CoherentFor(w, k)
    ensures CoherentFor(Notified(w, key), k)
  {
    EnsuredFor(w, key, k);
    KeptFor(Ensured(w, key), Notified(w, key), k);
  }

  lemma NotifiedSelf(w: World, key: Key)
    requires Inv(w)
    ensures CoherentFor(Notified(w, key), key)
  {
    var w1, w' := Ensured(w, key), Notified(w, key);
    forall l | l in EntryOf(w', key).listeners ensures Sees(w', key, l) {
      assert l in EntryOf(w1, key).listeners;
    }
  }

  lemma NotifiedCoherent(w: World, key: Key)
    requires Inv(w) && CoherentBut(w, key)
    ensures Coherent(Notified(w, key))
  {
    NotifiedSelf(w, key);
    forall k | k != key ensures CoherentFor(Notified(w, key), k) {
      NotifiedOther(w, key, k);
    }
  }

  lemma EnsureCoherent(w: World, key: Key, force: bool)
    requires Inv(w) && Coherent(w)
    ensures Coherent(EnsuredFresh(w, key, force))
  {
    var w1 := Ensured(w, key);
    forall k ensures CoherentFor(w1, k) { EnsuredFor(w, key, k); }
    if AnswerTo(w, key, force).Started? {
      EnsuredKeeps(w, key);
      LaunchedKeeps(w1, key);
      forall k | k != key ensures CoherentFor(Launched(w1, key), k) {
        KeptFor(w1, Launched(w1, key), k);
      }
      NotifiedCoherent(Launched(w1, key), key);
    }
  }

  /** A response touches only the entry its key has, if any. */
  lemma LandedOther(w: World, f: nat, r: Result, k: Key)
    requires Inv(w) && IsPending(w, f) && k != w.fetches[f].key && CoherentFor(w, k)
    ensures CoherentFor(Landed(w, f, r), k)
  {
    assert FetchOk(w, f);
    if k in w.entries {
      assert w.entries[k] != w.fetches[f].entry;
    }
    KeptFor(w, Landed(w, f, r), k);
  }

  lemma SettleCoherent(w: World, f: nat, r: Result)
    requires Inv(w) && Coherent(w)
    ensures Coherent(Settled(w, f, r))
  {
    if IsPending(w, f) {
      LandedKeeps(w, f, r);
      forall k | k != w.fetches[f].key ensures CoherentFor(Landed(w, f, r), k) {
        LandedOther(w, f, r, k);
      }
      NotifiedCoherent(Landed(w, f, r), w.fetches[f].key);
    }
  }

  lemma SubscribeOther(w: World, key: Key, l: Listener, k: Key)
    requires Inv(w) && k != key && CoherentFor(w, k)
    ensures CoherentFor(Subscribed(w, key, l), k)
  {
    if k in w.entries {
      KeptFor(w, Subscribed(w, key, l), k);
    }
  }

  lemma SubscribeSelf(w: World, key: Key, l: Listener)
    requires Inv(w) && CoherentFor(w, key)
    ensures CoherentFor(Subscribed(w, key, l), key)
  {
    var w1, w' := Ensured(w, key), Subscribed(w, key, l);
    EnsuredFor(w, key, key);
    EnsuredKeeps(w, key);
    var e, e' := EntryOf(w1, key), EntryOf(w', key);
    assert SameCell(e', e) && e'.listeners == e.listeners + {l};
    SnapshotByCell(e', e);
    forall m | m in e'.listeners ensures Sees(w', key, m) {
      assert m != l ==> Sees(w1, key, m);
    }
  }

  lemma UnsubscribeFor(w: World, s: nat, k: Key)
    requires Inv(w) && CoherentFor(w, k)
    ensures CoherentFor(Unsubscribed(w, s), k)
  {
    KeptFor(w, Unsubscribed(w, s), k);
  }

  lemma ResetFor(w: World, key: Key, k: Key)
    requires Inv(w) && CoherentFor(w, k)
    ensures CoherentFor(WasReset(w, key), k)
  {
    if k != key {
      KeptFor(w, WasReset(w, key), k);
    }
  }

  lemma FireFor(w: World, t: nat, k: Key)
    requires Inv(w) && CoherentFor(w, k)
    ensures CoherentFor(Fired(w, t), k)
  {
    KeptFor(w, Fired(w, t), k);
  }

  /** An invalidation tells nobody. It changes what there is to see only for a resource with listeners whose
      latest value was null and that does not show an error. */
  predicate IsUnseenInvalidation(w: World, step: Step) {
    && step.Invalidate? && step.key in w.entries
    && var e := EntryOf(w, step.key);
       e.listeners != {} && e.data.None? && e.fetchedAt.Some? && (e.inFlight.Some? || !HasError(e))
  }

  lemma InvalidatedPicture(e: EntryState)
    ensures SamePicture(SnapshotOf(e.(fetchedAt := None)), SnapshotOf(e)) <==>
            !(e.data.None? && e.fetchedAt.Some? && (e.inFlight.Some? || !HasError(e)))
  {
  }

  lemma InvalidateOther(w: World, key: Key, k: Key)
    requires Inv(w) && CoherentFor(w, k) && k != key
    ensures CoherentFor(Invalidated(w, key), k)
  {
    EnsuredFor(w, key, k);
    KeptFor(Ensured(w, key), Invalidated(w, key), k);
  }

  /** What an invalidation leaves of its own entry. */
  lemma InvalidatedEntry(w: World, key: Key)
    requires Inv(w)
    ensures key in Invalidated(w, key).entries && Invalidated(w, key).seen == w.seen
    ensures EntryOf(Invalidated(w, key), key) == EntryOf(w, key).(fetchedAt := None)
  {
    EnsuredKeeps(w, key);
  }

  lemma InvalidateSelfIff(w: World, key: Key)
    requires Inv(w) && CoherentFor(w, key)
    ensures CoherentFor(Invalidated(w, key), key) <==> !IsUnseenInvalidation(w, Invalidate(key))
  {
    var w', e := Invalidated(w, key), EntryOf(w, key);
    InvalidatedEntry(w, key);
    InvalidatedPicture(e);
    if key in w.entries {
      forall l | l in e.listeners
        ensures Sees(w', key, l) <==> SamePicture(SnapshotOf(e.(fetchedAt := None)), SnapshotOf(e))
      {
        assert Sees(w, key, l);
      }
      if e.listeners != {} {
        var l :| l in e.listeners;
        assert l in EntryOf(w', key).listeners;
      }
    }
  }

  lemma InvalidateCoherentIff(w: World, key: Key)
    requires Inv(w) && Coherent(w)
    ensures Coherent(Invalidated(w, key)) <==> !IsUnseenInvalidation(w, Invalidate(key))
  {
    InvalidateSelfIff(w, key);
    forall k | k != key ensures CoherentFor(Invalidated(w, key), k) { InvalidateOther(w, key, k); }
  }

  lemma HousekeepingFor(w: World, step: Step, k: Key)
    requires Inv(w) && CoherentFor(w, k) && IsHousekeeping(step) && !step.Invalidate?
    ensures CoherentFor(Next(w, step), k)
  {
    match step
    case Reset(key) => ResetFor(w, key, k);
    case FireTimer(t) => FireFor(w, t, k);
    case Get(key) => EnsuredFor(w, key, k);
    case Tick(ms) => KeptFor(w, w.(now := w.now + ms), k);
  }

  lemma SubscribeCoherent(w: World, key: Key, l: Listener)
    requires Inv(w) && Coherent(w)
    ensures Coherent(Subscribed(w, key, l))
  {
    forall k ensures CoherentFor(Subscribed(w, key, l), k) {
      if k == key { SubscribeSelf(w, key, l); } else { SubscribeOther(w, key, l, k); }
    }
  }

  lemma UnsubscribeCoherent(w: World, s: nat)
    requires Inv(w) && Coherent(w)
    ensures Coherent(Unsubscribed(w, s))
  {
    forall k ensures CoherentFor(Unsubscribed(w, s), k) { UnsubscribeFor(w, s, k); }
  }

  lemma HousekeepingCoherent(w: World, step: Step)
    requires Inv(w) && Coherent(w) && IsHousekeeping(step) && !step.Invalidate?
    ensures Coherent(Next(w, step))
  {
    forall k ensures CoherentFor(Next(w, step), k) { HousekeepingFor(w, step, k); }
  }

  /** Every step keeps every listener's picture current, except exactly the unseen invalidations. */
  lemma NextCoherentIff(w: World, step: Step)
    requires Inv(w) && Coherent(w)
    ensures Coherent(Next(w, step)) <==> !IsUnseenInvalidation(w, step)
  {
    match step
    case Subscribe(key, l) => SubscribeCoherent(w, key, l);
    case Unsubscribe(s) => UnsubscribeCoherent(w, s);
    case Ensure(key, force) => EnsureCoherent(w, key, force);
    case Settle(f, r) => SettleCoherent(w, f, r);
    case Invalidate(key) => InvalidateCoherentIff(w, key);
    case _ => HousekeepingCoherent(w, step);
  }

  ghost predicate NoUnseenInvalidation(w: World, steps: seq<Step>) {
    forall n :: 0 <= n < |steps| ==> !IsUnseenInvalidation(Exec(w, steps[..n]), steps[n])
  }

  lemma NoUnseenFront(w: World, steps: seq<Step>)
    requires steps != [] && NoUnseenInvalidation(w, steps)
    ensures NoUnseenInvalidation(w, steps[..|steps| - 1])
    ensures !IsUnseenInvalidation(Exec(w, steps[..|steps| - 1]), steps[|steps| - 1])
  {
    var front := steps[..|steps| - 1];
    forall n | 0 <= n < |front| ensures !IsUnseenInvalidation(Exec(w, front[..n]), front[n]) {
      assert front[..n] == steps[..n];
    }
  }

  /** After every run without such an invalidation, resets, aborts and late responses included, every listener
      of a reachable entry was last shown exactly its present state, data and error. */
  lemma {:induction false} ViewsAreCurrent(now: int, steps: seq<Step>)
    requires NoUnseenInvalidation(Initial(now), steps)
    ensures Coherent(Exec(Initial(now), steps))
  {
    if steps != [] {
      var front := steps[..|steps| - 1];
      NoUnseenFront(Initial(now), steps);
      ViewsAreCurrent(now, front);
      assert Inv(Initial(now));
      ExecKeeps(Initial(now), front);
      NextCoherentIff(Exec(Initial(now), front), steps[|steps| - 1]);
    }
  }

  // ---- Time stamps -----------------------------------------------------------------------

  predicate DeliversNull(step: Step) {
    step.Settle? && step.result.Ok? && step.result.value.None?
  }

  lemma NotifiedDated(w: World, key: Key)
    requires Dated(w)
    ensures Dated(Notified(w, key))
  {
  }

  lemma EnsureDated(w: World, key: Key, force: bool)
    requires Dated(w)
    ensures Dated(EnsuredFresh(w, key, force))
  {
    if AnswerTo(w, key, force).Started? {
      assert Dated(Launched(Ensured(w, key), key));
      NotifiedDated(Launched(Ensured(w, key), key), key);
    }
  }

  lemma SettleDated(w: World, f: nat, r: Result)
    requires Dated(w) && !DeliversNull(Settle(f, r))
    ensures Dated(Settled(w, f, r))
  {
    if IsPending(w, f) {
      assert Dated(Landed(w, f, r));
      NotifiedDated(Landed(w, f, r), w.fetches[f].key);
    }
  }

  lemma SubscribeDated(w: World, key: Key, l: Listener)
    requires Dated(w)
    ensures Dated(Subscribed(w, key, l))
  {
  }

  lemma UnsubscribeDated(w: World, s: nat)
    requires Dated(w)
    ensures Dated(Unsubscribed(w, s))
  {
  }

  lemma HousekeepingDated(w: World, step: Step)
    requires Dated(w) && IsHousekeeping(step)
    ensures Dated(Next(w, step))
  {
    match step
    case Invalidate(_) =>
    case Reset(_) =>
    case FireTimer(_) =>
    case _ =>
  }

  lemma NextDated(w: World, step: Step)
    requires Dated(w) && !DeliversNull(step)
    ensures Dated(Next(w, step))
  {
    match step
    case Subscribe(key, l) => SubscribeDated(w, key, l);
    case Unsubscribe(s) => UnsubscribeDated(w, s);
    case Ensure(key, force) => EnsureDated(w, key, force);
    case Settle(f, r) => SettleDated(w, f, r);
    case _ => HousekeepingDated(w, step);
  }

  ghost predicate NoNulls(steps: seq<Step>) {
    forall n :: 0 <= n < |steps| ==> !DeliversNull(steps[n])
  }

  lemma {:induction false} RunIsDated(now: int, steps: seq<Step>)
    requires NoNulls(steps)
    ensures Dated(Exec(Initial(now), steps))
  {
    if steps != [] {
      RunIsDated(now, steps[..|steps| - 1]);
      NextDated(Exec(Initial(now), steps[..|steps| - 1]), steps[|steps| - 1]);
    }
  }

  lemma DatedSeesAll(w: World, step: Step)
    requires Inv(w) && Dated(w)
    ensures !IsUnseenInvalidation(w, step)
  {
  }

  lemma NullFreeSeesAll(now: int, steps: seq<Step>, n: nat)
    requires NoNulls(steps) && n < |steps|
    ensures !IsUnseenInvalidation(Exec(Initial(now), steps[..n]), steps[n])
  {
    RunIsDated(now, steps[..n]);
    assert Inv(Initial(now));
    ExecKeeps(Initial(now), steps[..n]);
    DatedSeesAll(Exec(Initial(now), steps[..n]), steps[n]);
  }

  /** In particular after every run whose requests never deliver null. */
  lemma NullFreeViewsAreCurrent(now: int, steps: seq<Step>)
    requires NoNulls(steps)
    ensures Coherent(Exec(Initial(now), steps))
  {
    forall n: nat | n < |steps| ensures !IsUnseenInvalidation(Exec(Initial(now), steps[..n]), steps[n]) {
      NullFreeSeesAll(now, steps, n);
    }
    ViewsAreCurrent(now, steps);
  }

  /** A null delivery followed by an invalidation is such a case, whoever listens. */
  lemma NullThenInvalidateIsUnseen(w: World, key: Key, f: nat, l: Listener)
    requires Inv(w) && IsPending(w, f) && w.fetches[f].key == key && key in w.entries && w.entries[key] == w.fetches[f].entry
    requires l in EntryOf(w, key).listeners
    ensures !Coherent(Invalidated(Settled(w, f, Ok(None)), key))
  {
    var w1 := Settled(w, f, Ok(None));
    SettledKeeps(w, f, Ok(None));
    LandedKeeps(w, f, Ok(None));
    NotifiedSelf(Landed(w, f, Ok(None)), key);
    assert FetchOk(w, f);
    assert l in EntryOf(w1, key).listeners;
    InvalidateSelfIff(w1, key);
    assert !CoherentFor(Invalidated(w1, key), key);
  }

  // ---- Subscribers -----------------------------------------------------------------------

  /** The subscription still reaches its component: it sits on the present entry of its key and its listener
      is registered there. */
  predicate IsTold(w: World, s: nat)
    requires s < |w.subs|
  {
    var sub := w.subs[s];
    sub.key in w.entries && w.entries[sub.key] == sub.entry && sub.listener in EntryOf(w, sub.key).listeners
  }

  ghost predicate SubsTold(w: World) {
    forall s: nat :: s < |w.subs| && w.subs[s].live ==> IsTold(w, s)
  }

  /** Two live subscriptions made with one listener function on one entry. */
  predicate Share(w: World, s: nat, t: nat)
    requires s < |w.subs| && t < |w.subs|
  {
    && s != t && w.subs[s].live && w.subs[t].live
    && w.subs[s].entry == w.subs[t].entry && w.subs[s].listener == w.subs[t].listener
  }

  /** The two ways to cut a live subscription off: resetting its key, and ending another one that shares
      its listener. */
  ghost predicate CutsOff(w: World, step: Step) {
    match step
    case Reset(key) => exists s: nat :: s < |w.subs| && w.subs[s].live && w.subs[s].key == key
    case Unsubscribe(s) => s < |w.subs| && exists t: nat :: t < |w.subs| && Share(w, s, t)
    case _ => false
  }

  /** `w'` keeps the subscriptions and what they need. */
  lemma KeptTold(w: World, w': World)
    requires SubsTold(w) && Inv(w) && w'.subs == w.subs
    requires forall k :: k in w.entries ==> k in w'.entries && w'.entries[k] == w.entries[k]
    requires forall k :: k in w.entries ==> EntryOf(w, k).listeners <= EntryOf(w', k).listeners
    ensures SubsTold(w')
  {
    forall s: nat | s < |w'.subs| && w'.subs[s].live ensures IsTold(w', s) {
      assert IsTold(w, s);
    }
  }

  lemma NotifiedTold(w: World, key: Key)
    requires SubsTold(w) && Inv(w)
    ensures SubsTold(Notified(w, key))
  {
    KeptTold(w, Notified(w, key));
  }

  lemma LaunchedTold(w: World, key: Key)
    requires SubsTold(w) && Inv(w) && key in w.entries && EntryOf(w, key).inFlight.None?
    ensures SubsTold(Launched(w, key)) && Inv(Launched(w, key))
  {
    LaunchedKeeps(w, key);
    KeptTold(w, Launched(w, key));
  }

  lemma EnsuredTold(w: World, key: Key)
    requires SubsTold(w) && Inv(w)
    ensures SubsTold(Ensured(w, key)) && Inv(Ensured(w, key))
  {
    EnsuredKeeps(w, key);
    KeptTold(w, Ensured(w, key));
  }

  lemma EnsureTold(w: World, key: Key, force: bool)
    requires SubsTold(w) && Inv(w)
    ensures SubsTold(EnsuredFresh(w, key, force))
  {
    EnsuredTold(w, key);
    if AnswerTo(w, key, force).Started? {
      EnsuredKeeps(w, key);
      LaunchedTold(Ensured(w, key), key);
      NotifiedTold(Launched(Ensured(w, key), key), key);
    }
  }

  lemma SettleTold(w: World, f: nat, r: Result)
    requires SubsTold(w) && Inv(w)
    ensures SubsTold(Settled(w, f, r))
  {
    if IsPending(w, f) {
      LandedKeeps(w, f, r);
      KeptTold(w, Landed(w, f, r));
      NotifiedTold(Landed(w, f, r), w.fetches[f].key);
    }
  }

  lemma AttachTold(w: World, key: Key, l: Listener)
    requires SubsTold(w) && Inv(w) && key in w.entries
    ensures SubsTold(Attached(w, key, l))
  {
    var w' := Attached(w, key, l);
    forall s: nat | s < |w'.subs| && w'.subs[s].live ensures IsTold(w', s) {
      if s < |w.subs| {
        assert IsTold(w, s);
      }
    }
  }

  lemma SubscribeTold(w: World, key: Key, l: Listener)
    requires SubsTold(w) && Inv(w)
    ensures SubsTold(Subscribed(w, key, l))
  {
    EnsuredKeeps(w, key);
    KeptTold(w, Ensured(w, key));
    AttachTold(Ensured(w, key), key, l);
  }

  lemma ReleasedTold(w: World, key: Key)
    requires Inv(w)
    ensures SubsTold(Released(w, key)) <==> SubsTold(w)
  {
    var w' := Released(w, key);
    assert forall s: nat | s < |w.subs| :: IsTold(w', s) <==> IsTold(w, s);
  }

  lemma MutedToldIff(w: World, s: nat)
    requires SubsTold(w) && Inv(w) && s < |w.subs| && w.subs[s].live
    ensures SubsTold(Muted(w, s)) <==> !CutsOff(w, Unsubscribe(s))
  {
    var w' := Muted(w, s);
    forall t: nat | t < |w.subs| && t != s && w.subs[t].live ensures IsTold(w', t) <==> !Share(w, s, t) {
      assert IsTold(w, t) && IsTold(w, s);
    }
  }

  lemma UnsubscribeToldIff(w: World, s: nat)
    requires SubsTold(w) && Inv(w)
    ensures SubsTold(Unsubscribed(w, s)) <==> !CutsOff(w, Unsubscribe(s))
  {
    if s < |w.subs| && w.subs[s].live {
      MutedToldIff(w, s);
      SameCoreKeeps(w, Muted(w, s));
      ReleasedTold(Muted(w, s), w.subs[s].key);
    }
  }

  lemma ResetToldIff(w: World, key: Key)
    requires SubsTold(w) && Inv(w)
    ensures SubsTold(WasReset(w, key)) <==> !CutsOff(w, Reset(key))
  {
    var w' := WasReset(w, key);
    forall s: nat | s < |w.subs| && w.subs[s].live ensures IsTold(w', s) <==> w.subs[s].key != key {
      assert IsTold(w, s);
    }
  }

  lemma HousekeepingTold(w: World, step: Step)
    requires SubsTold(w) && Inv(w) && IsHousekeeping(step) && !step.Reset?
    ensures SubsTold(Next(w, step))
  {
    KeptTold(w, Next(w, step));
  }

  /** Every step keeps every subscription in touch, except exactly those two. */
  lemma NextToldIff(w: World, step: Step)
    requires SubsTold(w) && Inv(w)
    ensures SubsTold(Next(w, step)) <==> !CutsOff(w, step)
  {
    match step
    case Subscribe(key, l) => SubscribeTold(w, key, l);
    case Unsubscribe(s) => UnsubscribeToldIff(w, s);
    case Ensure(key, force) => EnsureTold(w, key, force);
    case Settle(f, r) => SettleTold(w, f, r);
    case Reset(key) => ResetToldIff(w, key);
    case _ => HousekeepingTold(w, step);
  }

  ghost predicate NobodyCutOff(w: World, steps: seq<Step>) {
    forall n :: 0 <= n < |steps| ==> !CutsOff(Exec(w, steps[..n]), steps[n])
  }

  lemma NobodyCutOffFront(w: World, steps: seq<Step>)
    requires steps != [] && NobodyCutOff(w, steps)
    ensures NobodyCutOff(w, steps[..|steps| - 1])
    ensures !CutsOff(Exec(w, steps[..|steps| - 1]), steps[|steps| - 1])
  {
    var front := steps[..|steps| - 1];
    forall n | 0 <= n < |front| ensures !CutsOff(Exec(w, front[..n]), front[n]) {
      assert front[..n] == steps[..n];
    }
  }

  lemma {:induction false} SubscribersStayInTouch(now: int, steps: seq<Step>)
    requires NobodyCutOff(Initial(now), steps)
    ensures SubsTold(Exec(Initial(now), steps))
  {
    if steps != [] {
      var front := steps[..|steps| - 1];
      NobodyCutOffFront(Initial(now), steps);
      SubscribersStayInTouch(now, front);
      assert Inv(Initial(now));
      ExecKeeps(Initial(now), front);
      NextToldIff(Exec(Initial(now), front), steps[|steps| - 1]);
    }
  }

  /** `subscribe` keeps its promise: after every run in which nobody was cut off and no invalidation went
      unseen, every subscription not yet ended was last shown the present picture of its key. */
  lemma SubscribersAreCurrent(now: int, steps: seq<Step>, s: nat)
    requires NobodyCutOff(Initial(now), steps) && NoUnseenInvalidation(Initial(now), steps)
    requires s < |Exec(Initial(now), steps).subs| && Exec(Initial(now), steps).subs[s].live
    ensures var w := Exec(Initial(now), steps); Sees(w, w.subs[s].key, w.subs[s].listener)
  {
    var w := Exec(Initial(now), steps);
    SubscribersStayInTouch(now, steps);
    ViewsAreCurrent(now, steps);
    assert IsTold(w, s) && CoherentFor(w, w.subs[s].key);
  }

  /** The listener is not on the present entry of the key. */
  predicate IsDeaf(w: World, k: Key, l: Listener) {
    l !in EntryOf(w, k).listeners
  }

  lemma NotifiedSilent(w: World, key: Key, k: Key, l: Listener, shown: Option<Snapshot>)
    requires Inv(w) && IsDeaf(w, k, l) && LastShown(w, k, l, shown)
    ensures IsDeaf(Notified(w, key), k, l) && LastShown(Notified(w, key), k, l, shown)
  {
    EnsuredKeeps(w, key);
  }

  lemma EnsureSilent(w: World, key: Key, force: bool, k: Key, l: Listener, shown: Option<Snapshot>)
    requires Inv(w) && IsDeaf(w, k, l) && LastShown(w, k, l, shown)
    ensures IsDeaf(EnsuredFresh(w, key, force), k, l) && LastShown(EnsuredFresh(w, key, force), k, l, shown)
  {
    EnsuredKeeps(w, key);
    if AnswerTo(w, key, force).Started? {
      LaunchedKeeps(Ensured(w, key), key);
      NotifiedSilent(Launched(Ensured(w, key), key), key, k, l, shown);
    }
  }

  lemma SettleSilent(w: World, f: nat, r: Result, k: Key, l: Listener, shown: Option<Snapshot>)
    requires Inv(w) && IsDeaf(w, k, l) && LastShown(w, k, l, shown)
    ensures IsDeaf(Settled(w, f, r), k, l) && LastShown(Settled(w, f, r), k, l, shown)
  {
    if IsPending(w, f) {
      LandedKeeps(w, f, r);
      NotifiedSilent(Landed(w, f, r), w.fetches[f].key, k, l, shown);
    }
  }

  lemma SubscribeSilent(w: World, key: Key, m: Listener, k: Key, l: Listener, shown: Option<Snapshot>)
    requires Inv(w) && IsDeaf(w, k, l) && LastShown(w, k, l, shown) && (key != k || m != l)
    ensures IsDeaf(Subscribed(w, key, m), k, l) && LastShown(Subscribed(w, key, m), k, l, shown)
  {
    EnsuredKeeps(w, key);
  }

  lemma UnsubscribeSilent(w: World, s: nat, k: Key, l: Listener, shown: Option<Snapshot>)
    requires Inv(w) && IsDeaf(w, k, l) && LastShown(w, k, l, shown)
    ensures IsDeaf(Unsubscribed(w, s), k, l) && LastShown(Unsubscribed(w, s), k, l, shown)
  {
  }

  lemma HousekeepingSilent(w: World, step: Step, k: Key, l: Listener, shown: Option<Snapshot>)
    requires Inv(w) && IsDeaf(w, k, l) && LastShown(w, k, l, shown) && IsHousekeeping(step)
    ensures IsDeaf(Next(w, step), k, l) && LastShown(Next(w, step), k, l, shown)
  {
    match step
    case Invalidate(key) => InvalidatedEntry(w, key);
    case Reset(_) =>
    case FireTimer(_) =>
    case _ =>
  }

  lemma NextSilent(w: World, step: Step, k: Key, l: Listener, shown: Option<Snapshot>)
    requires Inv(w) && IsDeaf(w, k, l) && LastShown(w, k, l, shown) && step != Subscribe(k, l)
    ensures IsDeaf(Next(w, step), k, l) && LastShown(Next(w, step), k, l, shown)
  {
    match step
    case Subscribe(key, m) => SubscribeSilent(w, key, m, k, l, shown);
    case Unsubscribe(s) => UnsubscribeSilent(w, s, k, l, shown);
    case Ensure(key, force) => EnsureSilent(w, key, force, k, l, shown);
    case Settle(f, r) => SettleSilent(w, f, r, k, l, shown);
    case _ => HousekeepingSilent(w, step, k, l, shown);
  }

  /** Who is cut off stays cut off: in every continuation in which it does not subscribe again, a component
      whose listener is not on the present entry of the key keeps the picture it was last shown. */
  lemma {:induction false} CutOffIsSilent(w: World, steps: seq<Step>, k: Key, l: Listener, shown: Option<Snapshot>)
    requires Inv(w) && IsDeaf(w, k, l) && LastShown(w, k, l, shown) && Subscribe(k, l) !in steps
    ensures IsDeaf(Exec(w, steps), k, l) && LastShown(Exec(w, steps), k, l, shown)
  {
    if steps != [] {
      CutOffIsSilent(w, steps[..|steps| - 1], k, l, shown);
      ExecKeeps(w, steps[..|steps| - 1]);
      NextSilent(Exec(w, steps[..|steps| - 1]), steps[|steps| - 1], k, l, shown);
    }
  }

  /** So a reset freezes its subscribers: whatever happens next, new data included, a component subscribed to
      the key at the reset keeps the picture it had then until it subscribes again. */
  lemma ResetFreezesSubscribers(w: World, key: Key, l: Listener, steps: seq<Step>)
    requires Inv(w) && key in w.entries && (key, l) in w.seen && Subscribe(key, l) !in steps
    ensures LastShown(Exec(WasReset(w, key), steps), key, l, Some(w.seen[(key, l)]))
  {
    WasResetKeeps(w, key);
    CutOffIsSilent(WasReset(w, key), steps, key, l, Some(w.seen[(key, l)]));
  }

  lemma FirstMounted(now: int, key: Key, l: Listener)
    ensures var w := Subscribed(Initial(now), key, l);
            && w.entries == map[key := 0] && w.heap == [BLANK.(listeners := {l}, consumers := 1)]
            && w.fetches == [] && w.subs == [Sub(0, key, l, true)] && w.now == now
  {
    var w0 := Ensured(Initial(now), key);
    assert w0.heap == [BLANK] && w0.entries == map[key := 0];
    assert Listening(w0, key, l).heap == [BLANK.(listeners := {l})] by { assert BLANK.listeners + {l} == {l}; }
  }

  lemma FirstLoading(w: World, key: Key, l: Listener)
    requires w.entries == map[key := 0] && w.heap == [BLANK.(listeners := {l}, consumers := 1)]
    requires w.fetches == [] && w.subs == [Sub(0, key, l, true)]
    ensures var w' := EnsuredFresh(w, key, false);
            && w'.entries == w.entries && |w'.heap| == 1 && |w'.fetches| == 1 && w'.subs == w.subs && w'.now == w.now
            && (key, l) in w'.seen && w'.seen[(key, l)] == Snapshot(Loading, None, None, None)
  {
    var w1 := Launched(w, key);
    assert EntryOf(w1, key).listeners == {l} && SnapshotOf(EntryOf(w1, key)) == Snapshot(Loading, None, None, None);
  }

  lemma SecondLoading(w: World, key: Key)
    requires w.entries == map[] && |w.heap| == 1 && |w.fetches| == 1
    ensures var w' := EnsuredFresh(w, key, false);
            && w'.entries == map[key := 1] && |w'.heap| == 2 && w'.subs == w.subs && w'.now == w.now
            && |w'.fetches| == 2 && w'.fetches[1] == Fetch(1, key, true, false)
  {
  }

  lemma SecondReady(w: World, key: Key, v: Value)
    requires w.entries == map[key := 1] && |w.heap| == 2
    requires |w.fetches| == 2 && w.fetches[1] == Fetch(1, key, true, false)
    ensures var w' := Settled(w, 1, Ok(Some(v)));
            SnapshotOf(EntryOf(w', key)) == Snapshot(Ready, Some(v), None, Some(w.now)) && w'.subs == w.subs
  {
  }

  lemma MountAndLoad(now: int, key: Key, l: Listener) returns (w: World)
    ensures Reaches(Initial(now), w) && Inv(w) && w.now == now
    ensures w.entries == map[key := 0] && |w.heap| == 1 && |w.fetches| == 1 && w.subs == [Sub(0, key, l, true)]
    ensures LastShown(w, key, l, Some(Snapshot(Loading, None, None, None)))
  {
    var w0, w1 := Initial(now), Subscribed(Initial(now), key, l);
    assert Exec(w0, []) == w0;
    ReachSubscribe(w0, w0, key, l);
    FirstMounted(now, key, l);
    assert Inv(w0);
    SubscribedKeeps(w0, key, l);
    w := EnsuredFresh(w1, key, false);
    ReachEnsure(w0, w1, key);
    FirstLoading(w1, key, l);
    EnsuredFreshKeeps(w1, key, false);
  }

  lemma AfterReset(w: World, key: Key, l: Listener, shown: Option<Snapshot>)
    requires Inv(w) && w.entries == map[key := 0] && LastShown(w, key, l, shown)
    ensures var w' := WasReset(w, key);
            && Inv(w') && w'.entries == map[] && |w'.heap| == |w.heap| && w'.fetches == w.fetches
            && w'.subs == w.subs && w'.now == w.now && IsDeaf(w', key, l) && LastShown(w', key, l, shown)
  {
    WasResetKeeps(w, key);
  }

  lemma LoadAgain(w: World, key: Key, l: Listener, v: Value, shown: Option<Snapshot>)
    requires Inv(w) && w.entries == map[] && |w.heap| == 1 && |w.fetches| == 1
    requires IsDeaf(w, key, l) && LastShown(w, key, l, shown)
    ensures var w' := Settled(EnsuredFresh(w, key, false), 1, Ok(Some(v)));
            && SnapshotOf(EntryOf(w', key)) == Snapshot(Ready, Some(v), None, Some(w.now)) && w'.subs == w.subs
            && LastShown(w', key, l, shown)
  {
    var w1 := EnsuredFresh(w, key, false);
    SecondLoading(w, key);
    SecondReady(w1, key, v);
    EnsureSilent(w, key, false, key, l, shown);
    EnsuredFreshKeeps(w, key, false);
    SettleSilent(w1, 1, Ok(Some(v)), key, l, shown);
  }

  /** Such a run: a component subscribes and starts a request, the key is reset, and the next request
      succeeds. The resource is ready, the subscription was never ended, and the component still shows the
      loading state. */
  lemma ResetFreezesHappens(now: int, key: Key, l: Listener, v: Value)
    ensures exists w :: Reaches(Initial(now), w) && w.subs == [Sub(0, key, l, true)]
                        && SnapshotOf(EntryOf(w, key)) == Snapshot(Ready, Some(v), None, Some(now))
                        && LastShown(w, key, l, Some(Snapshot(Loading, None, None, None)))
  {
    var loading := Some(Snapshot(Loading, None, None, None));
    var w2 := MountAndLoad(now, key, l);
    ReachReset(Initial(now), w2, key);
    AfterReset(w2, key, l, loading);
    var w3 := WasReset(w2, key);
    ReachEnsure(Initial(now), w3, key);
    ReachSettle(Initial(now), EnsuredFresh(w3, key, false), 1, Ok(Some(v)));
    LoadAgain(w3, key, l, v, loading);
  }

  lemma ReachSubscribe(w: World, w1: World, key: Key, l: Listener)
    requires Reaches(w, w1)
    ensures Reaches(w, Subscribed(w1, key, l))
  {
    ReachNext(w, w1, Subscribe(key, l));
  }

  lemma ReachEnsure(w: World, w1: World, key: Key)
    requires Reaches(w, w1)
    ensures Reaches(w, EnsuredFresh(w1, key, false))
  {
    ReachNext(w, w1, Ensure(key, false));
  }

  lemma ReachReset(w: World, w1: World, key: Key)
    requires Reaches(w, w1)
    ensures Reaches(w, WasReset(w1, key))
  {
    ReachNext(w, w1, Reset(key));
  }

  lemma ReachSettle(w: World, w1: World, f: nat, r: Result)
    requires Reaches(w, w1)
    ensures Reaches(w, Settled(w1, f, r))
  {
    ReachNext(w, w1, Settle(f, r));
  }
}
