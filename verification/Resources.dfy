/** The shared resource cache of src/resources.ts as a transition system: entries are heap objects that
    pending continuations (fetches, timers, unsubscribe closures) capture by reference. */
module Resources {
  import opened Common

  type Key = string
  type Value = string
  type Listener = nat

  // ---- State -----------------------------------------------------------------------------

  /** One entry; requests, controllers and timers are named by their number. A request and its
      abort controller share one number. */
  datatype EntryState = EntryState(
    data: Option<Value>, fetchedAt: Option<int>, error: Option<string>, inFlight: Option<nat>,
    listeners: set<Listener>, consumers: nat, controller: Option<nat>, cancelTimer: Option<nat>)

  const BLANK := EntryState(None, None, None, None, {}, 0, None, None)

  /** A request: the entry and key its continuation captured. */
  datatype Fetch = Fetch(entry: nat, key: Key, pending: bool, aborted: bool)

  /** A grace timer: the entry and the controller its callback captured. */
  datatype Timer = Timer(entry: nat, controller: Option<nat>, pending: bool)

  /** A subscription: what its unsubscribe closure captured, and whether it is still to be run. */
  datatype Sub = Sub(entry: nat, key: Key, listener: Listener, live: bool)

  datatype ResourceState = Unavailable | Loading | Ready | Stale | Failed

  datatype Snapshot = Snapshot(state: ResourceState, data: Option<Value>, error: Option<string>, fetchedAt: Option<int>)

  /** `heap` holds every entry ever created, `entries` the reachable ones; `seen` is what each listener
      was last called with. */
  datatype World = World(
    entries: map<Key, nat>, heap: seq<EntryState>, fetches: seq<Fetch>, timers: seq<Timer>, subs: seq<Sub>,
    seen: map<(Key, Listener), Snapshot>, now: int)

  function Initial(now: int): World {
    World(map[], [], [], [], [], map[], now)
  }

  const DEFAULT_TTL_MS := 30_000

  function TtlFor(key: Key): int {
    match key
    case "config" => 15_000
    case "models" => 60_000
    case "presets" => 120_000
    case "tools" => 120_000
    case "sysinfo" => 120_000
    case "environment" => 60_000
    case "health" => 60_000
    case "engine" => 10_000
    case _ => DEFAULT_TTL_MS
  }

  /** An error message counts only when it is not empty. */
  predicate HasError(e: EntryState) {
    e.error.Some? && e.error.value != ""
  }

  function SnapshotOf(e: EntryState): Snapshot {
    if e.data.None? && e.fetchedAt.None? then
      if e.inFlight.Some? then Snapshot(Loading, None, None, None)
      else Snapshot(if HasError(e) then Failed else Unavailable, None, e.error, None)
    else if e.inFlight.Some? then Snapshot(Stale, e.data, None, e.fetchedAt)
    else if HasError(e) && e.data.Some? then Snapshot(Stale, e.data, None, e.fetchedAt)
    else if HasError(e) then Snapshot(Failed, None, e.error, None)
    else Snapshot(Ready, e.data, None, e.fetchedAt)
  }

  function At(w: World, i: nat): EntryState {
    if i < |w.heap| then w.heap[i] else BLANK
  }

  /** The entry a reader of `key` sees; a missing one reads as blank. */
  function EntryOf(w: World, key: Key): EntryState {
    if key in w.entries then At(w, w.entries[key]) else BLANK
  }

  function Put(w: World, i: nat, e: EntryState): World {
    if i < |w.heap| then w.(heap := w.heap[i := e]) else w
  }

  // ---- Operations ------------------------------------------------------------------------

  /** `entry(key)`: the entry, created when missing. */
  function Ensured(w: World, key: Key): World {
    if key in w.entries then w
    else w.(entries := w.entries[key := |w.heap|], heap := w.heap + [BLANK])
  }

  function Told(w: World, key: Key, listeners: set<Listener>, snap: Snapshot): World {
    w.(seen := w.seen + map l | l in listeners :: (key, l) := snap)
  }

  /** Every listener of `key`'s entry is called with its snapshot. */
  function Notified(w: World, key: Key): World {
    var w1 := Ensured(w, key);
    Told(w1, key, EntryOf(w1, key).listeners, SnapshotOf(EntryOf(w1, key)))
  }

  function Disarmed(w: World, e: EntryState): World {
    if e.cancelTimer.Some? && e.cancelTimer.value < |w.timers|
    then w.(timers := w.timers[e.cancelTimer.value := w.timers[e.cancelTimer.value].(pending := false)])
    else w
  }

  /** One more consumer of entry `i`, and no timer on it. */
  function Claimed(w: World, i: nat): World {
    var e := At(w, i);
    Put(Disarmed(w, e), i, e.(consumers := e.consumers + 1, cancelTimer := None))
  }

  function Acquired(w: World, key: Key): World {
    var w1 := Ensured(w, key);
    Claimed(w1, w1.entries[key])
  }

  /** One consumer less of entry `i`; the last one to leave a request in flight arms the timer. */
  function Left(w: World, i: nat): World
    requires At(w, i).consumers > 0
  {
    var e := At(w, i);
    if e.consumers == 1 && e.inFlight.Some? && e.cancelTimer.None? then
      Put(w, i, e.(consumers := 0, cancelTimer := Some(|w.timers|)))
        .(timers := w.timers + [Timer(i, e.controller, true)])
    else Put(w, i, e.(consumers := e.consumers - 1))
  }

  function Released(w: World, key: Key): World {
    if key !in w.entries || EntryOf(w, key).consumers == 0 then w else Left(w, w.entries[key])
  }

  function Listening(w: World, key: Key, listener: Listener): World
    requires key in w.entries
  {
    var e := EntryOf(w, key);
    Put(w, w.entries[key], e.(listeners := e.listeners + {listener}))
  }

  /** The unsubscribe closure exists and the listener was called once. */
  function Recorded(w: World, key: Key, listener: Listener): World
    requires key in w.entries
  {
    w.(subs := w.subs + [Sub(w.entries[key], key, listener, true)],
       seen := w.seen[(key, listener) := SnapshotOf(EntryOf(w, key))])
  }

  /** The listener is on the entry, counted, recorded, and was called once. */
  function Attached(w: World, key: Key, listener: Listener): World
    requires key in w.entries
  {
    Recorded(Acquired(Listening(w, key, listener), key), key, listener)
  }

  function Subscribed(w: World, key: Key, listener: Listener): World {
    Attached(Ensured(w, key), key, listener)
  }

  /** The unsubscribe closure ran: its listener is off the entry it captured. */
  function Muted(w: World, s: nat): World
    requires s < |w.subs|
  {
    var sub := w.subs[s];
    var e := At(w, sub.entry);
    var w1 := Put(w, sub.entry, e.(listeners := e.listeners - {sub.listener}));
    w1.(subs := w1.subs[s := sub.(live := false)])
  }

  function Unsubscribed(w: World, s: nat): World {
    if s < |w.subs| && w.subs[s].live then Released(Muted(w, s), w.subs[s].key) else w
  }

  predicate IsFresh(w: World, key: Key) {
    var e := EntryOf(w, key);
    e.fetchedAt.Some? && w.now - e.fetchedAt.value < TtlFor(key)
  }

  /** How `ensure` answers. */
  datatype Answer = Joined(f: nat) | Hit(value: Value) | Started(f: nat)

  function AnswerTo(w: World, key: Key, force: bool): Answer {
    var e := EntryOf(w, key);
    if e.inFlight.Some? then Joined(e.inFlight.value)
    else if e.data.Some? && IsFresh(w, key) && !force then Hit(e.data.value)
    else Started(|w.fetches|)
  }

  /** A request for `key` was started on its entry, and nobody was notified yet. */
  function Launched(w: World, key: Key): World
    requires key in w.entries
  {
    var i, f := w.entries[key], |w.fetches|;
    Put(w, i, At(w, i).(controller := Some(f), inFlight := Some(f)))
      .(fetches := w.fetches + [Fetch(i, key, true, false)])
  }

  function EnsuredFresh(w: World, key: Key, force: bool): World {
    var w1 := Ensured(w, key);
    if AnswerTo(w, key, force).Started? then Notified(Launched(w1, key), key) else w1
  }

  /** How a request settles: a value (`None` is null), or an error message (`None` when what was thrown
      is not an `Error`). */
  datatype Result = Ok(value: Option<Value>) | Fail(message: Option<string>)

  function After(e: EntryState, result: Result, now: int): EntryState {
    match result
    case Ok(v) => e.(data := v, fetchedAt := Some(now), error := None, inFlight := None, controller := None)
    case Fail(m) =>
      e.(error := if m.Some? then m else Some("Resource unavailable."), inFlight := None, controller := None)
  }

  predicate IsPending(w: World, f: nat) {
    f < |w.fetches| && w.fetches[f].pending
  }

  /** A request settled into the entry it captured, and nobody was notified yet. */
  function Landed(w: World, f: nat, result: Result): World
    requires IsPending(w, f)
  {
    var fetch := w.fetches[f];
    Put(w, fetch.entry, After(At(w, fetch.entry), result, w.now)).(fetches := w.fetches[f := fetch.(pending := false)])
  }

  function Settled(w: World, f: nat, result: Result): World {
    if IsPending(w, f) then Notified(Landed(w, f, result), w.fetches[f].key) else w
  }

  predicate IsArmed(w: World, t: nat) {
    t < |w.timers| && w.timers[t].pending
  }

  /** The request the firing timer aborts, if any. */
  function AbortTarget(w: World, t: nat): Option<nat> {
    if !IsArmed(w, t) then None
    else
      var e := At(w, w.timers[t].entry);
      if e.consumers == 0 && e.inFlight.Some? then w.timers[t].controller else None
  }

  function Fired(w: World, t: nat): World {
    if !IsArmed(w, t) then w
    else
      var timer := w.timers[t];
      var target := AbortTarget(w, t);
      var w1 := Put(w, timer.entry, At(w, timer.entry).(cancelTimer := None));
      w1.(timers := w1.timers[t := timer.(pending := false)],
          fetches := if target.Some? && target.value < |w.fetches|
                     then w.fetches[target.value := w.fetches[target.value].(aborted := true)]
                     else w.fetches)
  }

  function Invalidated(w: World, key: Key): World {
    var w1 := Ensured(w, key);
    Put(w1, w1.entries[key], EntryOf(w1, key).(fetchedAt := None))
  }

  /** No timer on entry `i` any more. */
  function Unarmed(w: World, i: nat): World {
    var e := At(w, i);
    Put(Disarmed(w, e), i, e.(cancelTimer := None))
  }

  function WasReset(w: World, key: Key): World {
    if key !in w.entries then w
    else Unarmed(w, w.entries[key]).(entries := w.entries - {key})
  }

  datatype Step =
    | Subscribe(key: Key, listener: Listener)
    | Unsubscribe(s: nat)
    | Ensure(key: Key, force: bool)
    | Settle(f: nat, result: Result)
    | FireTimer(t: nat)
    | Invalidate(key: Key)
    | Reset(key: Key)
    | Get(key: Key)
    | Tick(ms: int)

  function Next(w: World, step: Step): World {
    match step
    case Subscribe(k, l) => Subscribed(w, k, l)
    case Unsubscribe(s) => Unsubscribed(w, s)
    case Ensure(k, force) => EnsuredFresh(w, k, force)
    case Settle(f, r) => Settled(w, f, r)
    case FireTimer(t) => Fired(w, t)
    case Invalidate(k) => Invalidated(w, k)
    case Reset(k) => WasReset(w, k)
    case Get(k) => Ensured(w, k)
    case Tick(ms) => w.(now := w.now + ms)
  }

  /** The world after a run. */
  function Exec(w: World, steps: seq<Step>): World {
    if steps == [] then w else Next(Exec(w, steps[..|steps| - 1]), steps[|steps| - 1])
  }

  lemma ExecSnoc(w: World, steps: seq<Step>, step: Step)
    ensures Exec(w, steps + [step]) == Next(Exec(w, steps), step)
  {
    assert (steps + [step])[..|steps|] == steps;
  }

  /** A run leads from `w` to `w'`. */
  ghost predicate Reaches(w: World, w': World) {
    exists steps :: Exec(w, steps) == w'
  }

  lemma ReachNext(w: World, w1: World, step: Step)
    requires Reaches(w, w1)
    ensures Reaches(w, Next(w1, step))
  {
    var steps :| Exec(w, steps) == w1;
    ExecSnoc(w, steps, step);
  }

  // ---- Invariants of every run -----------------------------------------------------------

  /** Reachable entries exist and are not shared between keys. */
  ghost predicate EntriesOk(w: World) {
    && (forall k :: k in w.entries ==> w.entries[k] < |w.heap|)
    && forall k, k' :: k in w.entries && k' in w.entries && w.entries[k] == w.entries[k'] ==> k == k'
  }

  /** The request and controller of an entry are the same pending one, and an armed timer means that
      nobody is subscribed. */
  ghost predicate EntryOk(w: World, i: nat) {
    i < |w.heap| ==>
      var e := w.heap[i];
      && e.controller == e.inFlight
      && (e.inFlight.Some? ==> IsPending(w, e.inFlight.value) && w.fetches[e.inFlight.value].entry == i)
      && (e.cancelTimer.Some? ==> IsArmed(w, e.cancelTimer.value) && w.timers[e.cancelTimer.value].entry == i && e.consumers == 0)
  }

  /** A pending request is the one in flight on its entry. */
  ghost predicate FetchOk(w: World, f: nat) {
    f < |w.fetches| ==>
      && w.fetches[f].entry < |w.heap|
      && (w.fetches[f].pending ==> w.heap[w.fetches[f].entry].inFlight == Some(f))
  }

  ghost predicate IsCurrent(w: World, i: nat) {
    exists k :: k in w.entries && w.entries[k] == i
  }

  /** An armed timer is the one its entry remembers, the entry is reachable, and the captured
      controller belongs to a request of that entry. */
  ghost predicate TimerOk(w: World, t: nat) {
    t < |w.timers| ==>
      && w.timers[t].entry < |w.heap|
      && (w.timers[t].pending ==> w.heap[w.timers[t].entry].cancelTimer == Some(t) && IsCurrent(w, w.timers[t].entry))
      && w.timers[t].controller.Some? && w.timers[t].controller.value < |w.fetches|
      && w.fetches[w.timers[t].controller.value].entry == w.timers[t].entry
  }

  /** What was captured for an entry was captured under its key, as long as it is reachable. */
  ghost predicate SubsOk(w: World) {
    && (forall s :: 0 <= s < |w.subs| ==> w.subs[s].entry < |w.heap|)
    && (forall k, s :: k in w.entries && 0 <= s < |w.subs| && w.subs[s].entry == w.entries[k] ==> w.subs[s].key == k)
  }

  ghost predicate KeysOk(w: World) {
    && SubsOk(w)
    && (forall k, f :: k in w.entries && 0 <= f < |w.fetches| && w.fetches[f].entry == w.entries[k] ==> w.fetches[f].key == k)
  }

  ghost predicate Inv(w: World) {
    && EntriesOk(w) && KeysOk(w)
    && (forall i: nat :: EntryOk(w, i))
    && (forall f: nat :: FetchOk(w, f))
    && (forall t: nat :: TimerOk(w, t))
  }

  /** Two worlds that differ only in what the invariant does not look at. */
  ghost predicate SameCore(w: World, w': World) {
    && w'.entries == w.entries && w'.fetches == w.fetches && w'.timers == w.timers && |w'.heap| == |w.heap|
    && forall i :: 0 <= i < |w.heap| ==>
         && w'.heap[i].inFlight == w.heap[i].inFlight && w'.heap[i].controller == w.heap[i].controller
         && w'.heap[i].consumers == w.heap[i].consumers && w'.heap[i].cancelTimer == w.heap[i].cancelTimer
  }

  lemma SameCoreKeeps(w: World, w': World)
    requires Inv(w) && SameCore(w, w') && SubsOk(w')
    ensures Inv(w')
  {
    forall i: nat ensures EntryOk(w', i) { assert EntryOk(w, i); }
    forall f: nat ensures FetchOk(w', f) { assert FetchOk(w, f); }
    forall t: nat ensures TimerOk(w', t) {
      assert TimerOk(w, t);
      if t < |w.timers| && IsCurrent(w, w.timers[t].entry) {
        CurrentByEntries(w, w', w.timers[t].entry);
      }
    }
  }

  lemma CurrentByEntries(w: World, w': World, i: nat)
    requires IsCurrent(w, i)
    requires forall k :: k in w.entries ==> k in w'.entries && w'.entries[k] == w.entries[k]
    ensures IsCurrent(w', i)
  {
    var k :| k in w.entries && w.entries[k] == i;
    assert k in w'.entries && w'.entries[k] == i;
  }

  lemma EnsuredKeeps(w: World, key: Key)
    requires Inv(w)
    ensures Inv(Ensured(w, key))
    ensures EntryOf(Ensured(w, key), key) == EntryOf(w, key)
  {
    var w1 := Ensured(w, key);
    if key !in w.entries {
      forall f: nat ensures FetchOk(w1, f) { assert FetchOk(w, f); }
      forall i: nat ensures EntryOk(w1, i) { assert EntryOk(w, i); }
      forall t: nat ensures TimerOk(w1, t) {
        assert TimerOk(w, t);
        if t < |w.timers| && IsCurrent(w, w.timers[t].entry) {
          CurrentByEntries(w, w1, w.timers[t].entry);
        }
      }
      EnsuredKeys(w, key);
    }
  }

  lemma EnsuredKeys(w: World, key: Key)
    requires Inv(w)
    ensures EntriesOk(Ensured(w, key)) && KeysOk(Ensured(w, key))
  {
    forall f | 0 <= f < |w.fetches| ensures w.fetches[f].entry < |w.heap| { assert FetchOk(w, f); }
  }

  lemma NotifiedKeeps(w: World, key: Key)
    requires Inv(w)
    ensures Inv(Notified(w, key))
  {
    EnsuredKeeps(w, key);
    SameCoreKeeps(Ensured(w, key), Notified(w, key));
  }

  /** One more consumer, no timer. */
  lemma AcquiredKeeps(w: World, key: Key)
    requires Inv(w) && key in w.entries
    ensures Inv(Acquired(w, key))
  {
    var i, e, w' := w.entries[key], EntryOf(w, key), Acquired(w, key);
    assert EntryOk(w, i);
    forall f: nat ensures FetchOk(w', f) { assert FetchOk(w, f); }
    forall j: nat ensures EntryOk(w', j) { assert EntryOk(w, j); }
    forall t: nat ensures TimerOk(w', t) {
      assert TimerOk(w, t);
      if t < |w.timers| && IsCurrent(w, w.timers[t].entry) {
        CurrentByEntries(w, w', w.timers[t].entry);
      }
    }
  }

  lemma ReleasedKeeps(w: World, key: Key)
    requires Inv(w)
    ensures Inv(Released(w, key))
  {
    if key in w.entries && EntryOf(w, key).consumers != 0 {
      var i, e, w' := w.entries[key], EntryOf(w, key), Released(w, key);
      assert EntryOk(w, i);
      forall f: nat ensures FetchOk(w', f) { assert FetchOk(w, f); }
      forall j: nat ensures EntryOk(w', j) { assert EntryOk(w, j); }
      forall t: nat ensures TimerOk(w', t) {
        assert TimerOk(w, t);
        if t < |w.timers| && IsCurrent(w, w.timers[t].entry) {
          CurrentByEntries(w, w', w.timers[t].entry);
        }
        assert IsCurrent(w', i) by { assert key in w'.entries; }
      }
    }
  }

  lemma ListeningKeeps(w: World, key: Key, listener: Listener)
    requires Inv(w) && key in w.entries
    ensures Inv(Listening(w, key, listener))
  {
    SameCoreKeeps(w, Listening(w, key, listener));
  }

  lemma SubscribedKeeps(w: World, key: Key, listener: Listener)
    requires Inv(w)
    ensures Inv(Subscribed(w, key, listener))
  {
    EnsuredKeeps(w, key);
    ListeningKeeps(Ensured(w, key), key, listener);
    var w1 := Listening(Ensured(w, key), key, listener);
    AcquiredKeeps(w1, key);
    RecordedKeeps(Acquired(w1, key), Subscribed(w, key, listener), key, listener);
  }

  lemma RecordedKeeps(w: World, w': World, key: Key, listener: Listener)
    requires Inv(w) && key in w.entries
    requires SameCore(w, w') && w'.subs == w.subs + [Sub(w.entries[key], key, listener, true)]
    ensures Inv(w')
  {
    SameCoreKeeps(w, w');
  }

  lemma UnsubscribedKeeps(w: World, s: nat)
    requires Inv(w)
    ensures Inv(Unsubscribed(w, s))
  {
    if s < |w.subs| && w.subs[s].live {
      var w2 := Muted(w, s);
      SameCoreKeeps(w, w2);
      ReleasedKeeps(w2, w.subs[s].key);
    }
  }

  lemma LaunchedKeeps(w: World, key: Key)
    requires Inv(w) && key in w.entries && EntryOf(w, key).inFlight.None?
    ensures Inv(Launched(w, key))
  {
    var i, w' := w.entries[key], Launched(w, key);
    forall f: nat ensures FetchOk(w', f) { assert FetchOk(w, f); }
    forall j: nat ensures EntryOk(w', j) { assert EntryOk(w, j); }
    forall t: nat ensures TimerOk(w', t) {
      assert TimerOk(w, t);
      if t < |w.timers| && IsCurrent(w, w.timers[t].entry) {
        CurrentByEntries(w, w', w.timers[t].entry);
      }
    }
  }

  lemma EnsuredFreshKeeps(w: World, key: Key, force: bool)
    requires Inv(w)
    ensures Inv(EnsuredFresh(w, key, force))
  {
    EnsuredKeeps(w, key);
    if AnswerTo(w, key, force).Started? {
      var w1 := Ensured(w, key);
      LaunchedKeeps(w1, key);
      NotifiedKeeps(Launched(w1, key), key);
    }
  }

  lemma LandedKeeps(w: World, f: nat, result: Result)
    requires Inv(w) && IsPending(w, f)
    ensures Inv(Landed(w, f, result))
  {
    var i, w' := w.fetches[f].entry, Landed(w, f, result);
    assert FetchOk(w, f);
    forall g: nat ensures FetchOk(w', g) { assert FetchOk(w, g); }
    forall j: nat ensures EntryOk(w', j) { assert EntryOk(w, j); }
    forall t: nat ensures TimerOk(w', t) {
      assert TimerOk(w, t);
      if t < |w.timers| && IsCurrent(w, w.timers[t].entry) {
        CurrentByEntries(w, w', w.timers[t].entry);
      }
    }
  }

  lemma SettledKeeps(w: World, f: nat, result: Result)
    requires Inv(w)
    ensures Inv(Settled(w, f, result))
  {
    if IsPending(w, f) {
      LandedKeeps(w, f, result);
      NotifiedKeeps(Landed(w, f, result), w.fetches[f].key);
    }
  }

  lemma FiredKeeps(w: World, t: nat)
    requires Inv(w)
    ensures Inv(Fired(w, t))
  {
    if IsArmed(w, t) {
      var w' := Fired(w, t);
      assert TimerOk(w, t);
      forall f: nat ensures FetchOk(w', f) { assert FetchOk(w, f); }
      forall j: nat ensures EntryOk(w', j) { assert EntryOk(w, j); }
      forall u: nat ensures TimerOk(w', u) {
        assert TimerOk(w, u);
        if u < |w.timers| && IsCurrent(w, w.timers[u].entry) {
          CurrentByEntries(w, w', w.timers[u].entry);
        }
      }
    }
  }

  lemma InvalidatedKeeps(w: World, key: Key)
    requires Inv(w)
    ensures Inv(Invalidated(w, key))
  {
    EnsuredKeeps(w, key);
    SameCoreKeeps(Ensured(w, key), Invalidated(w, key));
  }

  lemma WasResetKeeps(w: World, key: Key)
    requires Inv(w)
    ensures Inv(WasReset(w, key))
  {
    if key in w.entries {
      var i, w' := w.entries[key], WasReset(w, key);
      assert EntryOk(w, i);
      forall f: nat ensures FetchOk(w', f) { assert FetchOk(w, f); }
      forall j: nat ensures EntryOk(w', j) { assert EntryOk(w, j); }
      forall t: nat ensures TimerOk(w', t) {
        assert TimerOk(w, t);
        if t < |w.timers| && w'.timers[t].pending {
          var k :| k in w.entries && w.entries[k] == w.timers[t].entry;
          assert k != key;
          assert k in w'.entries && w'.entries[k] == w'.timers[t].entry;
        }
      }
    }
  }

  lemma NextKeeps(w: World, step: Step)
    requires Inv(w)
    ensures Inv(Next(w, step))
  {
    match step
    case Subscribe(k, l) => SubscribedKeeps(w, k, l);
    case Unsubscribe(s) => UnsubscribedKeeps(w, s);
    case Ensure(k, force) => EnsuredFreshKeeps(w, k, force);
    case Settle(f, r) => SettledKeeps(w, f, r);
    case FireTimer(t) => FiredKeeps(w, t);
    case Invalidate(k) => InvalidatedKeeps(w, k);
    case Reset(k) => WasResetKeeps(w, k);
    case Get(k) => EnsuredKeeps(w, k);
    case Tick(ms) => SameCoreKeeps(w, Next(w, step));
  }

  /** In every run, resets included: one unsettled request per entry, and an armed timer means that its
      entry is reachable and has no consumer. */
  lemma {:induction false} ExecKeeps(w: World, steps: seq<Step>)
    requires Inv(w)
    ensures Inv(Exec(w, steps))
  {
    if steps != [] {
      ExecKeeps(w, steps[..|steps| - 1]);
      NextKeeps(Exec(w, steps[..|steps| - 1]), steps[|steps| - 1]);
    }
  }

  // ---- What steps never change -----------------------------------------------------------

  /** What was captured stays captured: nothing recorded is lost or rebound, nothing settled or ended
      becomes pending again. */
  ghost predicate Grows(w: World, w': World) {
    && |w.heap| <= |w'.heap| && |w.fetches| <= |w'.fetches| && |w.timers| <= |w'.timers| && |w.subs| <= |w'.subs|
    && (forall f :: 0 <= f < |w.fetches| ==> SameFetch(w.fetches[f], w'.fetches[f]))
    && (forall t :: 0 <= t < |w.timers| ==> SameTimer(w.timers[t], w'.timers[t]))
    && (forall s :: 0 <= s < |w.subs| ==> SameSub(w.subs[s], w'.subs[s]))
    && (forall k :: k in w'.entries ==> (k in w.entries && w'.entries[k] == w.entries[k]) || w'.entries[k] >= |w.heap|)
  }

  ghost predicate SameFetch(a: Fetch, b: Fetch) { b.entry == a.entry && b.key == a.key && (b.pending ==> a.pending) }

  ghost predicate SameTimer(a: Timer, b: Timer) { b.entry == a.entry && b.controller == a.controller && (b.pending ==> a.pending) }

  ghost predicate SameSub(a: Sub, b: Sub) { b.entry == a.entry && b.key == a.key && b.listener == a.listener && (b.live ==> a.live) }

  lemma GrowsTransitive(a: World, b: World, c: World)
    requires Grows(a, b) && Grows(b, c)
    ensures Grows(a, c)
  {
    forall f | 0 <= f < |a.fetches| ensures SameFetch(a.fetches[f], c.fetches[f]) {
      assert SameFetch(a.fetches[f], b.fetches[f]) && SameFetch(b.fetches[f], c.fetches[f]);
    }
    forall t | 0 <= t < |a.timers| ensures SameTimer(a.timers[t], c.timers[t]) {
      assert SameTimer(a.timers[t], b.timers[t]) && SameTimer(b.timers[t], c.timers[t]);
    }
    forall s | 0 <= s < |a.subs| ensures SameSub(a.subs[s], c.subs[s]) {
      assert SameSub(a.subs[s], b.subs[s]) && SameSub(b.subs[s], c.subs[s]);
    }
  }

  lemma AcquiredGrows(w: World, key: Key)
    ensures Grows(w, Acquired(w, key))
  {
  }

  lemma ReleasedGrows(w: World, key: Key)
    ensures Grows(w, Released(w, key))
  {
  }

  lemma SubscribedGrows(w: World, key: Key, listener: Listener)
    ensures Grows(w, Subscribed(w, key, listener))
  {
    var w1 := Listening(Ensured(w, key), key, listener);
    AcquiredGrows(w1, key);
    GrowsTransitive(w, w1, Acquired(w1, key));
    RecordedGrows(w, Acquired(w1, key), Subscribed(w, key, listener));
  }

  lemma RecordedGrows(w: World, w1: World, w2: World)
    requires Grows(w, w1) && w2 == w1.(subs := w2.subs, seen := w2.seen) && w1.subs <= w2.subs
    ensures Grows(w, w2)
  {
  }

  lemma UnsubscribedGrows(w: World, s: nat)
    ensures Grows(w, Unsubscribed(w, s))
  {
    if s < |w.subs| && w.subs[s].live {
      var w2 := Muted(w, s);
      ReleasedGrows(w2, w.subs[s].key);
      GrowsTransitive(w, w2, Unsubscribed(w, s));
    }
  }

  lemma NotifiedGrows(w: World, key: Key)
    ensures Grows(w, Notified(w, key))
  {
  }

  lemma EnsuredFreshGrows(w: World, key: Key, force: bool)
    ensures Grows(w, EnsuredFresh(w, key, force))
  {
    if AnswerTo(w, key, force).Started? {
      var w1 := Launched(Ensured(w, key), key);
      NotifiedGrows(w1, key);
      GrowsTransitive(w, w1, EnsuredFresh(w, key, force));
    }
  }

  lemma SettledGrows(w: World, f: nat, result: Result)
    ensures Grows(w, Settled(w, f, result))
  {
    if IsPending(w, f) {
      var w1 := Landed(w, f, result);
      NotifiedGrows(w1, w.fetches[f].key);
      GrowsTransitive(w, w1, Settled(w, f, result));
    }
  }

  lemma InvalidatedGrows(w: World, key: Key)
    ensures Grows(w, Invalidated(w, key))
  {
  }

  lemma WasResetGrows(w: World, key: Key)
    ensures Grows(w, WasReset(w, key))
  {
  }

  lemma FiredGrows(w: World, t: nat)
    ensures Grows(w, Fired(w, t))
  {
  }

  /** The steps that change no request and no subscription record other than by ageing. */
  predicate IsHousekeeping(step: Step) {
    step.Invalidate? || step.Reset? || step.FireTimer? || step.Get? || step.Tick?
  }

  lemma HousekeepingGrows(w: World, step: Step)
    requires IsHousekeeping(step)
    ensures Grows(w, Next(w, step))
  {
    match step
    case Invalidate(k) => InvalidatedGrows(w, k);
    case Reset(k) => WasResetGrows(w, k);
    case FireTimer(t) => FiredGrows(w, t);
    case _ =>
  }

  lemma NextGrows(w: World, step: Step)
    ensures Grows(w, Next(w, step))
  {
    match step
    case Subscribe(k, l) => SubscribedGrows(w, k, l);
    case Unsubscribe(s) => UnsubscribedGrows(w, s);
    case Ensure(k, force) => EnsuredFreshGrows(w, k, force);
    case Settle(f, r) => SettledGrows(w, f, r);
    case _ => HousekeepingGrows(w, step);
  }

  lemma {:induction false} ExecGrows(w: World, steps: seq<Step>)
    ensures Grows(w, Exec(w, steps))
  {
    if steps != [] {
      var front := Exec(w, steps[..|steps| - 1]);
      ExecGrows(w, steps[..|steps| - 1]);
      NextGrows(front, steps[|steps| - 1]);
      GrowsTransitive(w, front, Exec(w, steps));
    }
  }

  /** The reachable entries after a step: at most one key is added, and only `Reset` takes one out. */
  function EntriesAfter(w: World, step: Step): map<Key, nat> {
    match step
    case Subscribe(k, _) => Ensured(w, k).entries
    case Ensure(k, _) => Ensured(w, k).entries
    case Settle(f, _) => if IsPending(w, f) then Ensured(w, w.fetches[f].key).entries else w.entries
    case Invalidate(k) => Ensured(w, k).entries
    case Get(k) => Ensured(w, k).entries
    case Reset(k) => w.entries - {k}
    case _ => w.entries
  }

  lemma SubscribedEntries(w: World, key: Key, listener: Listener)
    ensures Subscribed(w, key, listener).entries == Ensured(w, key).entries
  {
  }

  lemma UnsubscribedEntries(w: World, s: nat)
    ensures Unsubscribed(w, s).entries == w.entries
  {
  }

  lemma EnsuredFreshEntries(w: World, key: Key, force: bool)
    ensures EnsuredFresh(w, key, force).entries == Ensured(w, key).entries
  {
  }

  lemma SettledEntries(w: World, f: nat, result: Result)
    ensures Settled(w, f, result).entries == EntriesAfter(w, Settle(f, result))
  {
  }

  lemma NextEntries(w: World, step: Step)
    ensures Next(w, step).entries == EntriesAfter(w, step)
  {
    match step
    case Subscribe(k, l) => SubscribedEntries(w, k, l);
    case Unsubscribe(s) => UnsubscribedEntries(w, s);
    case Ensure(k, force) => EnsuredFreshEntries(w, k, force);
    case Settle(f, r) => SettledEntries(w, f, r);
    case _ =>
  }
}
