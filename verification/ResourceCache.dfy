/** The module-level cache of src/resources.ts on the heap: entries are objects that continuations hold
    on to, and every call is proved to take the step of the transition system. */
module ResourceCache {
  import opened Common
  import opened Resources

  class Entry {
    var data: Option<Value>
    var fetchedAt: Option<int>
    var error: Option<string>
    var inFlight: Option<nat>
    var listeners: set<Listener>
    var consumers: nat
    var controller: Option<nat>
    var cancelTimer: Option<nat>
    /** The entry's position among all entries ever created. */
    ghost const slot: nat

    constructor (ghost slot: nat)
      ensures State() == BLANK && this.slot == slot
    {
      data, fetchedAt, error, inFlight := None, None, None, None;
      listeners, consumers, controller, cancelTimer := {}, 0, None, None;
      this.slot := slot;
    }

    ghost function State(): EntryState
      reads this
    {
      EntryState(data, fetchedAt, error, inFlight, listeners, consumers, controller, cancelTimer)
    }

    /** `snapshot(key)` on the entry of the key. */
    method TakeSnapshot() returns (snap: Snapshot)
      ensures snap == SnapshotOf(State())
    {
      var failed := error.Some? && error.value != "";
      if data.None? && fetchedAt.None? {
        if inFlight.Some? {
          return Snapshot(Loading, None, None, None);
        }
        return Snapshot(if failed then Failed else Unavailable, None, error, None);
      }
      if inFlight.Some? {
        return Snapshot(Stale, data, None, fetchedAt);
      }
      if failed && data.Some? {
        return Snapshot(Stale, data, None, fetchedAt);
      }
      if failed {
        return Snapshot(Failed, None, error, None);
      }
      return Snapshot(Ready, data, None, fetchedAt);
    }
  }

  /** What a request's continuation, a timer's callback and an unsubscribe closure captured. */
  datatype Continuation = Continuation(entry: Entry, key: Key, pending: bool, aborted: bool)

  datatype Callback = Callback(entry: Entry, controller: Option<nat>, pending: bool)

  datatype Closure = Closure(entry: Entry, key: Key, listener: Listener, live: bool)

  ghost function FetchOf(c: Continuation): Fetch { Fetch(c.entry.slot, c.key, c.pending, c.aborted) }

  ghost function TimerOf(c: Callback): Timer { Timer(c.entry.slot, c.controller, c.pending) }

  ghost function SubOf(c: Closure): Sub { Sub(c.entry.slot, c.key, c.listener, c.live) }

  class Cache {
    var entries: map<Key, Entry>
    var fetches: seq<Continuation>
    var timers: seq<Callback>
    var subs: seq<Closure>
    var seen: map<(Key, Listener), Snapshot>
    var now: int
    /** Every entry ever created, reachable or not, and the abstract state. */
    ghost var objects: seq<Entry>
    ghost var world: World

    ghost predicate Known(e: Entry)
      reads `objects
    {
      e.slot < |objects| && objects[e.slot] == e
    }

    /** Every entry but `open` is as the abstract state has it. */
    ghost predicate HeapOk(open: Entry?)
      reads `objects, `world, objects
    {
      |objects| == |world.heap|
      && (forall i :: 0 <= i < |objects| ==> objects[i].slot == i)
      && forall i :: 0 <= i < |objects| && objects[i] != open ==> objects[i].State() == world.heap[i]
    }

    ghost predicate EntriesOk()
      reads `entries, `objects, `world
    {
      entries.Keys == world.entries.Keys
      && forall k :: k in entries ==> Known(entries[k]) && entries[k].slot == world.entries[k]
    }

    ghost predicate FetchesOk()
      reads `fetches, `objects, `world
    {
      |fetches| == |world.fetches|
      && forall f :: 0 <= f < |fetches| ==> Known(fetches[f].entry) && FetchOf(fetches[f]) == world.fetches[f]
    }

    ghost predicate TimersOk()
      reads `timers, `objects, `world
    {
      |timers| == |world.timers|
      && forall t :: 0 <= t < |timers| ==> Known(timers[t].entry) && TimerOf(timers[t]) == world.timers[t]
    }

    ghost predicate SubsOk()
      reads `subs, `objects, `world
    {
      |subs| == |world.subs|
      && forall s :: 0 <= s < |subs| ==> Known(subs[s].entry) && SubOf(subs[s]) == world.subs[s]
    }

    ghost predicate RefsOk()
      reads this
    {
      EntriesOk() && FetchesOk() && TimersOk() && SubsOk() && seen == world.seen && now == world.now
    }

    /** The concrete state is the abstract one; `Open(e)`: except that `e` is being written to. */
    ghost predicate Valid()
      reads this, objects
    {
      HeapOk(null) && RefsOk()
    }

    ghost predicate Open(e: Entry)
      reads this, objects
    {
      Known(e) && HeapOk(e) && RefsOk()
    }

    constructor (now: int)
      ensures Valid() && fresh(objects) && world == Initial(now)
    {
      entries, fetches, timers, subs, seen := map[], [], [], [], map[];
      this.now := now;
      objects, world := [], Initial(now);
    }

    /** The writes to `e` are done. */
    ghost method Commit(e: Entry)
      requires Open(e)
      modifies `world
      ensures Valid() && world == Put(old(world), e.slot, e.State())
    {
      world := Put(world, e.slot, e.State());
    }

    ghost method Create(key: Key, e: Entry)
      requires HeapOk(null) && FetchesOk() && TimersOk() && SubsOk() && seen == world.seen && now == world.now
      requires key !in world.entries && e.slot == |objects| && e.State() == BLANK
      requires entries.Keys == world.entries.Keys + {key} && entries[key] == e
      requires forall k :: k in world.entries ==> Known(entries[k]) && entries[k].slot == world.entries[k]
      modifies `world, `objects
      ensures Valid() && world == Ensured(old(world), key) && objects == old(objects) + [e]
    {
      objects := objects + [e];
      world := Ensured(world, key);
    }

    /** `entry(key)` */
    method EntryFor(key: Key) returns (e: Entry)
      requires Valid()
      modifies `entries, `objects, `world
      ensures Valid() && old(objects) <= objects && forall i :: |old(objects)| <= i < |objects| ==> fresh(objects[i])
      ensures world == Ensured(old(world), key) && key in entries && e == entries[key]
      ensures Known(e) && e.slot == world.entries[key] && (e in old(objects) || fresh(e))
      ensures key in old(entries) ==> entries == old(entries) && objects == old(objects)
    {
      if key in entries {
        e := entries[key];
      } else {
        e := new Entry(|objects|);
        entries := entries[key := e];
        Create(key, e);
      }
    }

    method ClearTimeout(ghost e: Entry, t: nat)
      requires Open(e)
      modifies `timers, `world
      ensures Open(e) && world == Disarmed(old(world), BLANK.(cancelTimer := Some(t)))
    {
      if t < |timers| {
        timers := timers[t := timers[t].(pending := false)];
        world := world.(timers := world.timers[t := world.timers[t].(pending := false)]);
      }
    }

    /** One more consumer of the entry, and no timer on it. */
    method Claim(e: Entry)
      requires Valid() && Known(e)
      modifies `timers, `world, e
      ensures Valid() && world == Claimed(old(world), e.slot)
    {
      e.consumers := e.consumers + 1;
      if e.cancelTimer.Some? {
        ClearTimeout(e, e.cancelTimer.value);
        e.cancelTimer := None;
      }
      Commit(e);
    }

    method AcquireConsumer(key: Key)
      requires Valid()
      modifies `entries, `objects, `timers, `world, objects
      ensures Valid() && old(objects) <= objects && forall i :: |old(objects)| <= i < |objects| ==> fresh(objects[i])
      ensures world == Acquired(old(world), key)
      ensures key in old(entries) ==> entries == old(entries) && objects == old(objects)
    {
      var e := EntryFor(key);
      Claim(e);
    }

    /** One consumer less of the entry; the last one to leave a request in flight arms the timer. */
    method Leave(e: Entry)
      requires Valid() && Known(e) && e.consumers > 0
      modifies `timers, `world, e
      ensures Valid() && world == Left(old(world), e.slot)
    {
      e.consumers := e.consumers - 1;
      if e.consumers == 0 && e.inFlight.Some? && e.cancelTimer.None? {
        e.cancelTimer := Some(|timers|);
        timers := timers + [Callback(e, e.controller, true)];
        world := world.(timers := world.timers + [Timer(e.slot, e.controller, true)]);
      }
      Commit(e);
    }

    method ReleaseConsumer(key: Key)
      requires Valid()
      modifies `timers, `world, objects
      ensures Valid() && world == Released(old(world), key)
    {
      if key !in entries || entries[key].consumers == 0 {
        return;
      }
      Leave(entries[key]);
    }

    /** The loop of `notify`, in whatever order the listeners come. */
    method CallAll(key: Key, listeners: set<Listener>, snap: Snapshot)
      modifies `seen
      ensures seen == old(seen) + map l | l in listeners :: (key, l) := snap
    {
      var todo := listeners;
      while todo != {}
        invariant todo <= listeners
        invariant seen == old(seen) + map l | l in listeners - todo :: (key, l) := snap
        decreases |todo|
      {
        var l :| l in todo;
        seen := seen[(key, l) := snap];
        todo := todo - {l};
      }
      assert listeners - todo == listeners;
    }

    method Tell(key: Key, listeners: set<Listener>, snap: Snapshot)
      requires Valid()
      modifies `seen, `world
      ensures Valid() && world == Told(old(world), key, listeners, snap)
    {
      CallAll(key, listeners, snap);
      world := Told(world, key, listeners, snap);
    }

    method Notify(key: Key)
      requires Valid()
      modifies `entries, `objects, `seen, `world
      ensures Valid() && old(objects) <= objects && forall i :: |old(objects)| <= i < |objects| ==> fresh(objects[i])
      ensures world == Notified(old(world), key)
    {
      var e := EntryFor(key);
      var snap := e.TakeSnapshot();
      Tell(key, e.listeners, snap);
    }

    /** `get(key)` */
    method Peek(key: Key) returns (snap: Snapshot)
      requires Valid()
      modifies `entries, `objects, `world
      ensures Valid() && old(objects) <= objects && forall i :: |old(objects)| <= i < |objects| ==> fresh(objects[i])
      ensures world == Ensured(old(world), key) && snap == SnapshotOf(EntryOf(world, key))
    {
      var e := EntryFor(key);
      snap := e.TakeSnapshot();
    }

    method Launch(key: Key, e: Entry)
      requires Valid() && key in entries && e == entries[key]
      modifies `fetches, `world, e
      ensures Valid() && world == Launched(old(world), key)
    {
      e.controller := Some(|fetches|);
      e.inFlight := Some(|fetches|);
      fetches := fetches + [Continuation(e, key, true, false)];
      world := world.(fetches := world.fetches + [Fetch(e.slot, key, true, false)]);
      Commit(e);
    }

    /** What `ensure` returns, read off the entry of the key. */
    method Consult(key: Key, e: Entry, force: bool) returns (answer: Answer)
      requires Valid() && key in entries && e == entries[key]
      ensures answer == AnswerTo(world, key, force)
    {
      if e.inFlight.Some? {
        return Joined(e.inFlight.value);
      }
      var isFresh := e.fetchedAt.Some? && now - e.fetchedAt.value < TtlFor(key);
      if e.data.Some? && isFresh && !force {
        return Hit(e.data.value);
      }
      return Started(|fetches|);
    }

    method Start(key: Key, e: Entry)
      requires Valid() && key in entries && e == entries[key]
      modifies `entries, `objects, `fetches, `seen, `world, e
      ensures Valid() && old(objects) <= objects && forall i :: |old(objects)| <= i < |objects| ==> fresh(objects[i])
      ensures world == Notified(Launched(old(world), key), key)
    {
      Launch(key, e);
      Notify(key);
    }

    /** `ensure(key, fetcher, { force })`, up to its first suspension. */
    method Ensure(key: Key, force: bool) returns (answer: Answer)
      requires Valid()
      modifies `entries, `objects, `fetches, `seen, `world, objects
      ensures Valid() && old(objects) <= objects && forall i :: |old(objects)| <= i < |objects| ==> fresh(objects[i])
      ensures world == EnsuredFresh(old(world), key, force) && answer == AnswerTo(old(world), key, force)
    {
      var e := EntryFor(key);
      answer := Consult(key, e, force);
      if answer.Started? {
        Start(key, e);
      }
    }

    method Land(f: nat, result: Result)
      requires Valid() && f < |fetches| && fetches[f].pending
      modifies `fetches, `world, objects
      ensures Valid() && world == Landed(old(world), f, result)
    {
      var e := fetches[f].entry;
      match result {
        case Ok(v) =>
          e.data := v;
          e.fetchedAt := Some(now);
          e.error := None;
        case Fail(m) =>
          e.error := if m.Some? then m else Some("Resource unavailable.");
      }
      e.inFlight := None;
      e.controller := None;
      fetches := fetches[f := fetches[f].(pending := false)];
      world := world.(fetches := world.fetches[f := world.fetches[f].(pending := false)]);
      Commit(e);
    }

    /** The continuation of request `f`; a promise settles once. */
    method Settle(f: nat, result: Result)
      requires Valid()
      modifies `entries, `objects, `fetches, `seen, `world, objects
      ensures Valid() && old(objects) <= objects && forall i :: |old(objects)| <= i < |objects| ==> fresh(objects[i])
      ensures world == Settled(old(world), f, result)
    {
      if f < |fetches| && fetches[f].pending {
        Land(f, result);
        Notify(fetches[f].key);
      }
    }

    /** The callback of timer `t`, if it is still armed. */
    method FireTimer(t: nat)
      requires Valid()
      modifies `timers, `fetches, `world, objects
      ensures Valid() && world == Fired(old(world), t)
    {
      if t < |timers| && timers[t].pending {
        var e, controller := timers[t].entry, timers[t].controller;
        e.cancelTimer := None;
        timers := timers[t := timers[t].(pending := false)];
        world := world.(timers := world.timers[t := world.timers[t].(pending := false)]);
        if e.consumers == 0 && e.inFlight.Some? && controller.Some? {
          Abort(e, controller.value);
        }
        Commit(e);
      }
    }

    /** `controller.abort()` */
    method Abort(ghost e: Entry, f: nat)
      requires Open(e)
      modifies `fetches, `world
      ensures Open(e)
      ensures world == if f < |old(world).fetches|
                       then old(world).(fetches := old(world).fetches[f := old(world).fetches[f].(aborted := true)])
                       else old(world)
    {
      if f < |fetches| {
        fetches := fetches[f := fetches[f].(aborted := true)];
        world := world.(fetches := world.fetches[f := world.fetches[f].(aborted := true)]);
      }
    }

    method Listen(key: Key, e: Entry, listener: Listener)
      requires Valid() && key in entries && e == entries[key]
      modifies `world, e
      ensures Valid() && world == Listening(old(world), key, listener)
    {
      e.listeners := e.listeners + {listener};
      Commit(e);
    }

    method Record(key: Key, e: Entry, listener: Listener)
      requires Valid() && key in entries && e == entries[key]
      modifies `subs, `seen, `world
      ensures Valid() && world == Recorded(old(world), key, listener)
    {
      var snap := e.TakeSnapshot();
      subs := subs + [Closure(e, key, listener, true)];
      seen := seen[(key, listener) := snap];
      world := Recorded(world, key, listener);
    }

    method Join(key: Key, e: Entry, listener: Listener)
      requires Valid() && key in entries && e == entries[key]
      modifies `entries, `objects, `timers, `world, objects
      ensures Valid() && objects == old(objects) && entries == old(entries)
      ensures world == Acquired(Listening(old(world), key, listener), key)
    {
      Listen(key, e, listener);
      AcquireConsumer(key);
    }

    method Attach(key: Key, e: Entry, listener: Listener) returns (s: nat)
      requires Valid() && key in entries && e == entries[key]
      modifies `entries, `objects, `timers, `subs, `seen, `world, objects
      ensures Valid() && objects == old(objects)
      ensures world == Attached(old(world), key, listener) && s == |old(subs)|
    {
      s := |subs|;
      Join(key, e, listener);
      Record(key, e, listener);
    }

    /** `subscribe(key, listener)`; the result stands for the unsubscribe closure. */
    method Subscribe(key: Key, listener: Listener) returns (s: nat)
      requires Valid()
      modifies `entries, `objects, `timers, `subs, `seen, `world, objects
      ensures Valid() && old(objects) <= objects && forall i :: |old(objects)| <= i < |objects| ==> fresh(objects[i])
      ensures world == Subscribed(old(world), key, listener) && s == |old(subs)|
    {
      var e := EntryFor(key);
      s := Attach(key, e, listener);
    }

    method Mute(s: nat)
      requires Valid() && s < |subs| && subs[s].live
      modifies `subs, `world, objects
      ensures Valid() && world == Muted(old(world), s)
    {
      var e := subs[s].entry;
      subs := subs[s := subs[s].(live := false)];
      e.listeners := e.listeners - {subs[s].listener};
      world := world.(subs := world.subs[s := world.subs[s].(live := false)]);
      Commit(e);
    }

    /** The unsubscribe closure. */
    method Unsubscribe(s: nat)
      requires Valid()
      modifies `timers, `subs, `world, objects
      ensures Valid() && world == Unsubscribed(old(world), s)
    {
      if s < |subs| && subs[s].live {
        Mute(s);
        ReleaseConsumer(subs[s].key);
      }
    }

    /** `invalidate(key)` */
    method Invalidate(key: Key)
      requires Valid()
      modifies `entries, `objects, `world, objects
      ensures Valid() && old(objects) <= objects && forall i :: |old(objects)| <= i < |objects| ==> fresh(objects[i])
      ensures world == Invalidated(old(world), key)
    {
      var e := EntryFor(key);
      e.fetchedAt := None;
      Commit(e);
    }

    method Disarm(e: Entry)
      requires Valid() && Known(e)
      modifies `timers, `world, e
      ensures Valid() && world == Unarmed(old(world), e.slot)
    {
      if e.cancelTimer.Some? {
        ClearTimeout(e, e.cancelTimer.value);
        e.cancelTimer := None;
      }
      Commit(e);
    }

    /** `reset(key)` */
    method Reset(key: Key)
      requires Valid()
      modifies `entries, `timers, `world, objects
      ensures Valid() && world == WasReset(old(world), key)
    {
      if key in entries {
        Disarm(entries[key]);
        entries := entries - {key};
        world := world.(entries := world.entries - {key});
      }
    }
  }
}
