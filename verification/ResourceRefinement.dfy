/** What a reader of src/resources.ts may rely on: one record per key that only the latest request of
    that key can change, whatever resets, aborts and late responses do. */
module ResourceRefinement {
  import opened Common
  import opened Resources

  // ---- The simple specification ----------------------------------------------------------

  /** What an observer of the calls and settlements sees. */
  datatype Event =
    | Requested(key: Key, f: nat)
    | Succeeded(f: nat, value: Option<Value>, at: int)
    | FailedWith(f: nat, message: Option<string>)
    | Expired(key: Key)
    | Dropped(key: Key)
    | Silent

  function Observe(w: World, step: Step): Event {
    match step
    case Ensure(k, force) => if AnswerTo(w, k, force).Started? then Requested(k, |w.fetches|) else Silent
    case Settle(f, r) =>
      if !IsPending(w, f) then Silent
      else if r.Ok? then Succeeded(f, r.value, w.now) else FailedWith(f, r.message)
    case Invalidate(k) => Expired(k)
    case Reset(k) => Dropped(k)
    case _ => Silent
  }

  /** One record per key, with at most one request under way. */
  datatype Cell = Cell(data: Option<Value>, fetchedAt: Option<int>, error: Option<string>, pending: Option<nat>)

  const EMPTY := Cell(None, None, None, None)

  function CellNext(c: Cell, key: Key, event: Event): Cell {
    match event
    case Requested(k, f) => if k == key then c.(pending := Some(f)) else c
    case Succeeded(f, v, at) => if c.pending == Some(f) then Cell(v, Some(at), None, None) else c
    case FailedWith(f, m) =>
      if c.pending == Some(f)
      then c.(error := if m.Some? then m else Some("Resource unavailable."), pending := None) else c
    case Expired(k) => if k == key then c.(fetchedAt := None) else c
    case Dropped(k) => if k == key then EMPTY else c
    case Silent => c
  }

  function CellAfter(log: seq<Event>, key: Key): Cell {
    if log == [] then EMPTY else CellNext(CellAfter(log[..|log| - 1], key), key, log[|log| - 1])
  }

  function Log(w: World, steps: seq<Step>): seq<Event> {
    if steps == [] then []
    else Log(w, steps[..|steps| - 1]) + [Observe(Exec(w, steps[..|steps| - 1]), steps[|steps| - 1])]
  }

  function CellOf(w: World, key: Key): Cell {
    var e := EntryOf(w, key); Cell(e.data, e.fetchedAt, e.error, e.inFlight)
  }

  // ---- Reset isolation -------------------------------------------------------------------

  lemma EnsuredReads(w: World, key: Key, k: Key)
    requires Inv(w)
    ensures EntryOf(Ensured(w, key), k) == EntryOf(w, k)
  {
  }

  lemma NotifiedReads(w: World, key: Key, k: Key)
    requires Inv(w)
    ensures EntryOf(Notified(w, key), k) == EntryOf(w, k)
  {
    EnsuredReads(w, key, k);
  }

  /** No key reaches the entry this request captured. */
  ghost predicate IsOrphaned(w: World, f: nat) {
    f < |w.fetches| && !IsCurrent(w, w.fetches[f].entry)
  }

  /** A response to an orphaned request writes into the orphaned entry only: every other entry object and
      everything any reader sees stays as it was. */
  lemma OrphanIsIsolated(w: World, f: nat, result: Result)
    requires Inv(w) && IsOrphaned(w, f)
    ensures forall k :: EntryOf(Settled(w, f, result), k) == EntryOf(w, k)
    ensures forall i :: 0 <= i < |w.heap| && i != w.fetches[f].entry ==> Settled(w, f, result).heap[i] == w.heap[i]
  {
    if IsPending(w, f) {
      var w1 := Landed(w, f, result);
      LandedKeeps(w, f, result);
      forall k ensures EntryOf(Settled(w, f, result), k) == EntryOf(w, k) {
        NotifiedReads(w1, w.fetches[f].key, k);
        if k in w.entries {
          assert w.entries[k] != w.fetches[f].entry;
        }
      }
    }
  }

  /** An orphaned request stays orphaned. */
  lemma OrphanedForever(w: World, steps: seq<Step>, f: nat)
    requires Inv(w) && IsOrphaned(w, f)
    ensures IsOrphaned(Exec(w, steps), f)
  {
    var w' := Exec(w, steps);
    ExecGrows(w, steps);
    assert SameFetch(w.fetches[f], w'.fetches[f]);
    assert FetchOk(w, f);
    forall k | k in w'.entries ensures w'.entries[k] != w.fetches[f].entry {
      if k in w.entries {
        assert w.entries[k] != w.fetches[f].entry;
      }
    }
  }

  /** Resetting a key orphans every request started for it before. */
  lemma ResetOrphans(w: World, key: Key, f: nat)
    requires Inv(w) && f < |w.fetches| && w.fetches[f].key == key
    ensures IsOrphaned(WasReset(w, key), f)
  {
    var w' := WasReset(w, key);
    forall k | k in w'.entries ensures w'.entries[k] != w.fetches[f].entry {
      assert k != key && w.entries[k] == w'.entries[k];
    }
  }

  /** Reset isolation: after a reset of its key at any point of any run, a response to a request started
      before the reset changes nothing any later reader of any key sees, however late it arrives. */
  lemma ResetIsolation(w: World, key: Key, f: nat, steps: seq<Step>, result: Result)
    requires Inv(w) && f < |w.fetches| && w.fetches[f].key == key
    ensures var later := Exec(WasReset(w, key), steps);
            forall k :: EntryOf(Settled(later, f, result), k) == EntryOf(later, k)
  {
    WasResetKeeps(w, key);
    ResetOrphans(w, key, f);
    OrphanedForever(WasReset(w, key), steps, f);
    ExecKeeps(WasReset(w, key), steps);
    OrphanIsIsolated(Exec(WasReset(w, key), steps), f, result);
  }

  // ---- Refinement ------------------------------------------------------------------------

  lemma EnsureRefines(w: World, key: Key, force: bool, k: Key)
    requires Inv(w)
    ensures CellOf(EnsuredFresh(w, key, force), k) == CellNext(CellOf(w, k), k, Observe(w, Ensure(key, force)))
  {
    EnsuredKeeps(w, key);
    EnsuredReads(w, key, k);
    if AnswerTo(w, key, force).Started? {
      var w1 := Ensured(w, key);
      LaunchedKeeps(w1, key);
      NotifiedReads(Launched(w1, key), key, k);
    }
  }

  lemma SettleRefines(w: World, f: nat, r: Result, k: Key)
    requires Inv(w)
    ensures CellOf(Settled(w, f, r), k) == CellNext(CellOf(w, k), k, Observe(w, Settle(f, r)))
  {
    if IsPending(w, f) {
      LandedKeeps(w, f, r);
      NotifiedReads(Landed(w, f, r), w.fetches[f].key, k);
      assert FetchOk(w, f);
      if k in w.entries {
        assert EntryOk(w, w.entries[k]);
      }
    }
  }

  lemma SubscribeRefines(w: World, key: Key, l: Listener, k: Key)
    requires Inv(w)
    ensures CellOf(Subscribed(w, key, l), k) == CellOf(w, k)
  {
    EnsuredReads(w, key, k);
    EnsuredKeeps(w, key);
  }

  lemma UnsubscribeRefines(w: World, s: nat, k: Key)
    requires Inv(w)
    ensures CellOf(Unsubscribed(w, s), k) == CellOf(w, k)
  {
  }

  lemma InvalidateRefines(w: World, key: Key, k: Key)
    requires Inv(w)
    ensures CellOf(Invalidated(w, key), k) == CellNext(CellOf(w, k), k, Expired(key))
  {
    EnsuredReads(w, key, k);
    EnsuredKeeps(w, key);
  }

  lemma ResetRefines(w: World, key: Key, k: Key)
    requires Inv(w)
    ensures CellOf(WasReset(w, key), k) == CellNext(CellOf(w, k), k, Dropped(key))
  {
  }

  lemma FireRefines(w: World, t: nat, k: Key)
    requires Inv(w)
    ensures CellOf(Fired(w, t), k) == CellOf(w, k)
  {
  }

  lemma HousekeepingRefines(w: World, step: Step, k: Key)
    requires Inv(w) && IsHousekeeping(step)
    ensures CellOf(Next(w, step), k) == CellNext(CellOf(w, k), k, Observe(w, step))
  {
    match step
    case Invalidate(key) => InvalidateRefines(w, key, k);
    case Reset(key) => ResetRefines(w, key, k);
    case FireTimer(t) => FireRefines(w, t, k);
    case Get(key) => EnsuredReads(w, key, k);
    case Tick(_) =>
  }

  lemma NextRefines(w: World, step: Step, k: Key)
    requires Inv(w)
    ensures CellOf(Next(w, step), k) == CellNext(CellOf(w, k), k, Observe(w, step))
  {
    match step
    case Subscribe(key, l) => SubscribeRefines(w, key, l, k);
    case Unsubscribe(s) => UnsubscribeRefines(w, s, k);
    case Ensure(key, force) => EnsureRefines(w, key, force, k);
    case Settle(f, r) => SettleRefines(w, f, r, k);
    case _ => HousekeepingRefines(w, step, k);
  }

  /** The cache of shared mutable entries refines the one-record-per-key specification: after every run,
      resets included, what a reader of a key sees is the record its observed events define. */
  lemma {:induction false} CacheRefinesCells(now: int, steps: seq<Step>, key: Key)
    ensures CellOf(Exec(Initial(now), steps), key) == CellAfter(Log(Initial(now), steps), key)
  {
    if steps != [] {
      var front := steps[..|steps| - 1];
      CacheRefinesCells(now, front, key);
      ExecKeeps(Initial(now), front);
      NextRefines(Exec(Initial(now), front), steps[|steps| - 1], key);
      var log := Log(Initial(now), steps);
      assert log[..|log| - 1] == Log(Initial(now), front);
    }
  }

  /** Per entry at most one request is unsettled. */
  lemma OneUnsettledPerEntry(w: World, f: nat, g: nat)
    requires Inv(w) && IsPending(w, f) && IsPending(w, g) && w.fetches[f].entry == w.fetches[g].entry
    ensures f == g
  {
    assert FetchOk(w, f) && FetchOk(w, g);
  }

  // ---- Last-known-good -------------------------------------------------------------------

  /** `log[i]` is a success of the request the key was waiting for. */
  predicate Delivers(log: seq<Event>, key: Key, i: nat) {
    i < |log| && log[i].Succeeded? && CellAfter(log[..i], key).pending == Some(log[i].f)
  }

  /** `log[i]` is the latest success of the key, and the key was not reset since. */
  ghost predicate IsLatestSuccess(log: seq<Event>, key: Key, i: nat) {
    && Delivers(log, key, i)
    && forall j: nat :: i < j < |log| ==> log[j] != Dropped(key) && !Delivers(log, key, j)
  }

  lemma LatestSuccessSnoc(log: seq<Event>, key: Key, i: nat)
    requires log != [] && i < |log| - 1
    ensures IsLatestSuccess(log, key, i) <==>
            IsLatestSuccess(log[..|log| - 1], key, i) && log[|log| - 1] != Dropped(key) && !Delivers(log, key, |log| - 1)
  {
    var n := |log| - 1;
    assert forall j: nat | j < n :: log[..n][..j] == log[..j];
    assert forall j: nat | j < n :: Delivers(log[..n], key, j) <==> Delivers(log, key, j);
  }

  /** The key was not invalidated since `log[i]`. */
  ghost predicate NotExpiredSince(log: seq<Event>, key: Key, i: nat) {
    forall j: nat :: i < j < |log| ==> log[j] != Expired(key)
  }

  /** `data` is the value of the latest success since the last reset, its time stamp that success's until the
      key is invalidated and none from then on; before the first success both are null. */
  lemma {:induction false} DataIsLatestSuccess(log: seq<Event>, key: Key) returns (i: Option<nat>)
    ensures i.Some? ==>
              && IsLatestSuccess(log, key, i.value) && CellAfter(log, key).data == log[i.value].value
              && CellAfter(log, key).fetchedAt ==
                 if NotExpiredSince(log, key, i.value) then Some(log[i.value].at) else None
    ensures i.None? ==> CellAfter(log, key).data.None? && CellAfter(log, key).fetchedAt.None?
    ensures i.None? ==> forall j: nat :: !IsLatestSuccess(log, key, j)
  {
    if log == [] {
      i := None;
    } else {
      var n := |log| - 1;
      i := DataIsLatestSuccess(log[..n], key);
      if Delivers(log, key, n) {
        i := Some(n);
      } else if log[n] == Dropped(key) {
        i := None;
        forall j: nat | j < n { LatestSuccessSnoc(log, key, j); }
      } else {
        forall j: nat | j < n { LatestSuccessSnoc(log, key, j); }
        if i.Some? {
          ExpiredSnoc(log, key, i.value);
        }
      }
    }
  }

  lemma ExpiredSnoc(log: seq<Event>, key: Key, i: nat)
    requires log != [] && i < |log| - 1
    ensures NotExpiredSince(log, key, i) <==>
            NotExpiredSince(log[..|log| - 1], key, i) && log[|log| - 1] != Expired(key)
  {
    var front := log[..|log| - 1];
    assert forall j: nat | j < |front| :: front[j] == log[j];
  }

  /** There is only one latest success. */
  lemma LatestSuccessUnique(log: seq<Event>, key: Key, i: nat, j: nat)
    requires IsLatestSuccess(log, key, i) && IsLatestSuccess(log, key, j)
    ensures i == j
  {
  }

  /** A failed or aborted refresh changes neither the data nor its timestamp, for any key. */
  lemma FailureKeepsGood(w: World, f: nat, message: Option<string>, key: Key)
    requires Inv(w)
    ensures EntryOf(Settled(w, f, Fail(message)), key).data == EntryOf(w, key).data
    ensures EntryOf(Settled(w, f, Fail(message)), key).fetchedAt == EntryOf(w, key).fetchedAt
  {
    SettleRefines(w, f, Fail(message), key);
  }

  lemma CellHoldsLatest(log: seq<Event>, key: Key, i: nat)
    requires IsLatestSuccess(log, key, i)
    ensures CellAfter(log, key).data == log[i].value
  {
    var last := DataIsLatestSuccess(log, key);
    LatestSuccessUnique(log, key, i, last.value);
  }

  /** What each snapshot means. An entry never filled reads "loading" with a request under way, "error" after a failure
      and "unavailable" otherwise; a filled one reads "stale" while it is refreshed or after a failure that left data,
      "error" after one that left none, "ready" otherwise. Data are always shown as they are, the time stamp with
      "ready" and "stale" only, the message with "error" only. */
  lemma SnapshotContract(e: EntryState)
    ensures var s, failed := SnapshotOf(e), e.error.Some? && e.error.value != "";
            var empty := e.data.None? && e.fetchedAt.None?;
            && s.data == e.data
            && s.fetchedAt == (if s.state.Ready? || s.state.Stale? then e.fetchedAt else None)
            && s.error == (if s.state.Failed? || s.state.Unavailable? then e.error else None)
            && (s.state.Loading? <==> empty && e.inFlight.Some?)
            && (s.state.Unavailable? <==> empty && e.inFlight.None? && !failed)
            && (s.state.Stale? <==> (!empty && e.inFlight.Some?) || (e.data.Some? && e.inFlight.None? && failed))
            && (s.state.Failed? <==> e.data.None? && e.inFlight.None? && failed)
            && (s.state.Ready? <==> !empty && e.inFlight.None? && !failed)
  {
  }

  /** After every run the snapshot of a key shows the value of its latest success since the last reset,
      whatever failed, was aborted or was invalidated since: null exactly when that value was null. */
  lemma SnapshotShowsLatestSuccess(now: int, steps: seq<Step>, key: Key, i: nat)
    requires IsLatestSuccess(Log(Initial(now), steps), key, i)
    ensures SnapshotOf(EntryOf(Exec(Initial(now), steps), key)).data == Log(Initial(now), steps)[i].value
  {
    CacheRefinesCells(now, steps, key);
    CellHoldsLatest(Log(Initial(now), steps), key, i);
    SnapshotContract(EntryOf(Exec(Initial(now), steps), key));
  }

  /** After every run a "ready" or "stale" snapshot carries the time stamp of the latest success, or none when the key
      was invalidated since; every other snapshot, and every one before the first success, carries none. */
  lemma SnapshotShowsLatestStamp(now: int, steps: seq<Step>, key: Key)
    ensures var s, log := SnapshotOf(EntryOf(Exec(Initial(now), steps), key)), Log(Initial(now), steps);
            && (forall i: nat :: IsLatestSuccess(log, key, i) ==>
                  s.fetchedAt == if (s.state.Ready? || s.state.Stale?) && NotExpiredSince(log, key, i) then Some(log[i].at) else None)
            && ((forall i: nat :: !IsLatestSuccess(log, key, i)) ==> s.fetchedAt.None?)
  {
    CacheRefinesCells(now, steps, key);
    SnapshotContract(EntryOf(Exec(Initial(now), steps), key));
    CellHoldsStamp(Log(Initial(now), steps), key);
  }

  lemma CellHoldsStamp(log: seq<Event>, key: Key)
    ensures forall i: nat :: IsLatestSuccess(log, key, i) ==>
              CellAfter(log, key).fetchedAt == if NotExpiredSince(log, key, i) then Some(log[i].at) else None
    ensures (forall i: nat :: !IsLatestSuccess(log, key, i)) ==> CellAfter(log, key).fetchedAt.None?
  {
    var last := DataIsLatestSuccess(log, key);
    forall i: nat | IsLatestSuccess(log, key, i) ensures last == Some(i) {
      LatestSuccessUnique(log, key, i, last.value);
    }
  }

  // ---- Requests and errors by their history ----------------------------------------------

  /** `log[i]` settled request `f`. */
  predicate Settles(event: Event, f: nat) {
    (event.Succeeded? || event.FailedWith?) && event.f == f
  }

  /** `log[i]` started request `f` of the key, it did not settle since, and the key was neither asked for anew nor
      reset. */
  ghost predicate IsUnderWay(log: seq<Event>, key: Key, f: nat, i: nat) {
    && i < |log| && log[i] == Requested(key, f)
    && forall j :: i < j < |log| ==>
         !Settles(log[j], f) && !(log[j].Requested? && log[j].key == key) && log[j] != Dropped(key)
  }

  lemma UnderWaySnoc(log: seq<Event>, key: Key, f: nat, i: nat)
    requires log != [] && i < |log| - 1
    ensures var e := log[|log| - 1];
            IsUnderWay(log, key, f, i) <==>
            && IsUnderWay(log[..|log| - 1], key, f, i)
            && !Settles(e, f) && !(e.Requested? && e.key == key) && e != Dropped(key)
  {
    var front := log[..|log| - 1];
    assert forall j: nat | j < |front| :: front[j] == log[j];
  }

  lemma {:induction false} PendingWasStarted(log: seq<Event>, key: Key, f: nat) returns (i: nat)
    requires CellAfter(log, key).pending == Some(f)
    ensures IsUnderWay(log, key, f, i)
  {
    var n := |log| - 1;
    if log[n] == Requested(key, f) {
      i := n;
    } else {
      i := PendingWasStarted(log[..n], key, f);
      UnderWaySnoc(log, key, f, i);
    }
  }

  lemma {:induction false} UnderWayIsPending(log: seq<Event>, key: Key, f: nat, i: nat)
    requires IsUnderWay(log, key, f, i)
    ensures CellAfter(log, key).pending == Some(f)
  {
    if i < |log| - 1 {
      UnderWaySnoc(log, key, f, i);
      UnderWayIsPending(log[..|log| - 1], key, f, i);
    }
  }

  /** After every run a request is in flight for a key exactly when it was started and nothing ended it since. */
  lemma InFlightIff(now: int, steps: seq<Step>, key: Key, f: nat)
    ensures EntryOf(Exec(Initial(now), steps), key).inFlight == Some(f) <==>
            exists i: nat :: IsUnderWay(Log(Initial(now), steps), key, f, i)
  {
    var log := Log(Initial(now), steps);
    CacheRefinesCells(now, steps, key);
    if CellAfter(log, key).pending == Some(f) {
      var i := PendingWasStarted(log, key, f);
    }
    forall i: nat | IsUnderWay(log, key, f, i) ensures CellAfter(log, key).pending == Some(f) {
      UnderWayIsPending(log, key, f, i);
    }
  }

  /** `log[i]` is the latest outcome of the key's requests, a failure, and the key was not reset since. */
  ghost predicate IsLatestFailure(log: seq<Event>, key: Key, i: nat) {
    && FailsAt(log, key, i)
    && forall j: nat :: i < j < |log| ==> log[j] != Dropped(key) && !Delivers(log, key, j) && !FailsAt(log, key, j)
  }

  predicate FailsAt(log: seq<Event>, key: Key, i: nat) {
    i < |log| && log[i].FailedWith? && CellAfter(log[..i], key).pending == Some(log[i].f)
  }

  lemma LatestFailureSnoc(log: seq<Event>, key: Key, i: nat)
    requires log != [] && i < |log| - 1
    ensures var n := |log| - 1;
            IsLatestFailure(log, key, i) <==>
            IsLatestFailure(log[..n], key, i) && log[n] != Dropped(key) && !Delivers(log, key, n) && !FailsAt(log, key, n)
  {
    var n := |log| - 1;
    assert forall j: nat | j < n :: log[..n][..j] == log[..j];
    assert forall j: nat | j < n :: Delivers(log[..n], key, j) <==> Delivers(log, key, j);
    assert forall j: nat | j < n :: FailsAt(log[..n], key, j) <==> FailsAt(log, key, j);
  }

  lemma {:induction false} FailureIsError(log: seq<Event>, key: Key, i: nat)
    requires IsLatestFailure(log, key, i)
    ensures CellAfter(log, key).error == Some(MessageOf(log[i]))
  {
    if i < |log| - 1 {
      LatestFailureSnoc(log, key, i);
      FailureIsError(log[..|log| - 1], key, i);
    }
  }

  lemma {:induction false} ErrorWasFailure(log: seq<Event>, key: Key) returns (i: nat)
    requires CellAfter(log, key).error.Some?
    ensures IsLatestFailure(log, key, i)
  {
    var n := |log| - 1;
    if FailsAt(log, key, n) {
      i := n;
    } else {
      i := ErrorWasFailure(log[..n], key);
      LatestFailureSnoc(log, key, i);
    }
  }

  /** The message of a failure; what was thrown without being an `Error` has a fixed one. */
  function MessageOf(event: Event): string
    requires event.FailedWith?
  {
    if event.message.Some? then event.message.value else "Resource unavailable."
  }

  /** After every run the error of a key is the message of its latest outcome if that was a failure, and none
      otherwise. */
  lemma ErrorIsLatestFailure(now: int, steps: seq<Step>, key: Key)
    ensures var error, log := EntryOf(Exec(Initial(now), steps), key).error, Log(Initial(now), steps);
            && (forall i: nat :: IsLatestFailure(log, key, i) ==> error == Some(MessageOf(log[i])))
            && ((forall i: nat :: !IsLatestFailure(log, key, i)) ==> error.None?)
  {
    var log := Log(Initial(now), steps);
    CacheRefinesCells(now, steps, key);
    forall i: nat | IsLatestFailure(log, key, i) ensures CellAfter(log, key).error == Some(MessageOf(log[i])) {
      FailureIsError(log, key, i);
    }
    if CellAfter(log, key).error.Some? {
      var i := ErrorWasFailure(log, key);
    }
  }

  /** Requests of this run deliver values, never null. */
  ghost predicate NeverNull(steps: seq<Step>) {
    forall n :: 0 <= n < |steps| && steps[n].Settle? && steps[n].result.Ok? ==> steps[n].result.value.Some?
  }

  lemma {:induction false} LogNeverNull(w: World, steps: seq<Step>)
    requires NeverNull(steps)
    ensures forall i :: 0 <= i < |Log(w, steps)| && Log(w, steps)[i].Succeeded? ==> Log(w, steps)[i].value.Some?
  {
    if steps != [] {
      LogNeverNull(w, steps[..|steps| - 1]);
    }
  }

  /** Once a request of the key succeeded since its last reset, no snapshot of it shows null data again. */
  lemma NeverBlanksAfterSuccess(now: int, steps: seq<Step>, key: Key)
    requires NeverNull(steps)
    requires exists i: nat :: IsLatestSuccess(Log(Initial(now), steps), key, i)
    ensures SnapshotOf(EntryOf(Exec(Initial(now), steps), key)).data.Some?
  {
    var i: nat :| IsLatestSuccess(Log(Initial(now), steps), key, i);
    LogNeverNull(Initial(now), steps);
    SnapshotShowsLatestSuccess(now, steps, key, i);
  }

  // ---- Answers without the network -------------------------------------------------------

  /** How long an answer lives, in milliseconds. */
  function Lifetime(key: Key): int {
    if key in {"presets", "tools", "sysinfo"} then 120_000
    else if key in {"models", "environment", "health"} then 60_000
    else if key == "config" then 15_000
    else if key == "engine" then 10_000
    else 30_000
  }

  lemma TtlIsLifetime(key: Key)
    ensures TtlFor(key) == Lifetime(key)
  {
  }

  /** `log[i]` justifies an answer without the network at time `now`: it is the latest success, its value is not
      null, it settled less than its lifetime ago, and the key was not invalidated since. */
  ghost predicate Justifies(log: seq<Event>, key: Key, now: int, i: nat) {
    && IsLatestSuccess(log, key, i) && log[i].value.Some?
    && now - log[i].at < Lifetime(key) && NotExpiredSince(log, key, i)
  }

  /** After every run a resource shows data that are fresh exactly when some success justifies them, whether it
      reads ready, stale or loading. */
  lemma FreshIff(now: int, steps: seq<Step>, key: Key)
    ensures var w, log := Exec(Initial(now), steps), Log(Initial(now), steps);
            SnapshotOf(EntryOf(w, key)).data.Some? && IsFresh(w, key) <==> exists i: nat :: Justifies(log, key, w.now, i)
  {
    var w, log := Exec(Initial(now), steps), Log(Initial(now), steps);
    CacheRefinesCells(now, steps, key);
    SnapshotContract(EntryOf(w, key));
    TtlIsLifetime(key);
    var last := DataIsLatestSuccess(log, key);
    forall i: nat | IsLatestSuccess(log, key, i) ensures last == Some(i) {
      LatestSuccessUnique(log, key, i, last.value);
    }
    if last.Some? {
      assert Justifies(log, key, w.now, last.value) <==>
             log[last.value].value.Some? && w.now - log[last.value].at < Lifetime(key) && NotExpiredSince(log, key, last.value);
    }
  }

  /** After every run, `ensure` answers without a request exactly when it is not forced, no request is in flight
      and some success justifies it, and then with the value of that success; so an expired value is never
      served at once. */
  lemma HitIff(now: int, steps: seq<Step>, key: Key, force: bool)
    ensures var w, log := Exec(Initial(now), steps), Log(Initial(now), steps);
            && (AnswerTo(w, key, force).Hit? <==>
                  !force && EntryOf(w, key).inFlight.None? && exists i: nat :: Justifies(log, key, w.now, i))
            && forall i: nat :: IsLatestSuccess(log, key, i) && AnswerTo(w, key, force).Hit? ==>
                 log[i].value == Some(AnswerTo(w, key, force).value)
  {
    var w, log := Exec(Initial(now), steps), Log(Initial(now), steps);
    FreshIff(now, steps, key);
    SnapshotContract(EntryOf(w, key));
    forall i: nat | IsLatestSuccess(log, key, i) ensures log[i].value == EntryOf(w, key).data {
      SnapshotShowsLatestSuccess(now, steps, key, i);
    }
  }

  function Ensures(steps: seq<Step>): nat {
    if steps == [] then 0 else Ensures(steps[..|steps| - 1]) + if steps[|steps| - 1].Ensure? then 1 else 0
  }

  /** How many `ensure` calls of the run joined a request, and how many were answered from the cache. */
  function Joins(w: World, steps: seq<Step>): nat {
    if steps == [] then 0
    else
      var step := steps[|steps| - 1];
      Joins(w, steps[..|steps| - 1])
      + if step.Ensure? && AnswerTo(Exec(w, steps[..|steps| - 1]), step.key, step.force).Joined? then 1 else 0
  }

  function Hits(w: World, steps: seq<Step>): nat {
    if steps == [] then 0
    else
      var step := steps[|steps| - 1];
      Hits(w, steps[..|steps| - 1])
      + if step.Ensure? && AnswerTo(Exec(w, steps[..|steps| - 1]), step.key, step.force).Hit? then 1 else 0
  }

  lemma NewFetches(w: World, step: Step)
    ensures |Next(w, step).fetches| ==
            |w.fetches| + if step.Ensure? && AnswerTo(w, step.key, step.force).Started? then 1 else 0
  {
  }

  /** The fetcher runs once per `ensure` that neither joins a request nor is answered from the cache. */
  lemma {:induction false} FetcherCalls(w: World, steps: seq<Step>)
    ensures |Exec(w, steps).fetches| == |w.fetches| + Ensures(steps) - Joins(w, steps) - Hits(w, steps)
  {
    if steps != [] {
      FetcherCalls(w, steps[..|steps| - 1]);
      NewFetches(Exec(w, steps[..|steps| - 1]), steps[|steps| - 1]);
    }
  }

  /** What the callers of one request read when it settled: its value, or after a failure whatever the
      entry object still holds. */
  function Outcome(kept: Option<Value>, result: Result): Option<Value> {
    if result.Ok? then result.value else kept
  }

  /** Every caller that joins waits for the one request of the entry it looked up: however much later that
      request settles, and whatever was reset since, it is this entry object that receives the outcome all
      of them resolve with. */
  lemma JoinersShareOneAnswer(w: World, key: Key, force: bool, steps: seq<Step>, result: Result)
    requires Inv(w) && AnswerTo(w, key, force).Joined?
    requires IsPending(Exec(w, steps), AnswerTo(w, key, force).f)
    ensures var f, w' := AnswerTo(w, key, force).f, Exec(w, steps);
            && key in w.entries && w'.fetches[f].entry == w.entries[key] && w'.fetches[f].key == key
            && At(Settled(w', f, result), w.entries[key]).data == Outcome(At(w', w.entries[key]).data, result)
            && !IsPending(Settled(w', f, result), f)
  {
    var f, w', i := AnswerTo(w, key, force).f, Exec(w, steps), w.entries[key];
    assert EntryOk(w, i);
    ExecGrows(w, steps);
    assert SameFetch(w.fetches[f], w'.fetches[f]);
    SettledOutcome(w', f, result);
  }

  lemma SettledOutcome(w: World, f: nat, result: Result)
    requires IsPending(w, f) && w.fetches[f].entry < |w.heap|
    ensures var i, w' := w.fetches[f].entry, Settled(w, f, result);
            At(w', i).data == Outcome(At(w, i).data, result) && !IsPending(w', f)
  {
  }

  // ---- Invalidation ----------------------------------------------------------------------

  ghost predicate NoEnsureOf(steps: seq<Step>, key: Key) {
    forall n :: 0 <= n < |steps| ==> !(steps[n].Ensure? && steps[n].key == key)
  }

  /** Nothing fresh and nothing under way: the next `ensure` has to ask the network. */
  predicate IsSpent(c: Cell) {
    c.pending.None? && c.fetchedAt.None?
  }

  lemma SpentNext(c: Cell, key: Key, event: Event)
    requires IsSpent(c) && !(event.Requested? && event.key == key)
    ensures IsSpent(CellNext(c, key, event))
  {
  }

  lemma RequestsAreEnsures(w: World, step: Step)
    ensures Observe(w, step).Requested? ==> step.Ensure? && Observe(w, step).key == step.key
  {
  }

  lemma {:induction false} SpentStays(w: World, steps: seq<Step>, key: Key)
    requires Inv(w) && NoEnsureOf(steps, key) && IsSpent(CellOf(w, key))
    ensures IsSpent(CellOf(Exec(w, steps), key))
  {
    if steps != [] {
      var front, step := steps[..|steps| - 1], steps[|steps| - 1];
      SpentStays(w, front, key);
      ExecKeeps(w, front);
      RequestsAreEnsures(Exec(w, front), step);
      SpentNext(CellOf(Exec(w, front), key), key, Observe(Exec(w, front), step));
      NextRefines(Exec(w, front), step, key);
    }
  }

  lemma SpentForcesFetch(w: World, key: Key, force: bool)
    requires IsSpent(CellOf(w, key))
    ensures AnswerTo(w, key, force).Started?
  {
  }

  /** The next `ensure` after an invalidation goes to the network, whatever happens in between, exactly
      when no request of the key was in flight at the invalidation. */
  lemma InvalidateForcesFetchIff(w: World, key: Key, force: bool)
    requires Inv(w)
    ensures (forall steps | NoEnsureOf(steps, key) :: AnswerTo(Exec(Invalidated(w, key), steps), key, force).Started?)
            <==> EntryOf(w, key).inFlight.None?
  {
    var w1 := Invalidated(w, key);
    InvalidatedKeeps(w, key);
    InvalidateRefines(w, key, key);
    assert NoEnsureOf([], key) && Exec(w1, []) == w1;
    if EntryOf(w, key).inFlight.None? {
      forall steps | NoEnsureOf(steps, key) ensures AnswerTo(Exec(w1, steps), key, force).Started? {
        SpentStays(w1, steps, key);
        SpentForcesFetch(Exec(w1, steps), key, force);
      }
    }
  }

  /** Otherwise the invalidation is lost: the request that was already under way settles, stamps its
      value as fresh, and the next `ensure` serves that value without a request. */
  lemma InvalidationLostInFlight(w: World, key: Key, value: Value)
    requires Inv(w) && EntryOf(w, key).inFlight.Some?
    ensures var w' := Settled(Invalidated(w, key), EntryOf(w, key).inFlight.value, Ok(Some(value)));
            AnswerTo(w', key, false) == Hit(value)
  {
    var f, w1 := EntryOf(w, key).inFlight.value, Invalidated(w, key);
    InvalidatedKeeps(w, key);
    InvalidateRefines(w, key, key);
    assert EntryOk(w1, w1.entries[key]);
    SettleRefines(w1, f, Ok(Some(value)), key);
    SettleKeepsClock(w1, f, Ok(Some(value)));
    TtlPositive(key);
  }

  lemma SettleKeepsClock(w: World, f: nat, r: Result)
    ensures Settled(w, f, r).now == w.now
  {
  }

  lemma TtlPositive(key: Key)
    ensures TtlFor(key) > 0
  {
  }
}
