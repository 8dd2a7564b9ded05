/** The single-flight wrapper around startup in src/agent-init.ts. */
module AgentInit {
  import opened Common

  const INITIALIZATION_TTL_MS := 30_000

  /** `promise` is the number of the run whose promise is still held, `finished` whether that run is over,
      `started` how many runs were started. */
  datatype State = State(promise: Option<nat>, finished: bool, initializedAt: int, started: nat)

  const FIRST := State(None, true, 0, 0)

  datatype Outcome = Joined(run: nat) | Skipped | Started(run: nat)

  function OutcomeOf(s: State, now: int): Outcome {
    if s.promise.Some? then Joined(s.promise.value)
    else if s.initializedAt > 0 && now - s.initializedAt < INITIALIZATION_TTL_MS then Skipped
    else Started(s.started)
  }

  /** The calls, the end of a run, and the later microtask that drops its promise. */
  datatype Step = Call(now: int) | Finish(ok: bool, now: int) | Drop

  function Next(s: State, step: Step): State {
    match step
    case Call(now) =>
      if OutcomeOf(s, now).Started? then State(Some(s.started), false, s.initializedAt, s.started + 1) else s
    case Finish(ok, now) => if s.finished then s else s.(finished := true, initializedAt := if ok then now else 0)
    case Drop => if s.finished then s.(promise := None) else s
  }

  function Exec(steps: seq<Step>): State {
    if steps == [] then FIRST else Next(Exec(steps[..|steps| - 1]), steps[|steps| - 1])
  }

  class Initializer {
    var promise: Option<nat>
    var finished: bool
    var initializedAt: int
    var started: nat

    constructor ()
      ensures Value() == FIRST
    {
      promise, finished, initializedAt, started := None, true, 0, 0;
    }

    ghost function Value(): State
      reads this
    {
      State(promise, finished, initializedAt, started)
    }

    method InitializeAgent(now: int) returns (outcome: Outcome)
      modifies this
      ensures outcome == OutcomeOf(old(Value()), now) && Value() == Next(old(Value()), Call(now))
    {
      if promise.Some? {
        return Joined(promise.value);
      }
      if initializedAt > 0 && now - initializedAt < INITIALIZATION_TTL_MS {
        return Skipped;
      }
      promise, finished := Some(started), false;
      outcome := Started(started);
      started := started + 1;
    }

    /** The `then` and `catch` handlers of the run under way. */
    method Settle(ok: bool, now: int)
      requires !finished
      modifies this
      ensures Value() == Next(old(Value()), Finish(ok, now))
    {
      finished := true;
      initializedAt := if ok then now else 0;
    }

    /** The `finally` handler. */
    method Release()
      requires finished
      modifies this
      ensures Value() == Next(old(Value()), Drop)
    {
      promise := None;
    }
  }

  // ---- Properties of every run -----------------------------------------------------------

  predicate Ends(steps: seq<Step>, n: nat) {
    n < |steps| && steps[n].Finish? && !Exec(steps[..n]).finished
  }

  /** `n` is the last time a run ended. */
  ghost predicate IsLastEnd(steps: seq<Step>, n: nat) {
    Ends(steps, n) && forall m: nat :: n < m < |steps| ==> !Ends(steps, m)
  }

  lemma EndsSnoc(steps: seq<Step>, n: nat)
    requires steps != [] && n < |steps| - 1
    ensures Ends(steps[..|steps| - 1], n) <==> Ends(steps, n)
  {
    assert steps[..|steps| - 1][..n] == steps[..n];
  }

  lemma LastEndSnoc(steps: seq<Step>, n: nat)
    requires steps != [] && IsLastEnd(steps[..|steps| - 1], n) && !Ends(steps, |steps| - 1)
    ensures IsLastEnd(steps, n)
  {
    EndsSnoc(steps, n);
    forall m: nat | n < m < |steps| ensures !Ends(steps, m) {
      if m < |steps| - 1 { EndsSnoc(steps, m); }
    }
  }

  /** The time stamp is that of the last run that ended, if it succeeded. */
  lemma {:induction false} StampIsLastSuccess(steps: seq<Step>) returns (n: Option<nat>)
    ensures n.Some? ==> IsLastEnd(steps, n.value)
                        && Exec(steps).initializedAt == if steps[n.value].ok then steps[n.value].now else 0
    ensures n.None? ==> Exec(steps).initializedAt == 0 && forall m: nat :: !Ends(steps, m)
  {
    if steps == [] {
      n := None;
    } else {
      var last := |steps| - 1;
      n := StampIsLastSuccess(steps[..last]);
      if Ends(steps, last) {
        n := Some(last);
      } else if n.Some? {
        LastEndSnoc(steps, n.value);
      } else {
        forall m: nat ensures !Ends(steps, m) {
          if m < last { EndsSnoc(steps, m); }
        }
      }
    }
  }

  /** A call does nothing exactly when no promise is held and the last run that ended succeeded, at a
      positive time, less than thirty seconds ago. */
  lemma SkipsIff(steps: seq<Step>, now: int) returns (n: Option<nat>)
    ensures n.Some? ==> IsLastEnd(steps, n.value)
    ensures n.None? ==> forall m: nat :: !Ends(steps, m)
    ensures OutcomeOf(Exec(steps), now).Skipped? <==>
            Exec(steps).promise.None? && n.Some? && steps[n.value].ok
            && steps[n.value].now > 0 && now - steps[n.value].now < 30_000
  {
    n := StampIsLastSuccess(steps);
  }

  predicate Starts(steps: seq<Step>, n: nat) {
    n < |steps| && steps[n].Call? && OutcomeOf(Exec(steps[..n]), steps[n].now).Started?
  }

  /** The run started at `i` did not end yet. */
  ghost predicate RunsSince(steps: seq<Step>, i: nat) {
    Starts(steps, i) && forall k :: i < k < |steps| ==> !steps[k].Finish?
  }

  /** The run started at `i` did not end, or its promise was not dropped after its end. */
  ghost predicate HeldSince(steps: seq<Step>, i: nat) {
    Starts(steps, i) && forall j, k :: i < k < j < |steps| ==> !(steps[k].Finish? && steps[j].Drop?)
  }

  lemma StartsFront(steps: seq<Step>, i: nat)
    requires steps != [] && i < |steps| - 1
    ensures Starts(steps[..|steps| - 1], i) <==> Starts(steps, i)
  {
    assert steps[..|steps| - 1][..i] == steps[..i];
  }

  lemma RunsFront(steps: seq<Step>, i: nat)
    requires steps != [] && i < |steps| - 1
    ensures RunsSince(steps, i) <==> RunsSince(steps[..|steps| - 1], i) && !steps[|steps| - 1].Finish?
  {
    StartsFront(steps, i);
    assert forall k :: 0 <= k < |steps| - 1 ==> steps[..|steps| - 1][k] == steps[k];
  }

  lemma HeldFront(steps: seq<Step>, i: nat)
    requires steps != [] && i < |steps| - 1
    ensures HeldSince(steps, i) <==>
            HeldSince(steps[..|steps| - 1], i) && (steps[|steps| - 1].Drop? ==> RunsSince(steps[..|steps| - 1], i))
  {
    var n := |steps| - 1;
    StartsFront(steps, i);
    assert forall k :: 0 <= k < n ==> steps[..n][k] == steps[k];
    if HeldSince(steps, i) && steps[n].Drop? {
      forall k | i < k < n ensures !steps[k].Finish? {
        assert steps[n].Drop? && !steps[k].Finish?;
      }
    }
  }

  lemma LastStarts(steps: seq<Step>)
    requires steps != []
    ensures var n := |steps| - 1;
            && (RunsSince(steps, n) <==> Starts(steps, n)) && (HeldSince(steps, n) <==> Starts(steps, n))
  {
  }

  lemma {:induction false} RunsHistory(steps: seq<Step>, i: nat)
    requires RunsSince(steps, i)
    ensures !Exec(steps).finished
  {
    if i < |steps| - 1 {
      RunsFront(steps, i);
      RunsHistory(steps[..|steps| - 1], i);
      assert steps[..|steps| - 1][..i] == steps[..i];
    }
  }

  lemma {:induction false} RunningWasStarted(steps: seq<Step>) returns (i: nat)
    requires !Exec(steps).finished
    ensures RunsSince(steps, i)
  {
    var n := |steps| - 1;
    if Starts(steps, n) {
      i := n;
    } else {
      i := RunningWasStarted(steps[..n]);
      RunsFront(steps, i);
    }
  }

  lemma {:induction false} HeldHistory(steps: seq<Step>, i: nat)
    requires HeldSince(steps, i)
    ensures Exec(steps).promise.Some?
  {
    var n := |steps| - 1;
    if i < n {
      HeldFront(steps, i);
      HeldHistory(steps[..n], i);
      if steps[n].Drop? {
        RunsHistory(steps[..n], i);
      }
    }
  }

  lemma {:induction false} PromiseWasStarted(steps: seq<Step>) returns (i: nat)
    requires Exec(steps).promise.Some?
    ensures HeldSince(steps, i)
  {
    var n := |steps| - 1;
    if Starts(steps, n) {
      i := n;
    } else if steps[n].Drop? {
      i := RunningWasStarted(steps[..n]);
      HeldFront(steps, i);
    } else {
      i := PromiseWasStarted(steps[..n]);
      HeldFront(steps, i);
    }
  }

  /** A call joins exactly when some run was started and its promise was not dropped since its end. */
  lemma JoinsIff(steps: seq<Step>, now: int)
    ensures OutcomeOf(Exec(steps), now).Joined? <==> exists i: nat :: HeldSince(steps, i)
  {
    if Exec(steps).promise.Some? {
      var i := PromiseWasStarted(steps);
    }
    forall i: nat | HeldSince(steps, i) ensures Exec(steps).promise.Some? {
      HeldHistory(steps, i);
    }
  }

  /** An unfinished run is the newest one and its promise is held. */
  ghost predicate Inv(s: State) {
    && (!s.finished ==> s.promise.Some?)
    && (s.promise.Some? ==> s.started > 0 && s.promise.value == s.started - 1)
  }

  lemma {:induction false} ExecInv(steps: seq<Step>)
    ensures Inv(Exec(steps))
  {
    if steps != [] {
      ExecInv(steps[..|steps| - 1]);
    }
  }

  /** Single flight: in every run of the wrapper a call starts a run only when none is under way, every
      call in between joins that one run, and after a failed run the next call starts a new one. */
  lemma SingleFlight(steps: seq<Step>, now: int)
    ensures var s := Exec(steps);
            && (OutcomeOf(s, now).Started? ==> s.finished)
            && (!s.finished ==> s.started > 0 && OutcomeOf(s, now) == Joined(s.started - 1))
            && (s.finished && s.promise.None? && s.initializedAt == 0 ==> OutcomeOf(s, now) == Started(s.started))
  {
    ExecInv(steps);
  }

  function CountCalls(steps: seq<Step>): nat {
    if steps == [] then 0 else CountCalls(steps[..|steps| - 1]) + if steps[|steps| - 1].Call? then 1 else 0
  }

  function CountIdle(steps: seq<Step>): nat {
    if steps == [] then 0
    else
      CountIdle(steps[..|steps| - 1])
      + if steps[|steps| - 1].Call? && !Starts(steps, |steps| - 1) then 1 else 0
  }

  /** Startup runs once per call that neither joins a run nor is skipped. */
  lemma {:induction false} RunsAreCounted(steps: seq<Step>)
    ensures Exec(steps).started == CountCalls(steps) - CountIdle(steps)
  {
    if steps != [] {
      RunsAreCounted(steps[..|steps| - 1]);
    }
  }
}
