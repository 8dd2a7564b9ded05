/** The generation lifecycle machine of src/run-phase.ts and what every run of it obeys. */
module RunPhase {

  datatype Phase =
    | Idle | Preparing | Thinking | Generating | Pausing | Paused | Resuming | Finalising
    | Complete | Error | Aborted

  datatype RunEvent =
    | RunStarted | ReasoningDelta | ResponseDelta | ThinkingActivity
    | PauseRequested | PauseConfirmed | ResumeRequested | Resumed
    | Done | HistoryConfirmed | RunFailed | RunAborted

  predicate IsLive(p: Phase) {
    p.Preparing? || p.Thinking? || p.Generating? || p.Pausing? || p.Resuming? || p.Finalising?
  }

  predicate IsTerminal(p: Phase) {
    p.Complete? || p.Error? || p.Aborted?
  }

  function NextPhase(p: Phase, e: RunEvent): Phase {
    match e
    case RunStarted => Preparing
    case PauseRequested => if IsLive(p) then Pausing else p
    case PauseConfirmed => if IsLive(p) || p.Pausing? then Paused else p
    case ResumeRequested => if p.Paused? then Resuming else p
    case Resumed => if p.Resuming? || p.Paused? then Generating else p
    case ReasoningDelta => if p.Preparing? || p.Thinking? || p.Resuming? then Thinking else p
    case ResponseDelta => if p.Preparing? || p.Thinking? || p.Resuming? then Generating else p
    case ThinkingActivity => if p.Preparing? then Thinking else p
    case Done => if IsLive(p) then Finalising else p
    case HistoryConfirmed => if p.Finalising? then Complete else p
    case RunFailed => if IsLive(p) || p.Paused? then Error else p
    case RunAborted => if IsLive(p) || p.Paused? then Aborted else p
  }

  /** The phase after a whole sequence of events. */
  function Run(p: Phase, es: seq<RunEvent>): Phase {
    if es == [] then p else NextPhase(Run(p, es[..|es| - 1]), es[|es| - 1])
  }

  lemma {:induction false} RunSnoc(p: Phase, es: seq<RunEvent>, e: RunEvent)
    ensures Run(p, es + [e]) == NextPhase(Run(p, es), e)
  {
    assert (es + [e])[..|es|] == es;
  }

  lemma {:induction false} RunConcat(p: Phase, a: seq<RunEvent>, b: seq<RunEvent>)
    ensures Run(p, a + b) == Run(Run(p, a), b)
  {
    if b == [] {
      assert a + b == a;
    } else {
      RunConcat(p, a, b[..|b| - 1]);
      assert (a + b)[..|a + b| - 1] == a + b[..|b| - 1];
    }
  }

  // ---- Completion ------------------------------------------------------------------------

  /** `done` took effect at `i`, `history_confirmed` took effect at `j`, and no run started since `i`. */
  ghost predicate DoneThenConfirmed(es: seq<RunEvent>, i: nat, j: nat) {
    && i < j < |es|
    && es[i].Done? && IsLive(Run(Idle, es[..i]))
    && es[j].HistoryConfirmed? && Run(Idle, es[..j]).Finalising?
    && RunStarted !in es[i..]
  }

  lemma {:induction false} FinalisingHasDone(es: seq<RunEvent>) returns (i: nat)
    requires Run(Idle, es).Finalising?
    ensures i < |es| && es[i].Done? && IsLive(Run(Idle, es[..i])) && RunStarted !in es[i..]
  {
    var n := |es| - 1;
    var front := es[..n];
    if es[n].Done? && IsLive(Run(Idle, front)) {
      i := n;
    } else {
      i := FinalisingHasDone(front);
      assert front[..i] == es[..i];
      assert es[i..] == front[i..] + [es[n]];
    }
  }

  lemma {:induction false} CompletePersists(p: Phase, es: seq<RunEvent>)
    requires p.Complete? && RunStarted !in es
    ensures Run(p, es).Complete?
  {
    if es != [] {
      CompletePersists(p, es[..|es| - 1]);
    }
  }

  lemma DoneThenConfirmedSnoc(front: seq<RunEvent>, e: RunEvent, i: nat, j: nat)
    requires DoneThenConfirmed(front, i, j) && !e.RunStarted?
    ensures DoneThenConfirmed(front + [e], i, j)
  {
    var es := front + [e];
    assert front[..i] == es[..i] && front[..j] == es[..j];
    assert es[i..] == front[i..] + [e];
  }

  lemma {:induction false} CompleteWasConfirmed(es: seq<RunEvent>) returns (i: nat, j: nat)
    requires Run(Idle, es).Complete?
    ensures DoneThenConfirmed(es, i, j)
  {
    var n := |es| - 1;
    var front := es[..n];
    assert es == front + [es[n]];
    if es[n].HistoryConfirmed? && Run(Idle, front).Finalising? {
      i := FinalisingHasDone(front);
      j := n;
      assert front[..i] == es[..i];
      assert es[i..] == front[i..] + [es[n]];
    } else {
      i, j := CompleteWasConfirmed(front);
      DoneThenConfirmedSnoc(front, es[n], i, j);
    }
  }

  lemma ConfirmedIsComplete(es: seq<RunEvent>, i: nat, j: nat)
    requires DoneThenConfirmed(es, i, j)
    ensures Run(Idle, es).Complete?
  {
    var upto, rest := es[..j + 1], es[j + 1..];
    assert upto == es[..j] + [es[j]] && upto + rest == es;
    RunSnoc(Idle, es[..j], es[j]);
    RunConcat(Idle, upto, rest);
    assert es[i..] == es[i..j + 1] + rest;
    CompletePersists(Complete, rest);
  }

  /** A run reads "complete" exactly when an effective `done` was followed by an effective
      `history_confirmed` and nothing was started since. */
  lemma CompleteIffDoneThenConfirmed(es: seq<RunEvent>)
    ensures Run(Idle, es).Complete? <==> exists i: nat, j: nat :: DoneThenConfirmed(es, i, j)
  {
    if Run(Idle, es).Complete? {
      var i, j := CompleteWasConfirmed(es);
    }
    forall i: nat, j: nat | DoneThenConfirmed(es, i, j) ensures Run(Idle, es).Complete? {
      ConfirmedIsComplete(es, i, j);
    }
  }

  // ---- Every phase by its history --------------------------------------------------------

  /** The phases from which `e` leads into `q`, written out; "preparing" is entered from anywhere. */
  function EnteredFrom(q: Phase, e: RunEvent): set<Phase> {
    match (q, e)
    case (Preparing, RunStarted) =>
      {Idle, Preparing, Thinking, Generating, Pausing, Paused, Resuming, Finalising, Complete, Error, Aborted}
    case (Thinking, ReasoningDelta) => {Preparing, Thinking, Resuming}
    case (Thinking, ThinkingActivity) => {Preparing}
    case (Generating, ResponseDelta) => {Preparing, Thinking, Resuming}
    case (Generating, Resumed) => {Resuming, Paused}
    case (Pausing, PauseRequested) => {Preparing, Thinking, Generating, Pausing, Resuming, Finalising}
    case (Paused, PauseConfirmed) => {Preparing, Thinking, Generating, Pausing, Resuming, Finalising}
    case (Resuming, ResumeRequested) => {Paused}
    case (Finalising, Done) => {Preparing, Thinking, Generating, Pausing, Resuming, Finalising}
    case (Complete, HistoryConfirmed) => {Finalising}
    case (Error, RunFailed) => {Preparing, Thinking, Generating, Pausing, Paused, Resuming, Finalising}
    case (Aborted, RunAborted) => {Preparing, Thinking, Generating, Pausing, Paused, Resuming, Finalising}
    case _ => {}
  }

  /** The events that end a phase. */
  function EndedBy(q: Phase): set<RunEvent> {
    match q
    case Idle => {RunStarted}
    case Preparing =>
      {ReasoningDelta, ResponseDelta, ThinkingActivity, PauseRequested, PauseConfirmed, Done, RunFailed, RunAborted}
    case Thinking => {RunStarted, ResponseDelta, PauseRequested, PauseConfirmed, Done, RunFailed, RunAborted}
    case Generating => {RunStarted, PauseRequested, PauseConfirmed, Done, RunFailed, RunAborted}
    case Pausing => {RunStarted, PauseConfirmed, Done, RunFailed, RunAborted}
    case Paused => {RunStarted, ResumeRequested, Resumed, RunFailed, RunAborted}
    case Resuming =>
      {RunStarted, ReasoningDelta, ResponseDelta, PauseRequested, PauseConfirmed, Resumed, Done, RunFailed, RunAborted}
    case Finalising => {RunStarted, PauseRequested, PauseConfirmed, HistoryConfirmed, RunFailed, RunAborted}
    case Complete => {RunStarted}
    case Error => {RunStarted}
    case Aborted => {RunStarted}
  }

  /** The run entered `q` at `i`, and nothing since ended that phase. */
  ghost predicate EnteredAt(q: Phase, es: seq<RunEvent>, i: nat) {
    && i < |es| && Run(Idle, es[..i]) in EnteredFrom(q, es[i])
    && forall k :: i < k < |es| ==> es[k] !in EndedBy(q)
  }

  lemma StepEnters(p: Phase, q: Phase, e: RunEvent)
    ensures NextPhase(p, e) == q <==> p in EnteredFrom(q, e) || (p == q && e !in EndedBy(q))
  {
  }

  lemma {:induction false} WasEntered(q: Phase, es: seq<RunEvent>) returns (i: nat)
    requires q != Idle && Run(Idle, es) == q
    ensures EnteredAt(q, es, i)
  {
    var n := |es| - 1;
    var front := es[..n];
    StepEnters(Run(Idle, front), q, es[n]);
    if Run(Idle, front) in EnteredFrom(q, es[n]) {
      i := n;
    } else {
      i := WasEntered(q, front);
      assert front[..i] == es[..i];
      assert forall k :: 0 <= k < n ==> front[k] == es[k];
    }
  }

  lemma {:induction false} EnteredStays(q: Phase, es: seq<RunEvent>, i: nat)
    requires EnteredAt(q, es, i)
    ensures Run(Idle, es) == q
  {
    var n := |es| - 1;
    var front := es[..n];
    StepEnters(Run(Idle, front), q, es[n]);
    if i < n {
      assert front[..i] == es[..i];
      assert forall k :: 0 <= k < n ==> front[k] == es[k];
      EnteredStays(q, front, i);
    }
  }

  /** A run reads any phase but "idle" exactly when one of the events that lead into it arrived in one of the phases
      they lead from, and none of the events that end it came since. */
  lemma PhaseIffEntered(q: Phase, es: seq<RunEvent>)
    requires q != Idle
    ensures Run(Idle, es) == q <==> exists i: nat :: EnteredAt(q, es, i)
  {
    if Run(Idle, es) == q {
      var i := WasEntered(q, es);
    }
    forall i: nat | EnteredAt(q, es, i) ensures Run(Idle, es) == q {
      EnteredStays(q, es, i);
    }
  }

  /** ... and "idle" exactly when no run was ever started. */
  lemma {:induction false} IdleIffNeverStarted(es: seq<RunEvent>)
    ensures Run(Idle, es) == Idle <==> RunStarted !in es
  {
    if es != [] {
      IdleIffNeverStarted(es[..|es| - 1]);
      StepEnters(Run(Idle, es[..|es| - 1]), Idle, es[|es| - 1]);
      assert es == es[..|es| - 1] + [es[|es| - 1]];
    }
  }

  // ---- Terminal and parked runs ----------------------------------------------------------

  /** The phase never leaves `p` while `es` is processed. */
  ghost predicate Stays(p: Phase, es: seq<RunEvent>) {
    forall k: nat | k <= |es| :: Run(p, es[..k]) == p
  }

  lemma StaysSnoc(p: Phase, es: seq<RunEvent>)
    requires es != []
    ensures Stays(p, es) <==> Stays(p, es[..|es| - 1]) && NextPhase(p, es[|es| - 1]) == p
  {
    var n := |es| - 1;
    assert forall k: nat | k <= n :: es[..n][..k] == es[..k];
    assert es[..|es|] == es && es[..n][..n] == es[..n];
  }

  /** A settled phase survives a continuation exactly when no run is started in it. */
  lemma {:induction false} TerminalLeavesOnlyByStart(p: Phase, es: seq<RunEvent>)
    requires IsTerminal(p)
    ensures Stays(p, es) <==> RunStarted !in es
  {
    if es != [] {
      TerminalLeavesOnlyByStart(p, es[..|es| - 1]);
      StaysSnoc(p, es);
    }
  }

  predicate ReleasesParkedRun(e: RunEvent) {
    e.ResumeRequested? || e.Resumed? || e.RunFailed? || e.RunAborted? || e.RunStarted?
  }

  /** A paused run stays paused throughout a continuation exactly when the continuation holds none
      of the five releasing events. */
  lemma {:induction false} ParkedIsFrozen(es: seq<RunEvent>)
    ensures Stays(Paused, es) <==> forall k :: 0 <= k < |es| ==> !ReleasesParkedRun(es[k])
  {
    if es != [] {
      ParkedIsFrozen(es[..|es| - 1]);
      StaysSnoc(Paused, es);
    }
  }

  // ---- No demotion -----------------------------------------------------------------------

  predicate PastThinking(p: Phase) {
    !p.Idle? && !p.Preparing? && !p.Thinking? && !p.Resuming?
  }

  lemma {:induction false} PastThinkingPersists(p: Phase, es: seq<RunEvent>)
    requires PastThinking(p)
    requires RunStarted !in es && ResumeRequested !in es
    ensures PastThinking(Run(p, es))
  {
    if es != [] {
      PastThinkingPersists(p, es[..|es| - 1]);
    }
  }

  /** A run seen generating at `i` and thinking at a later `j` was started or resumed in between. */
  lemma {:induction false} NoDemotion(es: seq<RunEvent>, i: nat, j: nat)
    requires i <= j <= |es|
    requires Run(Idle, es[..i]).Generating? && Run(Idle, es[..j]).Thinking?
    ensures RunStarted in es[i..j] || ResumeRequested in es[i..j]
  {
    RunConcat(Idle, es[..i], es[i..j]);
    assert es[..i] + es[i..j] == es[..j];
    if RunStarted !in es[i..j] && ResumeRequested !in es[i..j] {
      PastThinkingPersists(Generating, es[i..j]);
    }
  }

  // ---- Early delivery --------------------------------------------------------------------

  predicate IsDelta(e: RunEvent) {
    e.ReasoningDelta? || e.ResponseDelta?
  }

  /** Events a streamed delta may not overtake. */
  predicate PinsOrder(e: RunEvent) {
    e.RunStarted? || e.ResumeRequested? || e.Resumed?
  }

  /** A streamed delta commutes with `e` from every phase exactly when `e` does not pin the order: ahead of the start
      of a run it is wiped out, behind it an answer reads "generating" and reasoning "thinking". */
  lemma DeltaCommutesIff(e: RunEvent)
    ensures forall p :: NextPhase(NextPhase(p, ResponseDelta), RunStarted) == Preparing
                        && NextPhase(NextPhase(p, RunStarted), ResponseDelta) == Generating
                        && NextPhase(NextPhase(p, RunStarted), ReasoningDelta) == Thinking
    ensures (forall p, d {:trigger NextPhase(NextPhase(p, d), e)} | IsDelta(d) ::
               NextPhase(NextPhase(p, d), e) == NextPhase(NextPhase(p, e), d))
            <==> !PinsOrder(e)
  {
    if PinsOrder(e) {
      var p, d := if e.RunStarted? then Idle else if e.Resumed? then Resuming else Paused, ReasoningDelta;
      assert NextPhase(NextPhase(p, d), e) != NextPhase(NextPhase(p, e), d);
    }
  }

  /** A delta may be moved ahead of a whole queue of events that do not pin the order. */
  lemma {:induction false} DeltaOvertakesQueue(p: Phase, queue: seq<RunEvent>, d: RunEvent)
    requires IsDelta(d)
    requires forall e :: e in queue ==> !PinsOrder(e)
    ensures Run(NextPhase(p, d), queue) == NextPhase(Run(p, queue), d)
  {
    if queue != [] {
      var n := |queue| - 1;
      DeltaOvertakesQueue(p, queue[..n], d);
      DeltaCommutesIff(queue[n]);
    }
  }

  /** The events a batch can hold besides content: a run is started and a resume completed elsewhere. */
  predicate IsBatchEvent(e: RunEvent) {
    !IsDelta(e) && !e.RunStarted? && !e.Resumed?
  }

  /** The run is parked at the start of `es` or at some point while it is processed. */
  predicate PassesPaused(p: Phase, es: seq<RunEvent>) {
    if es == [] then p.Paused? else PassesPaused(p, es[..|es| - 1]) || Run(p, es).Paused?
  }

  lemma MirrorStep(a: Phase, b: Phase, e: RunEvent, d: RunEvent)
    requires IsDelta(d) && IsBatchEvent(e)
    ensures a == b && !b.Preparing? && !b.Thinking? ==>
              var b' := NextPhase(b, e); NextPhase(a, e) == b' && !b'.Preparing? && !b'.Thinking?
    ensures a == NextPhase(b, d) && !b.Paused? ==>
              var b' := NextPhase(b, e); NextPhase(a, e) == NextPhase(b', d) && (b'.Paused? ==> NextPhase(a, e) == b')
  {
  }

  /** A delta that went ahead of a queue is remembered until the run is parked, and forgotten from then on. */
  lemma {:induction false} DeltaMirror(p: Phase, es: seq<RunEvent>, d: RunEvent)
    requires IsDelta(d) && forall e :: e in es ==> IsBatchEvent(e)
    ensures var ahead, behind := Run(NextPhase(p, d), es), Run(p, es);
            if PassesPaused(p, es) then ahead == behind && !behind.Preparing? && !behind.Thinking?
            else ahead == NextPhase(behind, d) && !behind.Paused?
  {
    if es != [] {
      var n := |es| - 1;
      DeltaMirror(p, es[..n], d);
      MirrorStep(Run(NextPhase(p, d), es[..n]), Run(p, es[..n]), es[n], d);
    }
  }

  /** A delta may overtake a queue from a given phase exactly unless the run is parked on the way and resuming at
      its end: then the delta should have ended the resuming phase. */
  lemma DeltaOvertakesIff(p: Phase, es: seq<RunEvent>, d: RunEvent)
    requires IsDelta(d) && forall e :: e in es ==> IsBatchEvent(e)
    ensures Run(NextPhase(p, d), es) == NextPhase(Run(p, es), d) <==> !(PassesPaused(p, es) && Run(p, es).Resuming?)
  {
    DeltaMirror(p, es, d);
  }
}
