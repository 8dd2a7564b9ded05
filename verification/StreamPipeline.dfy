/** The streaming pipeline end to end: src/stream-fast-path.ts between the socket and the activity
    batch of src/store.ts, driving the run-phase machine and the snapshot accumulator. */
module StreamPipeline {
  import opened Common
  import opened Distinct
  import P = RunPhase
  import A = StreamAccumulator
  import E = RunEvents
  import F = StreamFastPath

  /** The run-control phase a status event carries in its detail. */
  datatype Control = Pausing | Parked | Resuming | NoControl

  function ControlOf(detail: Option<string>): Control {
    if detail == Some("pausing") then Pausing
    else if detail == Some("paused") then Parked
    else if detail == Some("resuming") then Resuming
    else NoControl
  }

  /** One activity event with its canonical kind; `caption` is `None` unless it is a string. */
  datatype Activity = Activity(id: string, kind: E.Kind, caption: Option<string>, control: Control)

  function FromWire(id: string, wire: string, caption: Option<string>, detail: Option<string>): Activity {
    Activity(id, E.NormalizeEventKind(wire), caption, ControlOf(detail))
  }

  function Id(a: Activity): string { a.id }

  predicate IsCritical(a: Activity) { F.IsStreamCriticalKind(a.kind) }

  predicate IsPlain(a: Activity) { !IsCritical(a) }

  predicate HasContent(a: Activity) {
    IsCritical(a) && a.caption.Some? && a.caption.value != ""
  }

  /** The snapshot a content event carries. */
  function FoldOf(a: Activity): A.Fold {
    A.Fold(if a.kind.ThinkingDelta? then A.Reasoning else A.Response, a.caption)
  }

  /** The phase events one activity event causes, whichever path processes it. */
  function PhaseEvents(a: Activity): seq<P.RunEvent> {
    match a.kind
    case AssistantDelta => if HasContent(a) then [P.ResponseDelta] else []
    case ThinkingDelta => if HasContent(a) then [P.ReasoningDelta] else []
    case Status =>
      if a.control.Pausing? then [P.PauseRequested]
      else if a.control.Parked? then [P.PauseConfirmed]
      else if a.control.Resuming? then [P.ResumeRequested]
      else [P.ThinkingActivity]
    case ThinkingOpen => [P.ThinkingActivity]
    case ThinkingClose => [P.ThinkingActivity]
    case Escalation => [P.ThinkingActivity]
    case Task => [P.ThinkingActivity]
    case Handoff => [P.ThinkingActivity]
    case ToolStart => [P.ThinkingActivity]
    case ToolEnd => [P.ThinkingActivity]
    case Context => [P.ThinkingActivity]
    case Perf => [P.ThinkingActivity]
    case Failure => [P.ThinkingActivity]
    case Plan => [P.ThinkingActivity]
    case Progress => [P.ThinkingActivity]
    case Done => [P.Done]
    case Complete => [P.Done]
    case Aborted => [P.RunAborted]
    case Error => [P.RunFailed]
    case _ => []
  }

  function AllPhaseEvents(xs: seq<Activity>): seq<P.RunEvent> {
    if xs == [] then [] else AllPhaseEvents(xs[..|xs| - 1]) + PhaseEvents(xs[|xs| - 1])
  }

  /** Lifecycle events flush the display synchronously. */
  predicate FlushesDisplay(a: Activity) {
    var k := a.kind;
    k.Done? || k.Complete? || k.Error? || k.Aborted?
  }

  // ---- State and steps -------------------------------------------------------------------

  /** `folded` and `handled` record the events whose snapshot was folded, and those the batch
      consumer processed, in order. */
  datatype Pipe = Pipe(
    phase: P.Phase, ledger: set<string>, queue: seq<Activity>, view: A.View,
    folded: seq<Activity>, handled: seq<Activity>)

  function Start(phase: P.Phase): Pipe {
    Pipe(phase, {}, [], A.BLANK, [], [])
  }

  /** Fold a content event and advance the phase: the same arm on both paths. */
  function Processed(p: Pipe, a: Activity): Pipe {
    p.(phase := P.Run(p.phase, PhaseEvents(a)),
       view := if HasContent(a) then A.Next(p.view, A.Apply(FoldOf(a)))
               else if FlushesDisplay(a) then A.Flushed(p.view)
               else p.view,
       folded := if HasContent(a) then p.folded + [a] else p.folded)
  }

  /** The store's side of the fast-path callbacks. */
  function FiredOne(p: Pipe, effect: F.Effect): Pipe {
    match effect
    case FoldContent(text) => p.(view := A.Next(p.view, A.Apply(A.Fold(A.Response, Some(text)))))
    case FoldReasoning(text) => p.(view := A.Next(p.view, A.Apply(A.Fold(A.Reasoning, Some(text)))))
    case PhaseResponseDelta => p.(phase := P.NextPhase(p.phase, P.ResponseDelta))
    case PhaseReasoningDelta => p.(phase := P.NextPhase(p.phase, P.ReasoningDelta))
    case MarkRunEvidence => p
  }

  function Fired(p: Pipe, effects: seq<F.Effect>): Pipe
    decreases |effects|
  {
    if effects == [] then p else Fired(FiredOne(p, effects[0]), effects[1..])
  }

  lemma FiredThree(p: Pipe, x: F.Effect, y: F.Effect, z: F.Effect)
    ensures Fired(p, [x]) == FiredOne(p, x)
    ensures Fired(p, [x, y, z]) == FiredOne(FiredOne(FiredOne(p, x), y), z)
  {
    assert [x][1..] == [] && [x, y, z][1..] == [y, z] && [y, z][1..] == [z] && [z][1..] == [];
    var q := FiredOne(p, x);
    assert Fired(FiredOne(q, y), [z]) == FiredOne(FiredOne(q, y), z);
  }

  /** The fast path mirrors the batched arm: for an event it takes, its callbacks change the phase and
      the display exactly as the batch consumer's processing of that event would. */
  lemma FastPathMirrorsBatch(p: Pipe, a: Activity)
    requires IsCritical(a)
    ensures var q := Processed(p, a);
            Fired(p, F.Effects(a.kind, a.caption)) == p.(phase := q.phase, view := q.view)
  {
    var effects := F.Effects(a.kind, a.caption);
    if HasContent(a) {
      FiredThree(p, effects[0], effects[1], effects[2]);
      DeltaRun(p.phase, a);
    } else {
      FiredThree(p, effects[0], effects[0], effects[0]);
    }
  }

  /** The socket delivers one event: the fast path takes it or not, and it joins the batch. */
  function Received(p: Pipe, a: Activity): Pipe {
    var early := if IsCritical(a) then Processed(p, a).(ledger := p.ledger + {a.id}) else p;
    early.(queue := early.queue + [a])
  }

  /** The batch consumer reaches one event: skip it if the ledger holds it. */
  function Consumed(p: Pipe, a: Activity): Pipe {
    var p' := p.(ledger := p.ledger - {a.id});
    if a.id in p.ledger then p'
    else Processed(p', a).(handled := p.handled + [a])
  }

  function ConsumedAll(p: Pipe, batch: seq<Activity>): Pipe {
    if batch == [] then p else Consumed(ConsumedAll(p, batch[..|batch| - 1]), batch[|batch| - 1])
  }

  /** `FlushActivity(false)` is a flush while the socket's session is not the active one: the batch is
      dropped. `Disconnect` drops the batch together with the ledger. */
  datatype Step = Receive(a: Activity) | FlushActivity(attached: bool) | FlushFrame | Disconnect

  function Next(p: Pipe, step: Step): Pipe {
    match step
    case Receive(a) => Received(p, a)
    case FlushActivity(attached) => if attached then ConsumedAll(p.(queue := []), p.queue) else p.(queue := [])
    case FlushFrame => p.(view := A.Flushed(p.view))
    case Disconnect => p.(queue := [], ledger := {})
  }

  function Exec(phase: P.Phase, steps: seq<Step>): Pipe {
    if steps == [] then Start(phase) else Next(Exec(phase, steps[..|steps| - 1]), steps[|steps| - 1])
  }

  /** The events the socket delivered during a run, in order. */
  function Arrivals(steps: seq<Step>): seq<Activity> {
    if steps == [] then []
    else
      var front := Arrivals(steps[..|steps| - 1]);
      if steps[|steps| - 1].Receive? then front + [steps[|steps| - 1].a] else front
  }

  // ---- The ledger ------------------------------------------------------------------------

  ghost function CriticalIds(xs: seq<Activity>): set<string> {
    set a | a in xs && IsCritical(a) :: a.id
  }

  lemma CriticalIdsSnoc(xs: seq<Activity>, a: Activity)
    ensures CriticalIds(xs + [a]) == CriticalIds(xs) + if IsCritical(a) then {a.id} else {}
  {
    assert forall x :: x in xs + [a] <==> x in xs || x == a;
  }

  /** What holds between the ledger, the queue and the arrivals `rs` of distinct events. */
  ghost predicate LedgerInv(p: Pipe, rs: seq<Activity>) {
    && |p.queue| <= |rs| && p.queue == rs[|rs| - |p.queue|..]
    && CriticalIds(p.queue) <= p.ledger <= CriticalIds(rs)
  }

  /** The plain event's id is no critical event's id. */
  lemma PlainIsNotCritical(rs: seq<Activity>, a: Activity)
    requires PairwiseDistinct(rs, Id) && a in rs && IsPlain(a)
    ensures a.id !in CriticalIds(rs)
  {
    var i :| 0 <= i < |rs| && rs[i] == a;
    forall j | 0 <= j < |rs| && IsCritical(rs[j]) ensures rs[j].id != a.id {
      assert Id(rs[i]) != Id(rs[j]);
    }
  }

  lemma ConsumeCritical(p: Pipe, a: Activity)
    requires a.id in p.ledger
    ensures Consumed(p, a) == p.(ledger := p.ledger - {a.id})
  {
  }

  lemma ConsumePlain(p: Pipe, a: Activity)
    requires IsPlain(a) && a.id !in p.ledger
    ensures var q := Consumed(p, a);
            && q.ledger == p.ledger && q.queue == p.queue && q.folded == p.folded
            && q.view == (if FlushesDisplay(a) then A.Flushed(p.view) else p.view)
            && q.handled == p.handled + [a]
            && q.phase == P.Run(p.phase, PhaseEvents(a))
  {
  }

  /** The batch holds a lifecycle event. */
  ghost predicate Flushes(batch: seq<Activity>) {
    exists a :: a in batch && FlushesDisplay(a)
  }

  lemma FlushesSnoc(front: seq<Activity>, a: Activity)
    ensures Flushes(front + [a]) <==> Flushes(front) || FlushesDisplay(a)
  {
    assert forall x :: x in front + [a] <==> x in front || x == a;
  }

  /** `q` is `p` after a batch whose critical events were skipped and whose plain ones were handled; a lifecycle event
      among them brought everything pending to the display. */
  ghost predicate Drained(p: Pipe, batch: seq<Activity>, q: Pipe) {
    && q.view == (if Flushes(batch) then A.Flushed(p.view) else p.view)
    && q.ledger == p.ledger - CriticalIds(batch)
    && q.queue == p.queue && q.folded == p.folded
    && q.handled == p.handled + Filter(batch, IsPlain)
    && q.phase == P.Run(p.phase, AllPhaseEvents(Filter(batch, IsPlain)))
  }

  lemma PlainSnoc(front: seq<Activity>, a: Activity)
    ensures Filter(front + [a], IsPlain) == if IsPlain(a) then Filter(front, IsPlain) + [a] else Filter(front, IsPlain)
  {
    FilterConcat(front, [a], IsPlain);
    assert Filter([a], IsPlain) == if IsPlain(a) then [a] else [];
  }

  lemma DrainedSnoc(p: Pipe, front: seq<Activity>, a: Activity, q: Pipe)
    requires Drained(p, front, q)
    requires if IsCritical(a) then a.id in q.ledger else a.id !in q.ledger
    ensures Drained(p, front + [a], Consumed(q, a))
  {
    CriticalIdsSnoc(front, a);
    PlainSnoc(front, a);
    FlushesSnoc(front, a);
    if IsCritical(a) {
      ConsumeCritical(q, a);
    } else {
      DrainedPlain(p, front, a, q);
    }
  }

  lemma DrainedPlain(p: Pipe, front: seq<Activity>, a: Activity, q: Pipe)
    requires Drained(p, front, q)
    requires IsPlain(a) && a.id !in q.ledger
    ensures var plain := Filter(front, IsPlain) + [a];
            && Consumed(q, a).handled == p.handled + plain
            && Consumed(q, a).phase == P.Run(p.phase, AllPhaseEvents(plain))
            && Consumed(q, a).view == (if FlushesDisplay(a) then A.Flushed(q.view) else q.view)
            && Consumed(q, a).ledger == q.ledger && Consumed(q, a).queue == q.queue && Consumed(q, a).folded == q.folded
  {
    ConsumePlain(q, a);
    var plain := Filter(front, IsPlain);
    AllPhaseEventsSnoc(plain, a);
    P.RunConcat(p.phase, AllPhaseEvents(plain), PhaseEvents(a));
  }

  /** Draining a batch whose critical ids are all in the ledger: every critical event is skipped,
      every plain one is handled in order, nothing is folded, and exactly those ids leave the ledger. */
  lemma {:induction false} DrainSkipsCritical(p: Pipe, batch: seq<Activity>)
    requires PairwiseDistinct(batch, Id)
    requires CriticalIds(batch) <= p.ledger
    requires forall a :: a in batch && IsPlain(a) ==> a.id !in p.ledger
    ensures Drained(p, batch, ConsumedAll(p, batch))
  {
    if batch == [] {
      assert p.handled + [] == p.handled;
    } else {
      var n := |batch| - 1;
      var front, a := batch[..n], batch[n];
      assert batch == front + [a];
      CriticalIdsSnoc(front, a);
      DrainSkipsCritical(p, front);
      IdIsNew(front, a);
      DrainedSnoc(p, front, a, ConsumedAll(p, front));
    }
  }

  lemma IdIsNew(front: seq<Activity>, a: Activity)
    requires PairwiseDistinct(front + [a], Id)
    ensures a.id !in CriticalIds(front)
  {
    var xs := front + [a];
    forall i | 0 <= i < |front| ensures front[i].id != a.id {
      assert Id(xs[i]) != Id(xs[|front|]);
    }
  }

  lemma AllPhaseEventsSnoc(xs: seq<Activity>, a: Activity)
    ensures AllPhaseEvents(xs + [a]) == AllPhaseEvents(xs) + PhaseEvents(a)
  {
    assert (xs + [a])[..|xs|] == xs;
  }

  // ---- Exactly once ----------------------------------------------------------------------

  function FoldsOf(xs: seq<Activity>): seq<A.Fold> {
    if xs == [] then [] else FoldsOf(xs[..|xs| - 1]) + [FoldOf(xs[|xs| - 1])]
  }

  lemma FoldsOfSnoc(xs: seq<Activity>, a: Activity)
    ensures FoldsOf(xs + [a]) == FoldsOf(xs) + [FoldOf(a)]
  {
    assert (xs + [a])[..|xs|] == xs;
  }

  lemma ContentSnoc(xs: seq<Activity>, a: Activity)
    ensures Filter(xs + [a], HasContent) ==
            if HasContent(a) then Filter(xs, HasContent) + [a] else Filter(xs, HasContent)
  {
    FilterConcat(xs, [a], HasContent);
    assert Filter([a], HasContent) == if HasContent(a) then [a] else [];
  }

  /** Each content event of `rs` was folded once, in order, only plain events went through the batch
      consumer, and the display shows the last caption of each stream. */
  ghost predicate OnceInv(p: Pipe, rs: seq<Activity>) {
    && p.folded == Filter(rs, HasContent)
    && (forall a :: a in p.handled ==> IsPlain(a))
    && A.Visible(p.view) == A.Latest(FoldsOf(p.folded))
  }

  /** What receiving one event adds to the folds and the view. */
  lemma ReceivedFolds(p: Pipe, a: Activity)
    ensures Received(p, a).handled == p.handled
    ensures Received(p, a).folded == if HasContent(a) then p.folded + [a] else p.folded
    ensures A.Visible(Received(p, a).view) ==
            A.Visible(if HasContent(a) then A.Next(p.view, A.Apply(FoldOf(a))) else p.view)
  {
  }

  lemma FoldIsLatest(p: Pipe, a: Activity)
    requires HasContent(a) && A.Visible(p.view) == A.Latest(FoldsOf(p.folded))
    ensures A.Visible(A.Next(p.view, A.Apply(FoldOf(a)))) == A.Latest(FoldsOf(p.folded + [a]))
  {
    FoldsOfSnoc(p.folded, a);
    A.LatestSnoc(FoldsOf(p.folded), FoldOf(a));
  }

  lemma ReceiveKeepsOnce(p: Pipe, rs: seq<Activity>, a: Activity)
    requires OnceInv(p, rs)
    ensures OnceInv(Received(p, a), rs + [a])
  {
    ContentSnoc(rs, a);
    ReceivedFolds(p, a);
    if HasContent(a) {
      FoldIsLatest(p, a);
    }
  }

  lemma ReceiveKeepsLedger(p: Pipe, rs: seq<Activity>, a: Activity)
    requires LedgerInv(p, rs)
    ensures LedgerInv(Received(p, a), rs + [a])
  {
    CriticalIdsSnoc(p.queue, a);
    CriticalIdsSnoc(rs, a);
    assert rs + [a] == rs[..|rs| - |p.queue|] + (p.queue + [a]);
  }

  /** An attached flush drains the queue as `Drained` says. */
  lemma FlushDrains(p: Pipe, rs: seq<Activity>)
    requires PairwiseDistinct(rs, Id) && LedgerInv(p, rs)
    ensures Drained(p.(queue := []), p.queue, Next(p, FlushActivity(true)))
  {
    var at := |rs| - |p.queue|;
    forall i, j | 0 <= i < j < |p.queue| ensures Id(p.queue[i]) != Id(p.queue[j]) {
      assert Id(rs[at + i]) != Id(rs[at + j]);
    }
    forall a | a in p.queue && IsPlain(a) ensures a.id !in p.ledger {
      PlainIsNotCritical(rs, a);
    }
    DrainSkipsCritical(p.(queue := []), p.queue);
  }

  lemma FlushKeeps(p: Pipe, rs: seq<Activity>)
    requires PairwiseDistinct(rs, Id) && LedgerInv(p, rs) && OnceInv(p, rs)
    ensures var q := Next(p, FlushActivity(true)); LedgerInv(q, rs) && OnceInv(q, rs)
  {
    FlushDrains(p, rs);
    FilterMembers(p.queue, IsPlain);
  }

  lemma ArrivalsPrefixDistinct(steps: seq<Step>)
    requires steps != [] && PairwiseDistinct(Arrivals(steps), Id)
    ensures PairwiseDistinct(Arrivals(steps[..|steps| - 1]), Id)
  {
    var front, rs := Arrivals(steps[..|steps| - 1]), Arrivals(steps);
    forall i, j | 0 <= i < j < |front| ensures Id(front[i]) != Id(front[j]) {
      assert Id(rs[i]) != Id(rs[j]);
    }
  }

  /** For every interleaving of deliveries, flushes (attached or not), frames and disconnects with
      distinct ids: each content event with a non-empty caption is folded exactly once and in arrival
      order, no content event reaches the batch consumer, and the display shows the latest captions. */
  lemma {:induction false} ExactlyOnce(phase: P.Phase, steps: seq<Step>)
    requires PairwiseDistinct(Arrivals(steps), Id)
    ensures LedgerInv(Exec(phase, steps), Arrivals(steps))
    ensures OnceInv(Exec(phase, steps), Arrivals(steps))
  {
    if steps != [] {
      var front, step := steps[..|steps| - 1], steps[|steps| - 1];
      ArrivalsPrefixDistinct(steps);
      ExactlyOnce(phase, front);
      var p, rs := Exec(phase, front), Arrivals(front);
      if step.Receive? {
        ReceiveKeepsOnce(p, rs, step.a);
        ReceiveKeepsLedger(p, rs, step.a);
      } else if step == FlushActivity(true) {
        FlushKeeps(p, rs);
      }
    }
  }

  // ---- The ledger, exactly ---------------------------------------------------------------

  ghost function LeakedAfter(p: Pipe, step: Step, leaked: set<string>): set<string> {
    if step.Disconnect? then {}
    else if step == FlushActivity(false) then leaked + CriticalIds(p.queue)
    else leaked
  }

  /** The content ids dropped batches left behind since the last disconnect. */
  ghost function Leaked(phase: P.Phase, steps: seq<Step>): set<string> {
    if steps == [] then {}
    else
      var front := steps[..|steps| - 1];
      LeakedAfter(Exec(phase, front), steps[|steps| - 1], Leaked(phase, front))
  }

  /** The arrivals that have left the queue, in whatever way. */
  function Gone(p: Pipe, rs: seq<Activity>): seq<Activity>
    requires |p.queue| <= |rs|
  {
    rs[..|rs| - |p.queue|]
  }

  ghost predicate LeakInv(p: Pipe, rs: seq<Activity>, leaked: set<string>) {
    && LedgerInv(p, rs)
    && p.ledger == CriticalIds(p.queue) + leaked && leaked <= CriticalIds(Gone(p, rs))
  }

  /** What is gone shares no id with what is queued. */
  lemma GoneIsNotQueued(p: Pipe, rs: seq<Activity>)
    requires PairwiseDistinct(rs, Id) && LedgerInv(p, rs)
    ensures CriticalIds(Gone(p, rs)) !! CriticalIds(p.queue)
  {
    var at := |rs| - |p.queue|;
    forall x, y | x in Gone(p, rs) && y in p.queue ensures x.id != y.id {
      var i :| 0 <= i < at && rs[i] == x;
      var j :| 0 <= j < |p.queue| && p.queue[j] == y;
      assert Id(rs[i]) != Id(rs[at + j]);
    }
  }

  lemma ReceiveKeepsLeak(p: Pipe, rs: seq<Activity>, a: Activity, leaked: set<string>)
    requires LeakInv(p, rs, leaked)
    ensures LeakInv(Received(p, a), rs + [a], leaked)
  {
    ReceiveKeepsLedger(p, rs, a);
    CriticalIdsSnoc(p.queue, a);
    assert Gone(Received(p, a), rs + [a]) == Gone(p, rs);
  }

  lemma GoneGrows(p: Pipe, rs: seq<Activity>)
    requires LedgerInv(p, rs)
    ensures CriticalIds(rs) == CriticalIds(Gone(p, rs)) + CriticalIds(p.queue)
  {
    assert rs == Gone(p, rs) + p.queue;
    assert forall x :: x in rs <==> x in Gone(p, rs) || x in p.queue;
  }

  lemma FlushKeepsLeak(p: Pipe, rs: seq<Activity>, leaked: set<string>)
    requires PairwiseDistinct(rs, Id) && LeakInv(p, rs, leaked)
    ensures LeakInv(Next(p, FlushActivity(true)), rs, leaked)
  {
    FlushDrains(p, rs);
    GoneIsNotQueued(p, rs);
    GoneGrows(p, rs);
    assert Gone(Next(p, FlushActivity(true)), rs) == rs;
  }

  lemma DropKeepsLeak(p: Pipe, rs: seq<Activity>, leaked: set<string>)
    requires LeakInv(p, rs, leaked)
    ensures LeakInv(Next(p, FlushActivity(false)), rs, leaked + CriticalIds(p.queue))
  {
    GoneGrows(p, rs);
    assert Gone(Next(p, FlushActivity(false)), rs) == rs;
  }

  function ArrivalsAfter(rs: seq<Activity>, step: Step): seq<Activity> {
    if step.Receive? then rs + [step.a] else rs
  }

  lemma OthersKeepLeak(p: Pipe, rs: seq<Activity>, leaked: set<string>, step: Step)
    requires LeakInv(p, rs, leaked) && (step.FlushFrame? || step.Disconnect?)
    ensures LeakInv(Next(p, step), rs, LeakedAfter(p, step, leaked))
  {
  }

  lemma NextKeepsLeak(p: Pipe, rs: seq<Activity>, leaked: set<string>, step: Step)
    requires PairwiseDistinct(rs, Id) && LeakInv(p, rs, leaked)
    ensures LeakInv(Next(p, step), ArrivalsAfter(rs, step), LeakedAfter(p, step, leaked))
  {
    if step.Receive? {
      ReceiveKeepsLeak(p, rs, step.a, leaked);
    } else if step == FlushActivity(true) {
      FlushKeepsLeak(p, rs, leaked);
    } else if step == FlushActivity(false) {
      DropKeepsLeak(p, rs, leaked);
    } else {
      OthersKeepLeak(p, rs, leaked, step);
    }
  }

  lemma {:induction false} RunKeepsLeak(phase: P.Phase, steps: seq<Step>)
    requires PairwiseDistinct(Arrivals(steps), Id)
    ensures LeakInv(Exec(phase, steps), Arrivals(steps), Leaked(phase, steps))
  {
    if steps != [] {
      var front := steps[..|steps| - 1];
      ArrivalsPrefixDistinct(steps);
      RunKeepsLeak(phase, front);
      NextKeepsLeak(Exec(phase, front), Arrivals(front), Leaked(phase, front), steps[|steps| - 1]);
    }
  }

  /** In every run with distinct ids the ledger is exactly the content ids still queued, plus those of
      batches dropped since the last disconnect; the two never overlap. */
  lemma LedgerIsQueuedPlusLeaked(phase: P.Phase, steps: seq<Step>)
    requires PairwiseDistinct(Arrivals(steps), Id)
    ensures Exec(phase, steps).ledger == CriticalIds(Exec(phase, steps).queue) + Leaked(phase, steps)
    ensures Leaked(phase, steps) !! CriticalIds(Exec(phase, steps).queue)
  {
    RunKeepsLeak(phase, steps);
    GoneIsNotQueued(Exec(phase, steps), Arrivals(steps));
  }

  /** No flush found its session inactive. */
  ghost predicate AllAttached(steps: seq<Step>) {
    FlushActivity(false) !in steps
  }

  lemma {:induction false} AttachedLeaksNothing(phase: P.Phase, steps: seq<Step>)
    requires AllAttached(steps)
    ensures Leaked(phase, steps) == {}
  {
    if steps != [] {
      AttachedLeaksNothing(phase, steps[..|steps| - 1]);
    }
  }

  /** In every run without a dropped flush, disconnects included, the ledger drains itself: it holds exactly
      the queued content ids, so an empty queue means an empty ledger. */
  lemma LedgerSelfDrains(phase: P.Phase, steps: seq<Step>)
    requires PairwiseDistinct(Arrivals(steps), Id) && AllAttached(steps)
    ensures Exec(phase, steps).ledger == CriticalIds(Exec(phase, steps).queue)
  {
    LedgerIsQueuedPlusLeaked(phase, steps);
    AttachedLeaksNothing(phase, steps);
  }

  /** In every run, a flush leaves the ledger empty exactly when nothing had leaked since the last
      disconnect and the flush was attached or found no content. */
  lemma FlushEmptiesLedgerIff(phase: P.Phase, steps: seq<Step>, attached: bool)
    requires PairwiseDistinct(Arrivals(steps), Id)
    ensures var p := Exec(phase, steps);
            Next(p, FlushActivity(attached)).ledger == {} <==>
            Leaked(phase, steps) == {} && (attached || forall a :: a in p.queue ==> IsPlain(a))
  {
    var p := Exec(phase, steps);
    RunKeepsLeak(phase, steps);
    LedgerIsQueuedPlusLeaked(phase, steps);
    FlushDrains(p, Arrivals(steps));
    NoCriticalIds(p.queue);
  }

  lemma NoCriticalIds(xs: seq<Activity>)
    ensures CriticalIds(xs) == {} <==> forall a :: a in xs ==> IsPlain(a)
  {
    forall a | a in xs && IsCritical(a) ensures a.id in CriticalIds(xs) {
    }
  }

  // ---- The batch consumer ----------------------------------------------------------------

  /** `part` consists of the elements of `whole` at the ascending positions `at`. */
  ghost predicate PickedAt(part: seq<Activity>, whole: seq<Activity>, at: seq<nat>) {
    && |at| == |part|
    && (forall k :: 0 <= k < |at| ==> at[k] < |whole| && whole[at[k]] == part[k])
    && forall k, m :: 0 <= k < m < |at| ==> at[k] < at[m]
  }

  lemma {:induction false} PlainIsPicked(xs: seq<Activity>) returns (at: seq<nat>)
    ensures PickedAt(Filter(xs, IsPlain), xs, at)
  {
    at := [];
    if xs != [] {
      var n := |xs| - 1;
      at := PlainIsPicked(xs[..n]);
      assert xs == xs[..n] + [xs[n]];
      PlainSnoc(xs[..n], xs[n]);
      if IsPlain(xs[n]) {
        at := at + [n];
      }
    }
  }

  lemma PickedConcat(a: seq<Activity>, b: seq<Activity>, xs: seq<Activity>, ys: seq<Activity>, at: seq<nat>, bt: seq<nat>)
    requires PickedAt(a, xs, at) && PickedAt(b, ys, bt)
    ensures PickedAt(a + b, xs + ys, at + seq(|bt|, k requires 0 <= k < |bt| => bt[k] + |xs|))
  {
  }

  lemma FlushHandles(p: Pipe, rs: seq<Activity>, at: seq<nat>) returns (at': seq<nat>)
    requires PairwiseDistinct(rs, Id) && LedgerInv(p, rs) && PickedAt(p.handled, Gone(p, rs), at)
    ensures var q := Next(p, FlushActivity(true)); q.queue == [] && PickedAt(q.handled, rs, at')
  {
    FlushDrains(p, rs);
    assert rs == Gone(p, rs) + p.queue;
    var plain := PlainIsPicked(p.queue);
    PickedConcat(p.handled, Filter(p.queue, IsPlain), Gone(p, rs), p.queue, at, plain);
    at' := at + seq(|plain|, k requires 0 <= k < |plain| => plain[k] + |Gone(p, rs)|);
  }

  lemma PickedLonger(part: seq<Activity>, whole: seq<Activity>, more: seq<Activity>, at: seq<nat>)
    requires PickedAt(part, whole, at) && whole <= more
    ensures PickedAt(part, more, at)
  {
  }

  /** Every other step leaves what was handled alone. */
  lemma OthersHandleNothing(p: Pipe, step: Step)
    requires step != FlushActivity(true)
    ensures Next(p, step).handled == p.handled
  {
  }

  lemma GoneOnlyGrows(p: Pipe, rs: seq<Activity>, step: Step)
    requires LedgerInv(p, rs) && step != FlushActivity(true)
    ensures |Next(p, step).queue| <= |ArrivalsAfter(rs, step)|
    ensures Gone(p, rs) <= Gone(Next(p, step), ArrivalsAfter(rs, step))
  {
  }

  lemma NextHandles(p: Pipe, rs: seq<Activity>, at: seq<nat>, step: Step) returns (at': seq<nat>)
    requires PairwiseDistinct(rs, Id) && LedgerInv(p, rs) && PickedAt(p.handled, Gone(p, rs), at)
    ensures |Next(p, step).queue| <= |ArrivalsAfter(rs, step)|
    ensures PickedAt(Next(p, step).handled, Gone(Next(p, step), ArrivalsAfter(rs, step)), at')
  {
    at' := at;
    if step == FlushActivity(true) {
      at' := FlushHandles(p, rs, at);
      assert rs[..|rs|] == rs;
    } else {
      OthersHandleNothing(p, step);
      GoneOnlyGrows(p, rs, step);
      PickedLonger(p.handled, Gone(p, rs), Gone(Next(p, step), ArrivalsAfter(rs, step)), at);
    }
  }

  /** In every run, drops and disconnects included, the batch consumer handles each plain event at most once
      and in arrival order: what it handled are the arrivals at ascending positions, all gone from the queue. */
  lemma {:induction false} HandledAtMostOnce(phase: P.Phase, steps: seq<Step>) returns (at: seq<nat>)
    requires PairwiseDistinct(Arrivals(steps), Id)
    ensures |Exec(phase, steps).queue| <= |Arrivals(steps)|
    ensures PickedAt(Exec(phase, steps).handled, Gone(Exec(phase, steps), Arrivals(steps)), at)
  {
    at := [];
    if steps != [] {
      var front, step := steps[..|steps| - 1], steps[|steps| - 1];
      ArrivalsPrefixDistinct(steps);
      var p, rs := Exec(phase, front), Arrivals(front);
      at := HandledAtMostOnce(phase, front);
      RunLedger(phase, front);
      at := NextHandles(p, rs, at, step);
      assert Exec(phase, steps) == Next(p, step) && Arrivals(steps) == ArrivalsAfter(rs, step);
    }
  }

  lemma RunLedger(phase: P.Phase, steps: seq<Step>)
    requires PairwiseDistinct(Arrivals(steps), Id)
    ensures LedgerInv(Exec(phase, steps), Arrivals(steps))
  {
    ExactlyOnce(phase, steps);
  }

  /** No batch was dropped. */
  ghost predicate Lossless(steps: seq<Step>) {
    forall k :: 0 <= k < |steps| ==> !steps[k].Disconnect? && steps[k] != FlushActivity(false)
  }

  /** In every run that drops no batch no plain event is lost: those handled and those queued are all. */
  lemma {:induction false} NoPlainEventLost(phase: P.Phase, steps: seq<Step>)
    requires PairwiseDistinct(Arrivals(steps), Id) && Lossless(steps)
    ensures var p := Exec(phase, steps);
            p.handled + Filter(p.queue, IsPlain) == Filter(Arrivals(steps), IsPlain)
  {
    if steps != [] {
      var front, step := steps[..|steps| - 1], steps[|steps| - 1];
      ArrivalsPrefixDistinct(steps);
      NoPlainEventLost(phase, front);
      ExactlyOnce(phase, front);
      var p, rs := Exec(phase, front), Arrivals(front);
      if step.Receive? {
        PlainSnoc(p.queue, step.a);
        PlainSnoc(rs, step.a);
      } else if step == FlushActivity(true) {
        FlushDrains(p, rs);
      }
    }
  }

  // ---- Early delivery preserves the phase ------------------------------------------------

  /** A backend confirmation that the run resumes: the only batched event a delta may not overtake. */
  predicate IsResuming(a: Activity) {
    a.kind.Status? && a.control.Resuming?
  }

  lemma BatchEventsInOne(a: Activity)
    requires IsPlain(a)
    ensures forall e :: e in PhaseEvents(a) ==> P.IsBatchEvent(e)
  {
  }

  /** What the batch consumer causes never starts a run or completes a resume. */
  lemma {:induction false} BatchEvents(xs: seq<Activity>)
    requires forall a :: a in xs ==> IsPlain(a)
    ensures forall e :: e in AllPhaseEvents(xs) ==> P.IsBatchEvent(e)
  {
    if xs != [] {
      BatchEvents(xs[..|xs| - 1]);
      BatchEventsInOne(xs[|xs| - 1]);
    }
  }

  /** The phase once the queue is drained. */
  function Settled(p: Pipe): P.Phase {
    P.Run(p.phase, AllPhaseEvents(Filter(p.queue, IsPlain)))
  }

  /** The queued plain events will park the run and leave it resuming: content that arrives now overtakes the
      confirmation of the resume it should have ended. */
  predicate IsResumeQueued(p: Pipe) {
    P.PassesPaused(p.phase, AllPhaseEvents(Filter(p.queue, IsPlain))) && Settled(p).Resuming?
  }

  predicate Overtakes(p: Pipe, step: Step) {
    step.Receive? && HasContent(step.a) && IsResumeQueued(p)
  }

  lemma ReceivePlainSettles(p: Pipe, a: Activity)
    requires IsPlain(a)
    ensures Settled(Received(p, a)) == P.Run(Settled(p), PhaseEvents(a))
  {
    var plain := Filter(p.queue, IsPlain);
    PlainSnoc(p.queue, a);
    AllPhaseEventsSnoc(plain, a);
    P.RunConcat(p.phase, AllPhaseEvents(plain), PhaseEvents(a));
  }

  lemma ReceiveContentSettlesIff(p: Pipe, a: Activity)
    requires HasContent(a)
    ensures Settled(Received(p, a)) == P.Run(Settled(p), PhaseEvents(a)) <==> !IsResumeQueued(p)
  {
    var plain := Filter(p.queue, IsPlain);
    PlainSnoc(p.queue, a);
    FilterMembers(p.queue, IsPlain);
    BatchEvents(plain);
    DeltaRun(p.phase, a);
    DeltaRun(Settled(p), a);
    P.DeltaOvertakesIff(p.phase, AllPhaseEvents(plain), DeltaOf(a));
  }

  /** One event received settles on the phase of arrival order exactly when it does not overtake a resume. */
  lemma ReceiveSettlesIff(p: Pipe, a: Activity)
    ensures Settled(Received(p, a)) == P.Run(Settled(p), PhaseEvents(a)) <==> !Overtakes(p, Receive(a))
  {
    if IsPlain(a) {
      ReceivePlainSettles(p, a);
    } else if HasContent(a) {
      ReceiveContentSettlesIff(p, a);
    } else {
      ReceiveEmptySettles(p, a);
    }
  }

  lemma ReceiveEmptySettles(p: Pipe, a: Activity)
    requires IsCritical(a) && !HasContent(a)
    ensures Settled(Received(p, a)) == P.Run(Settled(p), PhaseEvents(a))
  {
    PlainSnoc(p.queue, a);
  }

  function DeltaOf(a: Activity): P.RunEvent {
    if a.kind.ThinkingDelta? then P.ReasoningDelta else P.ResponseDelta
  }

  lemma DeltaRun(phase: P.Phase, a: Activity)
    requires HasContent(a)
    ensures P.Run(phase, PhaseEvents(a)) == P.NextPhase(phase, DeltaOf(a))
  {
    assert PhaseEvents(a) == [] + [DeltaOf(a)];
    P.RunSnoc(phase, [], DeltaOf(a));
  }

  /** No content overtook a queued resume. */
  ghost predicate NoOvertaking(phase: P.Phase, steps: seq<Step>) {
    forall n :: 0 <= n < |steps| ==> !Overtakes(Exec(phase, steps[..n]), steps[n])
  }

  lemma NoOvertakingFront(phase: P.Phase, steps: seq<Step>)
    requires steps != [] && NoOvertaking(phase, steps)
    ensures NoOvertaking(phase, steps[..|steps| - 1])
    ensures !Overtakes(Exec(phase, steps[..|steps| - 1]), steps[|steps| - 1])
  {
    var front := steps[..|steps| - 1];
    forall n | 0 <= n < |front| ensures !Overtakes(Exec(phase, front[..n]), front[n]) {
      assert front[..n] == steps[..n];
    }
  }

  function SurvivingAfter(p: Pipe, kept: seq<Activity>, step: Step): seq<Activity> {
    var queued := |p.queue|;
    if step.Receive? then kept + [step.a]
    else if (step.Disconnect? || step == FlushActivity(false)) && queued <= |kept|
    then kept[..|kept| - queued] + Filter(kept[|kept| - queued..], IsCritical)
    else kept
  }

  /** The arrivals without the plain events of dropped batches. */
  function Surviving(phase: P.Phase, steps: seq<Step>): seq<Activity> {
    if steps == [] then []
    else
      var front := steps[..|steps| - 1];
      SurvivingAfter(Exec(phase, front), Surviving(phase, front), steps[|steps| - 1])
  }

  predicate IsEndOf(queue: seq<Activity>, kept: seq<Activity>) {
    |queue| <= |kept| && queue == kept[|kept| - |queue|..]
  }

  /** The events processed so far: all survivors but the queued plain ones. */
  function Early(queue: seq<Activity>, kept: seq<Activity>): seq<Activity>
    requires IsEndOf(queue, kept)
  {
    kept[..|kept| - |queue|] + Filter(queue, IsCritical)
  }

  function PhaseOf(phase: P.Phase, xs: seq<Activity>): P.Phase {
    P.Run(phase, AllPhaseEvents(xs))
  }

  lemma PhaseOfSnoc(phase: P.Phase, xs: seq<Activity>, a: Activity)
    ensures PhaseOf(phase, xs + [a]) == P.Run(PhaseOf(phase, xs), PhaseEvents(a))
  {
    AllPhaseEventsSnoc(xs, a);
    P.RunConcat(phase, AllPhaseEvents(xs), PhaseEvents(a));
  }

  lemma CriticalSnoc(front: seq<Activity>, a: Activity)
    ensures Filter(front + [a], IsCritical) ==
            if IsCritical(a) then Filter(front, IsCritical) + [a] else Filter(front, IsCritical)
  {
    FilterConcat(front, [a], IsCritical);
    assert Filter([a], IsCritical) == if IsCritical(a) then [a] else [];
  }

  lemma EndSnoc(queue: seq<Activity>, kept: seq<Activity>, a: Activity)
    requires IsEndOf(queue, kept)
    ensures IsEndOf(queue + [a], kept + [a])
    ensures Early(queue + [a], kept + [a]) == if IsCritical(a) then Early(queue, kept) + [a] else Early(queue, kept)
  {
    var k := |kept| - |queue|;
    assert (kept + [a])[k..] == queue + [a] && (kept + [a])[..k] == kept[..k];
    CriticalSnoc(queue, a);
  }

  /** Nothing queued: everything was processed. */
  lemma EmptyEnd(kept: seq<Activity>)
    ensures IsEndOf([], kept) && Early([], kept) == kept
  {
  }

  lemma ReceivedQueue(p: Pipe, a: Activity)
    ensures Received(p, a).queue == p.queue + [a]
    ensures Received(p, a).phase == if IsCritical(a) then P.Run(p.phase, PhaseEvents(a)) else p.phase
  {
  }

  lemma OthersKeepPhase(p: Pipe, step: Step)
    requires !step.Receive? && step != FlushActivity(true)
    ensures Next(p, step).phase == p.phase
    ensures Next(p, step).queue == if step.FlushFrame? then p.queue else []
  {
  }

  /** A drop keeps what was processed early and loses the rest of the batch. */
  lemma DropSurvives(p: Pipe, kept: seq<Activity>, step: Step)
    requires IsEndOf(p.queue, kept) && (step.Disconnect? || step == FlushActivity(false))
    ensures SurvivingAfter(p, kept, step) == Early(p.queue, kept)
  {
  }

  lemma ReceiveEarly(phase: P.Phase, p: Pipe, kept: seq<Activity>, a: Activity)
    requires IsEndOf(p.queue, kept) && p.phase == PhaseOf(phase, Early(p.queue, kept))
    ensures IsEndOf(Received(p, a).queue, kept + [a])
    ensures Received(p, a).phase == PhaseOf(phase, Early(Received(p, a).queue, kept + [a]))
  {
    ReceivedQueue(p, a);
    EndSnoc(p.queue, kept, a);
    PhaseOfSnoc(phase, Early(p.queue, kept), a);
  }

  lemma FlushEarly(phase: P.Phase, p: Pipe, rs: seq<Activity>, kept: seq<Activity>)
    requires PairwiseDistinct(rs, Id) && LedgerInv(p, rs) && Settled(p) == PhaseOf(phase, kept)
    ensures var q := Next(p, FlushActivity(true));
            IsEndOf(q.queue, kept) && q.phase == PhaseOf(phase, Early(q.queue, kept))
  {
    FlushDrains(p, rs);
    EmptyEnd(kept);
  }

  lemma OtherEarly(phase: P.Phase, p: Pipe, kept: seq<Activity>, step: Step)
    requires !step.Receive? && step != FlushActivity(true)
    requires IsEndOf(p.queue, kept) && p.phase == PhaseOf(phase, Early(p.queue, kept))
    ensures var q, kept' := Next(p, step), SurvivingAfter(p, kept, step);
            IsEndOf(q.queue, kept') && q.phase == PhaseOf(phase, Early(q.queue, kept'))
  {
    OthersKeepPhase(p, step);
    if !step.FlushFrame? {
      DropSurvives(p, kept, step);
      EmptyEnd(Early(p.queue, kept));
    }
  }

  lemma NextEarly(phase: P.Phase, p: Pipe, rs: seq<Activity>, kept: seq<Activity>, step: Step)
    requires PairwiseDistinct(rs, Id) && LedgerInv(p, rs) && Settled(p) == PhaseOf(phase, kept)
    requires IsEndOf(p.queue, kept) && p.phase == PhaseOf(phase, Early(p.queue, kept))
    ensures var q, kept' := Next(p, step), SurvivingAfter(p, kept, step);
            IsEndOf(q.queue, kept') && q.phase == PhaseOf(phase, Early(q.queue, kept'))
  {
    if step.Receive? {
      ReceiveEarly(phase, p, kept, step.a);
    } else if step == FlushActivity(true) {
      FlushEarly(phase, p, rs, kept);
    } else {
      OtherEarly(phase, p, kept, step);
    }
  }

  lemma FlushSettles(phase: P.Phase, p: Pipe, rs: seq<Activity>, kept: seq<Activity>)
    requires PairwiseDistinct(rs, Id) && LedgerInv(p, rs) && Settled(p) == PhaseOf(phase, kept)
    ensures Settled(Next(p, FlushActivity(true))) == PhaseOf(phase, kept)
  {
    FlushDrains(p, rs);
  }

  lemma OtherSettles(phase: P.Phase, p: Pipe, kept: seq<Activity>, step: Step)
    requires !step.Receive? && step != FlushActivity(true)
    requires Settled(p) == PhaseOf(phase, kept)
    requires IsEndOf(p.queue, kept) && p.phase == PhaseOf(phase, Early(p.queue, kept))
    ensures Settled(Next(p, step)) == PhaseOf(phase, SurvivingAfter(p, kept, step))
  {
    OthersKeepPhase(p, step);
    if !step.FlushFrame? {
      DropSurvives(p, kept, step);
    }
  }

  /** From a state that settles right, every step does too, except exactly content that overtakes a queued resume. */
  lemma NextSettlesIff(phase: P.Phase, p: Pipe, rs: seq<Activity>, kept: seq<Activity>, step: Step)
    requires PairwiseDistinct(rs, Id) && LedgerInv(p, rs) && Settled(p) == PhaseOf(phase, kept)
    requires IsEndOf(p.queue, kept) && p.phase == PhaseOf(phase, Early(p.queue, kept))
    ensures Settled(Next(p, step)) == PhaseOf(phase, SurvivingAfter(p, kept, step)) <==> !Overtakes(p, step)
  {
    if step.Receive? {
      ReceiveSettlesIff(p, step.a);
      PhaseOfSnoc(phase, kept, step.a);
    } else if step == FlushActivity(true) {
      FlushSettles(phase, p, rs, kept);
    } else {
      OtherSettles(phase, p, kept, step);
    }
  }

  /** In every run, whatever is dropped or disconnected, in which no content overtakes a queued
      resume: running content on arrival and the rest at each flush settles on the phase of
      the surviving events in plain arrival order, whatever the batching schedule; and at any time the
      phase is that of everything but the queued plain events. */
  lemma {:induction false} EarlyDeliverySettles(phase: P.Phase, steps: seq<Step>)
    requires PairwiseDistinct(Arrivals(steps), Id) && NoOvertaking(phase, steps)
    ensures var p, kept := Exec(phase, steps), Surviving(phase, steps);
            && Settled(p) == PhaseOf(phase, kept)
            && IsEndOf(p.queue, kept) && p.phase == PhaseOf(phase, Early(p.queue, kept))
  {
    if steps == [] {
      EmptyEnd([]);
    } else {
      var front, step := steps[..|steps| - 1], steps[|steps| - 1];
      ArrivalsPrefixDistinct(steps);
      NoOvertakingFront(phase, steps);
      EarlyDeliverySettles(phase, front);
      RunLedger(phase, front);
      var p, kept := Exec(phase, front), Surviving(phase, front);
      NextEarly(phase, p, Arrivals(front), kept, step);
      NextSettlesIff(phase, p, Arrivals(front), kept, step);
    }
  }

  lemma {:induction false} LosslessSurvives(phase: P.Phase, steps: seq<Step>)
    requires Lossless(steps)
    ensures Surviving(phase, steps) == Arrivals(steps)
  {
    if steps != [] {
      LosslessSurvives(phase, steps[..|steps| - 1]);
    }
  }

  /** Early delivery preserves the phase: when no batch is dropped, that is the phase of arrival order. */
  lemma EarlyDeliveryPreservesPhase(phase: P.Phase, steps: seq<Step>)
    requires PairwiseDistinct(Arrivals(steps), Id) && Lossless(steps) && NoOvertaking(phase, steps)
    ensures Settled(Exec(phase, steps)) == P.Run(phase, AllPhaseEvents(Arrivals(steps)))
  {
    EarlyDeliverySettles(phase, steps);
    LosslessSurvives(phase, steps);
  }

  lemma ExecTwo(phase: P.Phase, a: Activity, d: Activity)
    ensures Exec(phase, [Receive(a), Receive(d)]) == Received(Received(Start(phase), a), d)
  {
    var steps := [Receive(a), Receive(d)];
    assert steps[..1] == [Receive(a)] && [Receive(a)][..0] == [];
    assert Exec(phase, [Receive(a)]) == Next(Start(phase), Receive(a));
  }

  lemma ArrivalsOfTwo(a: Activity, d: Activity)
    ensures Arrivals([Receive(a), Receive(d)]) == [a, d]
    ensures AllPhaseEvents([a, d]) == PhaseEvents(a) + PhaseEvents(d)
  {
    assert [Receive(a), Receive(d)][..1] == [Receive(a)];
    assert Arrivals([Receive(a)]) == [a];
    assert [a, d] == [a] + [d] && [a] == [] + [a];
    AllPhaseEventsSnoc([a], d);
    AllPhaseEventsSnoc([], a);
  }

  lemma ResumeQueue(a: Activity, d: Activity)
    requires IsResuming(a) && HasContent(d)
    ensures Filter([a, d], IsPlain) == [a]
    ensures AllPhaseEvents([a]) == PhaseEvents(a) == [P.ResumeRequested]
  {
    assert [a, d] == [a] + [d] && [a] == [] + [a];
    PlainSnoc([a], d);
    PlainSnoc([], a);
    AllPhaseEventsSnoc([], a);
  }

  /** A content event that overtakes the confirmation of a resume on a paused run is lost to the
      phase: the run settles on "resuming" instead of streaming. */
  lemma OvertakingResumeFails(a: Activity, d: Activity)
    requires IsResuming(a) && HasContent(d)
    ensures Settled(Exec(P.Paused, [Receive(a), Receive(d)])) == P.Resuming
    ensures P.Run(P.Paused, AllPhaseEvents([a, d])) == P.NextPhase(P.Resuming, DeltaOf(d))
  {
    ExecTwo(P.Paused, a, d);
    ArrivalsOfTwo(a, d);
    ResumeQueue(a, d);
    DeltaRun(P.Paused, d);
    DeltaRun(P.Resuming, d);
    var p := Received(Received(Start(P.Paused), a), d);
    assert p.queue == [a, d] && p.phase == P.Paused;
    P.RunSnoc(P.Paused, [], P.ResumeRequested);
    assert [] + [P.ResumeRequested] == [P.ResumeRequested];
    P.RunConcat(P.Paused, PhaseEvents(a), PhaseEvents(d));
  }

  lemma OneQueued(phase: P.Phase, a: Activity)
    requires IsPlain(a)
    ensures IsResumeQueued(Received(Start(phase), a)) <==> IsResuming(a) && phase.Paused?
    ensures Settled(Received(Start(phase), a)) == P.Run(phase, PhaseEvents(a))
  {
    PlainSnoc([], a);
    AllPhaseEventsSnoc([], a);
    assert [] + [a] == [a] && AllPhaseEvents([a]) == PhaseEvents(a);
    OneStep(phase, a);
  }

  lemma OneStep(phase: P.Phase, a: Activity)
    requires IsPlain(a)
    ensures P.PassesPaused(phase, PhaseEvents(a)) && P.Run(phase, PhaseEvents(a)).Resuming? <==> IsResuming(a) && phase.Paused?
  {
    var es := PhaseEvents(a);
    if es != [] {
      assert es[..0] == [] && P.Run(phase, es) == P.NextPhase(phase, es[0]);
    }
  }

  /** From a given phase, a plain event may be overtaken by a following content event exactly unless it confirms the
      resume of a paused run. */
  lemma OvertakingFromIff(phase: P.Phase, a: Activity, d: Activity)
    requires IsPlain(a) && HasContent(d)
    ensures Settled(Exec(phase, [Receive(a), Receive(d)])) == P.Run(phase, AllPhaseEvents([a, d])) <==>
            !(IsResuming(a) && phase.Paused?)
  {
    ExecTwo(phase, a, d);
    ArrivalsOfTwo(a, d);
    OneQueued(phase, a);
    ReceiveSettlesIff(Received(Start(phase), a), d);
    P.RunConcat(phase, PhaseEvents(a), PhaseEvents(d));
  }

  /** A plain event may be overtaken by a following content event, from every phase, exactly when it
      is not the confirmation of a resume. */
  lemma OvertakingIsSafeIff(a: Activity, d: Activity)
    requires IsPlain(a) && HasContent(d)
    ensures (forall phase :: Settled(Exec(phase, [Receive(a), Receive(d)])) == P.Run(phase, AllPhaseEvents([a, d])))
            <==> !IsResuming(a)
  {
    forall phase {
      OvertakingFromIff(phase, a, d);
    }
    OvertakingFromIff(P.Paused, a, d);
  }

  lemma StatusReads(wire: string)
    ensures E.NormalizeEventKind(wire).Status? <==> wire == "status"
  {
  }

  lemma WireReads(id: string, wire: string, caption: Option<string>, detail: Option<string>)
    ensures var a := FromWire(id, wire, caption, detail);
            && (IsPlain(a) <==> !F.IsStreamCriticalWireType(wire))
            && (IsResuming(a) <==> wire == "status" && detail == Some("resuming"))
  {
    StatusReads(wire);
  }

  /** On the wire: from a given phase every event but the four content kinds may be overtaken by a following
      content event with a caption exactly unless it is the "resuming" status of a paused run. */
  lemma OvertakingWireIff(phase: P.Phase, id: string, wire: string, caption: Option<string>, detail: Option<string>, d: Activity)
    requires !F.IsStreamCriticalWireType(wire) && HasContent(d)
    ensures var a := FromWire(id, wire, caption, detail);
            Settled(Exec(phase, [Receive(a), Receive(d)])) == P.Run(phase, AllPhaseEvents([a, d])) <==>
            !(wire == "status" && detail == Some("resuming") && phase.Paused?)
  {
    WireReads(id, wire, caption, detail);
    OvertakingFromIff(phase, FromWire(id, wire, caption, detail), d);
  }
}
