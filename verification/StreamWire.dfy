/** The streaming pipeline on the wire: what the display and the phase come to, read off the names of the events the
    socket delivered. */
module StreamWire {
  import opened Common
  import opened Distinct
  import P = RunPhase
  import A = StreamAccumulator
  import E = RunEvents
  import opened StreamPipeline

  /** One frame: its raw type, its caption when that is a string, and the run-control phase in its detail. */
  datatype Frame = Frame(id: string, wire: string, caption: Option<string>, detail: Option<string>)

  function Parsed(x: Frame): Activity {
    FromWire(x.id, x.wire, x.caption, x.detail)
  }

  function ParsedAll(xs: seq<Frame>): seq<Activity> {
    if xs == [] then [] else ParsedAll(xs[..|xs| - 1]) + [Parsed(xs[|xs| - 1])]
  }

  predicate HasCaption(x: Frame) {
    x.caption.Some? && x.caption.value != ""
  }

  const ANSWER := {"response", "assistant_delta"}
  const REASONING := {"reasoning", "thinking_delta"}

  /** The last non-empty caption under one of these names, or "" when there was none. */
  function LastUnder(xs: seq<Frame>, names: set<string>): string {
    if xs == [] then ""
    else
      var x := xs[|xs| - 1];
      if x.wire in names && HasCaption(x) then x.caption.value else LastUnder(xs[..|xs| - 1], names)
  }

  // ---- The display -----------------------------------------------------------------------

  lemma ParsedContent(x: Frame)
    ensures HasContent(Parsed(x)) <==> (x.wire in ANSWER || x.wire in REASONING) && HasCaption(x)
    ensures HasContent(Parsed(x)) ==>
              FoldOf(Parsed(x)) == A.Fold(if x.wire in ANSWER then A.Response else A.Reasoning, x.caption)
  {
    E.ContentNames(x.wire);
  }

  lemma {:induction false} LatestIsLastUnder(xs: seq<Frame>)
    ensures A.Latest(FoldsOf(Filter(ParsedAll(xs), HasContent))) == A.Snapshot(LastUnder(xs, ANSWER), LastUnder(xs, REASONING))
  {
    if xs != [] {
      var n := |xs| - 1;
      var a, front := Parsed(xs[n]), Filter(ParsedAll(xs[..n]), HasContent);
      LatestIsLastUnder(xs[..n]);
      ContentSnoc(ParsedAll(xs[..n]), a);
      ParsedContent(xs[n]);
      FoldsOfSnoc(front, a);
      A.LatestSnoc(FoldsOf(front), FoldOf(a));
    }
  }

  /** For every interleaving of deliveries, flushes, frames, drops and disconnects of frames with distinct ids, the
      display overlaid with what is pending shows the last non-empty "response" or "assistant_delta" caption as the
      answer and the last "reasoning" or "thinking_delta" caption as the reasoning. */
  lemma DisplayByName(phase: P.Phase, steps: seq<Step>, xs: seq<Frame>)
    requires Arrivals(steps) == ParsedAll(xs) && PairwiseDistinct(Arrivals(steps), Id)
    ensures A.Visible(Exec(phase, steps).view) == A.Snapshot(LastUnder(xs, ANSWER), LastUnder(xs, REASONING))
  {
    ExactlyOnce(phase, steps);
    LatestIsLastUnder(xs);
  }

  lemma {:induction false} ParsedLength(xs: seq<Frame>)
    ensures |ParsedAll(xs)| == |xs|
  {
    if xs != [] {
      ParsedLength(xs[..|xs| - 1]);
    }
  }

  lemma {:induction false} ParsedAt(xs: seq<Frame>, i: nat)
    requires i < |xs| == |ParsedAll(xs)|
    ensures ParsedAll(xs)[i] == Parsed(xs[i])
  {
    if i < |xs| - 1 {
      ParsedLength(xs[..|xs| - 1]);
      ParsedAt(xs[..|xs| - 1], i);
    }
  }

  predicate EndsRun(x: Frame) {
    x.wire in {"done", "complete", "aborted", "error"}
  }

  lemma ParsedFlushes(x: Frame)
    ensures FlushesDisplay(Parsed(x)) <==> EndsRun(x)
  {
  }

  lemma FlushedAt(xs: seq<Frame>, i: nat)
    requires i < |xs| == |ParsedAll(xs)|
    ensures FlushesDisplay(ParsedAll(xs)[i]) <==> EndsRun(xs[i])
  {
    ParsedAt(xs, i);
    ParsedFlushes(xs[i]);
  }

  lemma TailFlushesIff(all: seq<Activity>, queue: seq<Activity>)
    requires |queue| <= |all| && queue == all[|all| - |queue|..]
    ensures Flushes(queue) <==> exists i: nat :: |all| - |queue| <= i < |all| && FlushesDisplay(all[i])
  {
    var cut := |all| - |queue|;
    if Flushes(queue) {
      var a :| a in queue && FlushesDisplay(a);
      var j :| 0 <= j < |queue| && queue[j] == a;
      assert all[cut + j] == a;
    }
    if i: nat :| cut <= i < |all| && FlushesDisplay(all[i]) {
      assert queue[i - cut] == all[i];
    }
  }

  /** One of the last `n` frames ends the run. */
  ghost predicate HoldsEnd(xs: seq<Frame>, n: nat) {
    exists i: nat :: |xs| - n <= i < |xs| && EndsRun(xs[i])
  }

  lemma QueueFlushesIff(xs: seq<Frame>, queue: seq<Activity>)
    requires |queue| <= |ParsedAll(xs)| && queue == ParsedAll(xs)[|ParsedAll(xs)| - |queue|..]
    ensures Flushes(queue) <==> HoldsEnd(xs, |queue|)
  {
    ParsedLength(xs);
    TailFlushesIff(ParsedAll(xs), queue);
    forall i: nat | i < |xs| ensures FlushesDisplay(ParsedAll(xs)[i]) <==> EndsRun(xs[i]) {
      FlushedAt(xs, i);
    }
  }

  lemma FlushedShows(v: A.View)
    ensures var f := A.Flushed(v);
            && f.pending == A.NOTHING
            && (f.shown == Some(A.Visible(v)) || (f.shown.None? && A.Visible(v) == A.Snapshot("", "")))
  {
  }

  /** A flush of the batch moves what is pending to the display exactly when the batch holds the end of a run. */
  lemma BatchShowsIff(phase: P.Phase, steps: seq<Step>, xs: seq<Frame>)
    requires Arrivals(steps) == ParsedAll(xs) && PairwiseDistinct(Arrivals(steps), Id)
    ensures var p := Exec(phase, steps);
            Next(p, FlushActivity(true)).view == if HoldsEnd(xs, |p.queue|) then A.Flushed(p.view) else p.view
  {
    var p := Exec(phase, steps);
    ExactlyOnce(phase, steps);
    FlushDrains(p, Arrivals(steps));
    QueueFlushesIff(xs, p.queue);
  }

  /** Then nothing is left pending: the display itself shows those captions, or nothing when there were none. */
  lemma EndShowsAll(phase: P.Phase, steps: seq<Step>, xs: seq<Frame>)
    requires Arrivals(steps) == ParsedAll(xs) && PairwiseDistinct(Arrivals(steps), Id)
    requires HoldsEnd(xs, |Exec(phase, steps).queue|)
    ensures var view, last := Next(Exec(phase, steps), FlushActivity(true)).view, A.Snapshot(LastUnder(xs, ANSWER), LastUnder(xs, REASONING));
            view.pending == A.NOTHING && (view.shown == Some(last) || (view.shown.None? && last == A.Snapshot("", "")))
  {
    BatchShowsIff(phase, steps, xs);
    DisplayByName(phase, steps, xs);
    FlushedShows(Exec(phase, steps).view);
  }

  // ---- The phase -------------------------------------------------------------------------

  /** The phase event each frame stands for. */
  function SignalOf(x: Frame): seq<P.RunEvent> {
    if x.wire in ANSWER then if HasCaption(x) then [P.ResponseDelta] else []
    else if x.wire in REASONING then if HasCaption(x) then [P.ReasoningDelta] else []
    else if x.wire == "status" then
      [if x.detail == Some("pausing") then P.PauseRequested
       else if x.detail == Some("paused") then P.PauseConfirmed
       else if x.detail == Some("resuming") then P.ResumeRequested
       else P.ThinkingActivity]
    else if x.wire in {"done", "complete"} then [P.Done]
    else if x.wire == "aborted" then [P.RunAborted]
    else if x.wire == "error" then [P.RunFailed]
    else if IsActivityName(x.wire) then [P.ThinkingActivity]
    else []
  }

  function Signals(xs: seq<Frame>): seq<P.RunEvent> {
    if xs == [] then [] else Signals(xs[..|xs| - 1]) + SignalOf(xs[|xs| - 1])
  }

  predicate IsActivityName(wire: string) {
    wire in {"thinking", "thinking_start", "thinking_end", "tool_start", "tool_end", "escalation", "context",
             "perf", "failure", "plan", "task", "handoff"}
  }

  lemma ActivityNames(wire: string)
    ensures var k := E.NormalizeEventKind(wire);
            (|| k.Progress? || k.ThinkingOpen? || k.ThinkingClose? || k.ToolStart? || k.ToolEnd? || k.Escalation?
             || k.Context? || k.Perf? || k.Failure? || k.Plan? || k.Task? || k.Handoff?) <==> IsActivityName(wire)
  {
  }

  lemma EndNames(wire: string)
    ensures var k := E.NormalizeEventKind(wire);
            && (k.Done? || k.Complete? <==> wire in {"done", "complete"})
            && (k.Aborted? <==> wire == "aborted") && (k.Error? <==> wire == "error")
  {
  }

  lemma ParsedSignal(x: Frame)
    ensures PhaseEvents(Parsed(x)) == SignalOf(x)
  {
    E.ContentNames(x.wire);
    StatusReads(x.wire);
    EndNames(x.wire);
    ActivityNames(x.wire);
    SignalByKind(Parsed(x), x);
  }

  lemma SignalByKind(a: Activity, x: Frame)
    requires a.caption == x.caption && a.control == ControlOf(x.detail)
    requires a.kind.AssistantDelta? <==> x.wire in ANSWER
    requires a.kind.ThinkingDelta? <==> x.wire in REASONING
    requires a.kind.Status? <==> x.wire == "status"
    requires a.kind.Done? || a.kind.Complete? <==> x.wire in {"done", "complete"}
    requires a.kind.Aborted? <==> x.wire == "aborted"
    requires a.kind.Error? <==> x.wire == "error"
    requires (|| a.kind.Progress? || a.kind.ThinkingOpen? || a.kind.ThinkingClose? || a.kind.ToolStart? || a.kind.ToolEnd?
              || a.kind.Escalation? || a.kind.Context? || a.kind.Perf? || a.kind.Failure? || a.kind.Plan? || a.kind.Task?
              || a.kind.Handoff?) <==> IsActivityName(x.wire)
    ensures PhaseEvents(a) == SignalOf(x)
  {
  }

  lemma {:induction false} ParsedSignals(xs: seq<Frame>)
    ensures AllPhaseEvents(ParsedAll(xs)) == Signals(xs)
  {
    if xs != [] {
      var n := |xs| - 1;
      ParsedSignals(xs[..n]);
      ParsedSignal(xs[n]);
      AllPhaseEventsSnoc(ParsedAll(xs[..n]), Parsed(xs[n]));
    }
  }

  /** For every interleaving in which no content overtakes a queued resume, drops and disconnects included, the phase
      settles on that of the surviving frames' names in arrival order. */
  lemma PhaseByName(phase: P.Phase, steps: seq<Step>, kept: seq<Frame>)
    requires PairwiseDistinct(Arrivals(steps), Id) && NoOvertaking(phase, steps)
    requires Surviving(phase, steps) == ParsedAll(kept)
    ensures Settled(Exec(phase, steps)) == P.Run(phase, Signals(kept))
  {
    EarlyDeliverySettles(phase, steps);
    ParsedSignals(kept);
  }

  /** When no batch is dropped, those are all frames. */
  lemma LosslessPhaseByName(phase: P.Phase, steps: seq<Step>, xs: seq<Frame>)
    requires PairwiseDistinct(Arrivals(steps), Id) && NoOvertaking(phase, steps) && Lossless(steps)
    requires Arrivals(steps) == ParsedAll(xs)
    ensures Settled(Exec(phase, steps)) == P.Run(phase, Signals(xs))
  {
    LosslessSurvives(phase, steps);
    PhaseByName(phase, steps, xs);
  }
}
