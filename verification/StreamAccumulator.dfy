/** Cumulative snapshot coalescing (src/stream-accumulator.ts) under the flush of src/store.ts. */
module StreamAccumulator {
  import opened Common

  datatype Snapshot = Snapshot(content: string, reasoning: string)

  /** What waits for the next flush; `None` means that stream did not change. */
  datatype Pending = Pending(content: Option<string>, reasoning: Option<string>)

  const NOTHING := Pending(None, None)

  datatype Stream = Response | Reasoning

  /** One snapshot event; `caption` is `None` when the frame carried no string. */
  datatype Fold = Fold(stream: Stream, caption: Option<string>)

  predicate Carries(f: Fold) {
    f.caption.Some? && f.caption.value != ""
  }

  function Applied(p: Pending, f: Fold): Pending {
    if !Carries(f) then p
    else if f.stream.Response? then p.(content := f.caption)
    else p.(reasoning := f.caption)
  }

  function MergeSnapshot(current: Option<Snapshot>, update: Pending): Snapshot {
    Snapshot(
      if update.content.Some? then update.content.value else if current.Some? then current.value.content else "",
      if update.reasoning.Some? then update.reasoning.value else if current.Some? then current.value.reasoning else "")
  }

  class Accumulator {
    var content: Option<string>
    var reasoning: Option<string>

    function State(): Pending
      reads this
    {
      Pending(content, reasoning)
    }

    constructor ()
      ensures State() == NOTHING
    {
      content, reasoning := None, None;
    }

    method ApplyResponseSnapshot(caption: Option<string>)
      modifies this
      ensures State() == Applied(old(State()), Fold(Response, caption))
    {
      if caption.None? || caption.value == "" {
        return;
      }
      content := caption;
    }

    method ApplyReasoningSnapshot(caption: Option<string>)
      modifies this
      ensures State() == Applied(old(State()), Fold(Reasoning, caption))
    {
      if caption.None? || caption.value == "" {
        return;
      }
      reasoning := caption;
    }

    predicate IsEmpty()
      reads this
    {
      content.None? && reasoning.None?
    }

    method Flush() returns (result: Pending)
      modifies this
      ensures result == old(State()) && State() == NOTHING
    {
      result := Pending(content, reasoning);
      content, reasoning := None, None;
    }
  }

  /** The flush boundary of the store: an empty accumulator leaves the display alone. */
  method FlushStreaming(acc: Accumulator, shown: Option<Snapshot>) returns (shown': Option<Snapshot>)
    modifies acc
    ensures View(acc.State(), shown') == Flushed(View(old(acc.State()), shown))
  {
    if acc.IsEmpty() {
      return shown;
    }
    var update := acc.Flush();
    shown' := Some(MergeSnapshot(shown, update));
  }

  // ---- Runs ------------------------------------------------------------------------------

  datatype View = View(pending: Pending, shown: Option<Snapshot>)

  const BLANK := View(NOTHING, None)

  datatype Step = Apply(fold: Fold) | FlushFrame

  function Flushed(v: View): View {
    if v.pending == NOTHING then v else View(NOTHING, Some(MergeSnapshot(v.shown, v.pending)))
  }

  function Next(v: View, step: Step): View {
    match step
    case Apply(f) => v.(pending := Applied(v.pending, f))
    case FlushFrame => Flushed(v)
  }

  /** The view after a run of folds and flushes from a blank display. */
  function Exec(steps: seq<Step>): View {
    if steps == [] then BLANK else Next(Exec(steps[..|steps| - 1]), steps[|steps| - 1])
  }

  /** The folds of a run, in order. */
  function Folds(steps: seq<Step>): seq<Fold> {
    if steps == [] then []
    else
      var front := Folds(steps[..|steps| - 1]);
      if steps[|steps| - 1].Apply? then front + [steps[|steps| - 1].fold] else front
  }

  /** The last non-empty caption of one stream, or "" when there was none. */
  function LastCaption(folds: seq<Fold>, stream: Stream): string {
    if folds == [] then ""
    else
      var f := folds[|folds| - 1];
      if f.stream == stream && Carries(f) then f.caption.value else LastCaption(folds[..|folds| - 1], stream)
  }

  function Latest(folds: seq<Fold>): Snapshot {
    Snapshot(LastCaption(folds, Response), LastCaption(folds, Reasoning))
  }

  lemma LatestSnoc(folds: seq<Fold>, f: Fold)
    ensures Latest(folds + [f]) ==
            if !Carries(f) then Latest(folds)
            else if f.stream.Response? then Latest(folds).(content := f.caption.value)
            else Latest(folds).(reasoning := f.caption.value)
  {
    assert (folds + [f])[..|folds|] == folds;
  }

  /** What the user would see after one more flush. */
  function Visible(v: View): Snapshot {
    MergeSnapshot(v.shown, v.pending)
  }

  /** Nothing is shown or pending exactly while no caption arrived; empty captions are never kept. */
  ghost predicate Honest(v: View) {
    && (v.pending.content.Some? ==> v.pending.content.value != "")
    && (v.pending.reasoning.Some? ==> v.pending.reasoning.value != "")
    && (v.shown.Some? ==> v.shown.value != Snapshot("", ""))
  }

  /** In every interleaving of snapshots and flushes, the display overlaid with what is pending
      shows the last non-empty caption of each stream. */
  lemma {:induction false} DisplayRefinesLatest(steps: seq<Step>)
    ensures Visible(Exec(steps)) == Latest(Folds(steps))
    ensures Honest(Exec(steps))
  {
    if steps != [] {
      var front, step := steps[..|steps| - 1], steps[|steps| - 1];
      DisplayRefinesLatest(front);
      if step.Apply? {
        LatestSnoc(Folds(front), step.fold);
      }
    }
  }

  /** The display once the run is drained by a final flush. */
  function FinalDisplay(steps: seq<Step>): Option<Snapshot> {
    Flushed(Exec(steps)).shown
  }

  lemma FinalDisplayIsLatest(steps: seq<Step>)
    ensures FinalDisplay(steps) ==
            if Latest(Folds(steps)) == Snapshot("", "") then None else Some(Latest(Folds(steps)))
  {
    DisplayRefinesLatest(steps);
  }

  /** A flush in which one stream did not change leaves what that stream shows. */
  lemma FlushNeverBlanks(steps: seq<Step>)
    ensures var before, after := Exec(steps), Flushed(Exec(steps));
            && (before.pending.content.None? && before.shown.Some? ==>
                  after.shown.Some? && after.shown.value.content == before.shown.value.content)
            && (before.pending.reasoning.None? && before.shown.Some? ==>
                  after.shown.Some? && after.shown.value.reasoning == before.shown.value.reasoning)
  {
  }

  // ---- Conflation and replay -------------------------------------------------------------

  /** The folds that a conflating transport lets through. */
  function Thinned(folds: seq<Fold>, keep: seq<bool>): seq<Fold>
    requires |keep| == |folds|
  {
    if folds == [] then []
    else
      var n := |folds| - 1;
      if keep[n] then Thinned(folds[..n], keep[..n]) + [folds[n]] else Thinned(folds[..n], keep[..n])
  }

  /** The last non-empty caption of its stream. */
  ghost predicate IsLatest(folds: seq<Fold>, i: nat) {
    && i < |folds| && Carries(folds[i])
    && forall j :: i < j < |folds| && folds[j].stream == folds[i].stream ==> !Carries(folds[j])
  }

  lemma LastCaptionSnoc(folds: seq<Fold>, f: Fold, stream: Stream)
    ensures LastCaption(folds + [f], stream) ==
            if f.stream == stream && Carries(f) then f.caption.value else LastCaption(folds, stream)
  {
    assert (folds + [f])[..|folds|] == folds;
  }

  /** What is latest before one more fold that does not supersede it is latest after it. */
  lemma IsLatestSnoc(folds: seq<Fold>, i: nat)
    requires folds != [] && IsLatest(folds[..|folds| - 1], i)
    requires folds[|folds| - 1].stream == folds[i].stream ==> !Carries(folds[|folds| - 1])
    ensures IsLatest(folds, i)
  {
  }

  /** Dropping folds of one stream, but not its last non-empty one, keeps its last caption. */
  lemma {:induction false} ThinningKeepsLast(folds: seq<Fold>, keep: seq<bool>, stream: Stream)
    requires |keep| == |folds|
    requires forall i: nat :: IsLatest(folds, i) && folds[i].stream == stream ==> keep[i]
    ensures LastCaption(Thinned(folds, keep), stream) == LastCaption(folds, stream)
  {
    if folds != [] {
      var n := |folds| - 1;
      var front := Thinned(folds[..n], keep[..n]);
      LastCaptionSnoc(front, folds[n], stream);
      LastCaptionSnoc(folds[..n], folds[n], stream);
      assert folds[..n] + [folds[n]] == folds;
      if folds[n].stream == stream && Carries(folds[n]) {
        assert IsLatest(folds, n);
      } else {
        forall i: nat | IsLatest(folds[..n], i) && folds[..n][i].stream == stream ensures keep[..n][i] {
          IsLatestSnoc(folds, i);
        }
        ThinningKeepsLast(folds[..n], keep[..n], stream);
      }
    }
  }

  /** Conflation is unobservable: two runs, each with its own flush schedule, end on the same
      display when the second only drops captions that a later one of the same stream superseded. */
  lemma ConflationUnobservable(steps: seq<Step>, thinned: seq<Step>, keep: seq<bool>)
    requires |keep| == |Folds(steps)| && Folds(thinned) == Thinned(Folds(steps), keep)
    requires forall i: nat :: IsLatest(Folds(steps), i) ==> keep[i]
    ensures FinalDisplay(thinned) == FinalDisplay(steps)
  {
    ThinningKeepsLast(Folds(steps), keep, Response);
    ThinningKeepsLast(Folds(steps), keep, Reasoning);
    FinalDisplayIsLatest(steps);
    FinalDisplayIsLatest(thinned);
  }

  /** The folds with, after each one, the latest captions of the listed streams delivered again. */
  function Replayed(folds: seq<Fold>, again: seq<seq<Stream>>): seq<Fold>
    requires |again| == |folds|
  {
    if folds == [] then []
    else
      var n := |folds| - 1;
      Replayed(folds[..n], again[..n]) + [folds[n]] + Repeats(folds, again[n])
  }

  function Repeats(folds: seq<Fold>, streams: seq<Stream>): seq<Fold> {
    seq(|streams|, k requires 0 <= k < |streams| => Fold(streams[k], Some(LastCaption(folds, streams[k]))))
  }

  lemma {:induction false} RepeatsKeepLatest(base: seq<Fold>, folds: seq<Fold>, streams: seq<Stream>)
    requires Latest(base) == Latest(folds)
    ensures Latest(base + Repeats(folds, streams)) == Latest(folds)
  {
    if streams == [] {
      assert base + Repeats(folds, streams) == base;
    } else {
      var n := |streams| - 1;
      RepeatsKeepLatest(base, folds, streams[..n]);
      var again := Fold(streams[n], Some(LastCaption(folds, streams[n])));
      assert base + Repeats(folds, streams) == base + Repeats(folds, streams[..n]) + [again];
      LatestSnoc(base + Repeats(folds, streams[..n]), again);
    }
  }

  lemma {:induction false} ReplayKeepsLatest(folds: seq<Fold>, again: seq<seq<Stream>>)
    requires |again| == |folds|
    ensures Latest(Replayed(folds, again)) == Latest(folds)
  {
    if folds != [] {
      var n := |folds| - 1;
      var front := Replayed(folds[..n], again[..n]);
      ReplayKeepsLatest(folds[..n], again[..n]);
      LatestSnoc(front, folds[n]);
      LatestSnoc(folds[..n], folds[n]);
      assert folds[..n] + [folds[n]] == folds;
      RepeatsKeepLatest(front + [folds[n]], folds, again[n]);
    }
  }

  /** Replay is unobservable: delivering the latest captions again, any number of times and at any
      points, ends on the same display for every flush schedule. */
  lemma ReplayUnobservable(steps: seq<Step>, replayed: seq<Step>, again: seq<seq<Stream>>)
    requires |again| == |Folds(steps)| && Folds(replayed) == Replayed(Folds(steps), again)
    ensures FinalDisplay(replayed) == FinalDisplay(steps)
  {
    ReplayKeepsLatest(Folds(steps), again);
    FinalDisplayIsLatest(steps);
    FinalDisplayIsLatest(replayed);
  }
}
