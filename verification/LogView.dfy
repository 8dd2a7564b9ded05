/** The clear marker over a bounded ring window of src/LogViewer.tsx (`poll` and `clearView`). */
module LogView {
  import opened Common

  datatype LogEntry = LogEntry(raw: string, level: string, category: string, message: string)

  /** The highest index whose raw line is `raw`, or -1. */
  function LastAt(lines: seq<LogEntry>, raw: string): (i: int)
    ensures -1 <= i < |lines|
    ensures i >= 0 ==> lines[i].raw == raw
    ensures forall j :: i < j < |lines| ==> lines[j].raw != raw
  {
    if lines == [] then -1
    else if lines[|lines| - 1].raw == raw then |lines| - 1
    else LastAt(lines[..|lines| - 1], raw)
  }

  /** What the component holds: the shown entries and the remembered line. */
  datatype View = View(entries: seq<LogEntry>, marker: Option<string>)

  function Polled(v: View, lines: seq<LogEntry>): View {
    if v.marker.None? then v.(entries := lines)
    else
      var at := LastAt(lines, v.marker.value);
      View(lines[at + 1..], if at < 0 then None else v.marker)
  }

  function Cleared(v: View): View {
    View([], if v.entries == [] then None else Some(v.entries[|v.entries| - 1].raw))
  }

  class LogViewer {
    var entries: seq<LogEntry>
    var clearMarker: Option<string>

    function State(): View
      reads this
    {
      View(entries, clearMarker)
    }

    constructor ()
      ensures State() == View([], None)
    {
      entries, clearMarker := [], None;
    }

    /** `response` is `None` when the backend is unavailable: the view is kept. */
    method Poll(response: Option<seq<LogEntry>>)
      modifies this
      ensures State() == if response.None? then old(State()) else Polled(old(State()), response.value)
    {
      if response.None? {
        return;
      }
      var lines := response.value;
      if clearMarker.Some? {
        var markerAt := -1;
        var i := |lines| - 1;
        while i >= 0
          invariant -1 <= i < |lines|
          invariant forall j :: i < j < |lines| ==> lines[j].raw != clearMarker.value
        {
          if lines[i].raw == clearMarker.value {
            markerAt := i;
            break;
          }
          i := i - 1;
        }
        assert markerAt == LastAt(lines, clearMarker.value);
        lines := if markerAt >= 0 then lines[markerAt + 1..] else lines;
        if markerAt < 0 {
          clearMarker := None;
        }
      }
      entries := lines;
    }

    method ClearView()
      modifies this
      ensures State() == Cleared(old(State()))
    {
      clearMarker := if |entries| > 0 then Some(entries[|entries| - 1].raw) else None;
      entries := [];
    }
  }

  // ---- Runs over a growing log -----------------------------------------------------------

  /** A poll that saw the ring holding lines `lo..hi` of the log, a failed poll, or "Clear view". */
  datatype Step = Poll(lo: nat, hi: nat) | PollFailed | Clear

  /** `lo`, `hi` is the last window seen and `cut` the number of log lines cleared away. */
  datatype Watch = Watch(view: View, lo: nat, hi: nat, cut: nat)

  const OPENED := Watch(View([], None), 0, 0, 0)

  /** Windows move forward: responses arrive in order and the ring only drops old lines. */
  predicate Allowed(w: Watch, log: seq<LogEntry>, step: Step) {
    step.Poll? ==> w.lo <= step.lo <= step.hi <= |log| && w.hi <= step.hi
  }

  function Next(w: Watch, log: seq<LogEntry>, step: Step): Watch
    requires Allowed(w, log, step)
  {
    match step
    case Poll(lo, hi) => Watch(Polled(w.view, log[lo..hi]), lo, hi, w.cut)
    case PollFailed => w
    case Clear => w.(view := Cleared(w.view), cut := w.hi)
  }

  ghost predicate DistinctLines(log: seq<LogEntry>) {
    forall i, j :: 0 <= i < j < |log| ==> log[i].raw != log[j].raw
  }

  function Max(a: nat, b: nat): nat { if a < b then b else a }

  /** The view is what the property promises: the window's lines past the clear point. */
  ghost predicate ShowsPastCut(w: Watch, log: seq<LogEntry>) {
    && w.lo <= w.hi <= |log| && w.cut <= w.hi
    && w.view.entries == log[Max(w.lo, w.cut)..w.hi]
  }

  /** The marker is the last cleared line, or no cleared line can be seen any more. */
  ghost predicate MarkerInv(w: Watch, log: seq<LogEntry>) {
    && ShowsPastCut(w, log)
    && (w.view.marker.Some? ==> 0 < w.cut && w.view.marker.value == log[w.cut - 1].raw)
    && (w.view.marker.None? ==> w.cut <= w.lo)
  }

  /** The text of the last cleared line stands again among the lines a poll should show. */
  predicate RepeatsMarker(w: Watch, log: seq<LogEntry>, lo: nat, hi: nat)
    requires w.view.marker.Some? && hi <= |log|
  {
    exists k :: Max(lo, w.cut) <= k < hi && log[k].raw == w.view.marker.value
  }

  /** A poll misreads its marker. */
  predicate Misreads(w: Watch, log: seq<LogEntry>, step: Step) {
    step.Poll? && step.hi <= |log| && w.view.marker.Some? && RepeatsMarker(w, log, step.lo, step.hi)
  }

  lemma LastAtOffset(log: seq<LogEntry>, lo: nat, hi: nat, raw: string, k: nat)
    requires lo <= k < hi <= |log| && log[k].raw == raw
    requires forall j :: k < j < hi ==> log[j].raw != raw
    ensures LastAt(log[lo..hi], raw) == k - lo
  {
    var window := log[lo..hi];
    assert window[k - lo] == log[k];
    assert forall j :: k - lo < j < |window| ==> window[j] == log[lo + j];
  }

  lemma LastAtNone(log: seq<LogEntry>, lo: nat, hi: nat, raw: string)
    requires lo <= hi <= |log| && forall j :: lo <= j < hi ==> log[j].raw != raw
    ensures LastAt(log[lo..hi], raw) == -1
  {
    assert forall j :: 0 <= j < hi - lo ==> log[lo..hi][j] == log[lo + j];
  }

  lemma LastAtBeyond(log: seq<LogEntry>, lo: nat, hi: nat, raw: string, k: nat)
    requires lo <= k < hi <= |log| && log[k].raw == raw
    ensures LastAt(log[lo..hi], raw) >= k - lo
  {
    assert log[lo..hi][k - lo] == log[k];
  }

  lemma RepeatShowsLess(w: Watch, log: seq<LogEntry>, lo: nat, hi: nat)
    requires lo <= hi <= |log| && w.view.marker.Some? && RepeatsMarker(w, log, lo, hi)
    ensures |Polled(w.view, log[lo..hi]).entries| < hi - Max(lo, w.cut)
  {
    var k :| Max(lo, w.cut) <= k < hi && log[k].raw == w.view.marker.value;
    LastAtBeyond(log, lo, hi, w.view.marker.value, k);
  }

  /** After a clear a poll shows exactly the window's lines past the clear point if and only if the text of the
      last cleared line does not stand among them again. */
  lemma PollShowsIff(w: Watch, log: seq<LogEntry>, lo: nat, hi: nat)
    requires MarkerInv(w, log) && Allowed(w, log, Poll(lo, hi)) && w.view.marker.Some?
    ensures Polled(w.view, log[lo..hi]).entries == log[Max(lo, w.cut)..hi] <==> !RepeatsMarker(w, log, lo, hi)
    ensures !RepeatsMarker(w, log, lo, hi) ==> (Polled(w.view, log[lo..hi]).marker.Some? <==> lo < w.cut)
  {
    var window, raw := log[lo..hi], w.view.marker.value;
    if RepeatsMarker(w, log, lo, hi) {
      RepeatShowsLess(w, log, lo, hi);
    } else if lo < w.cut {
      LastAtOffset(log, lo, hi, raw, w.cut - 1);
      assert window[w.cut - lo..] == log[w.cut..hi];
    } else {
      LastAtNone(log, lo, hi, raw);
    }
  }

  lemma PollKeepsIff(w: Watch, log: seq<LogEntry>, lo: nat, hi: nat)
    requires MarkerInv(w, log) && Allowed(w, log, Poll(lo, hi))
    ensures MarkerInv(Next(w, log, Poll(lo, hi)), log) <==> !Misreads(w, log, Poll(lo, hi))
  {
    if w.view.marker.Some? {
      PollShowsIff(w, log, lo, hi);
    }
  }

  /** "Clear view" of an empty view over a window that still holds cleared lines. */
  predicate ForgetsMarker(w: Watch, step: Step) {
    step.Clear? && w.view.entries == [] && w.hi != w.lo
  }

  /** Clearing keeps its promise exactly when the view is not empty or nothing cleared is in the window. */
  lemma ClearKeepsIff(w: Watch, log: seq<LogEntry>)
    requires MarkerInv(w, log)
    ensures MarkerInv(Next(w, log, Clear), log) <==> w.view.entries != [] || w.hi == w.lo
  {
    if w.view.entries != [] {
      assert w.view.entries[|w.view.entries| - 1] == log[w.hi - 1];
    }
  }

  /** Every step keeps the cleared lines away, except exactly those two. */
  lemma NextKeepsIff(w: Watch, log: seq<LogEntry>, step: Step)
    requires MarkerInv(w, log) && Allowed(w, log, step)
    ensures MarkerInv(Next(w, log, step), log) <==> !Misreads(w, log, step) && !ForgetsMarker(w, step)
  {
    match step
    case Poll(lo, hi) => PollKeepsIff(w, log, lo, hi);
    case PollFailed =>
    case Clear => ClearKeepsIff(w, log);
  }

  // ---- Whole runs ------------------------------------------------------------------------

  /** The watch after the first `n` steps; a step that is not allowed is skipped. */
  function Exec(log: seq<LogEntry>, steps: seq<Step>): Watch {
    if steps == [] then OPENED
    else
      var w := Exec(log, steps[..|steps| - 1]);
      if Allowed(w, log, steps[|steps| - 1]) then Next(w, log, steps[|steps| - 1]) else w
  }

  ghost predicate NothingComesBack(log: seq<LogEntry>, steps: seq<Step>) {
    forall k :: 0 <= k < |steps| ==> !Misreads(Exec(log, steps[..k]), log, steps[k]) && !ForgetsMarker(Exec(log, steps[..k]), steps[k])
  }

  lemma NothingComesBackFront(log: seq<LogEntry>, steps: seq<Step>)
    requires steps != [] && NothingComesBack(log, steps)
    ensures NothingComesBack(log, steps[..|steps| - 1])
    ensures var w, step := Exec(log, steps[..|steps| - 1]), steps[|steps| - 1]; !Misreads(w, log, step) && !ForgetsMarker(w, step)
  {
    var front := steps[..|steps| - 1];
    forall k | 0 <= k < |front|
      ensures !Misreads(Exec(log, front[..k]), log, front[k]) && !ForgetsMarker(Exec(log, front[..k]), front[k])
    {
      assert front[..k] == steps[..k];
    }
  }

  /** Cleared lines stay cleared: over every run of in-order polls of a ring window in which no marker is misread
      and none is forgotten, the view is exactly the window's lines past the last clear point, also after
      the marker rotated out. */
  lemma {:induction false} ClearedStaysCleared(log: seq<LogEntry>, steps: seq<Step>)
    requires NothingComesBack(log, steps)
    ensures MarkerInv(Exec(log, steps), log)
  {
    if steps != [] {
      var front := steps[..|steps| - 1];
      NothingComesBackFront(log, steps);
      ClearedStaysCleared(log, front);
      if Allowed(Exec(log, front), log, steps[|steps| - 1]) {
        NextKeepsIff(Exec(log, front), log, steps[|steps| - 1]);
      }
    }
  }

  /** On a log without repeated lines no marker is ever misread ... */
  lemma DistinctNeverMisreads(w: Watch, log: seq<LogEntry>, step: Step)
    requires DistinctLines(log) && MarkerInv(w, log)
    ensures !Misreads(w, log, step)
  {
  }

  ghost predicate NothingForgotten(log: seq<LogEntry>, steps: seq<Step>) {
    forall k :: 0 <= k < |steps| ==> !ForgetsMarker(Exec(log, steps[..k]), steps[k])
  }

  /** ... so there only the clears matter. */
  lemma {:induction false} DistinctStaysCleared(log: seq<LogEntry>, steps: seq<Step>)
    requires DistinctLines(log) && NothingForgotten(log, steps)
    ensures MarkerInv(Exec(log, steps), log)
  {
    if steps != [] {
      var n := |steps| - 1;
      var front := steps[..n];
      forall k | 0 <= k < n ensures !ForgetsMarker(Exec(log, front[..k]), front[k]) {
        assert front[..k] == steps[..k];
      }
      DistinctStaysCleared(log, front);
      DistinctNeverMisreads(Exec(log, front), log, steps[n]);
      if Allowed(Exec(log, front), log, steps[n]) {
        NextKeepsIff(Exec(log, front), log, steps[n]);
      }
    }
  }

  /** After clearing and polling again, exactly the lines past the clear point show if and only if the cleared
      view was not empty or the ring has moved past everything that was cleared, and the new marker is not
      misread. */
  lemma ClearThenPollIff(w: Watch, log: seq<LogEntry>, lo: nat, hi: nat)
    requires MarkerInv(w, log) && Allowed(w, log, Poll(lo, hi))
    ensures ShowsPastCut(Next(Next(w, log, Clear), log, Poll(lo, hi)), log) <==>
            (w.view.entries != [] || w.hi <= lo) && !Misreads(Next(w, log, Clear), log, Poll(lo, hi))
  {
    var c := Next(w, log, Clear);
    if w.view.entries != [] {
      ClearKeepsIff(w, log);
      PollShowsIff(c, log, lo, hi);
    } else {
      assert Next(c, log, Poll(lo, hi)).view.entries == log[lo..hi];
      assert |log[lo..hi]| == hi - lo && |log[Max(lo, w.hi)..hi]| == hi - Max(lo, w.hi);
    }
  }
}
