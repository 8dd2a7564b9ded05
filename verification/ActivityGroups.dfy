/** Phase grouping of consecutive activity events (src/ActivityStream.tsx). */
module ActivityGroups {
  import opened Common
  import opened Text

  datatype PhaseId = Plan | Execution | Repair | Verification | Run

  /** An activity event; `caption` is `None` unless it is a string. */
  datatype ActivityEvent = ActivityEvent(wire: string, caption: Option<string>)

  datatype PhaseGroup = PhaseGroup(id: PhaseId, title: string, items: seq<ActivityEvent>, failed: bool, done: bool)

  function Label(id: PhaseId): string {
    match id
    case Plan => "Plan"
    case Execution => "Execution"
    case Repair => "Repair"
    case Verification => "Verification"
    case Run => "Run"
  }

  function PhaseFor(item: ActivityEvent): PhaseId {
    var caption := if item.caption.Some? then Lower(item.caption.value) else "";
    if item.wire == "verify" || item.wire == "verification" || Includes(caption, "verif") || Includes(caption, "test")
      || Includes(caption, "build passed") || Includes(caption, "diff") then Verification
    else if item.wire == "repair" || Includes(caption, "repair") || Includes(caption, "fix") || Includes(caption, "retry")
      || Includes(caption, "rollback") then Repair
    else if item.wire == "tool_start" || item.wire == "tool_end" || item.wire == "tool" then Execution
    else if item.wire in {"context", "session", "plan", "escalation", "status", "thinking_start", "thinking_end"} then Plan
    else Run
  }

  predicate MarksFailed(item: ActivityEvent) {
    Includes(item.wire, "fail") || item.wire == "error"
  }

  predicate MarksDone(item: ActivityEvent) {
    Includes(item.wire, "end") || Includes(item.wire, "done") || Includes(item.wire, "ok")
  }

  /** How single events are read: the laws below hold for any reading. */
  datatype Reading = Reading(phase: ActivityEvent -> PhaseId, failed: ActivityEvent -> bool, done: ActivityEvent -> bool)

  const ACTIVITY: Reading := Reading(PhaseFor, MarksFailed, MarksDone)

  /** One section: a non-empty run of events of its phase, with its flags. */
  ghost predicate IsSection(r: Reading, g: PhaseGroup) {
    && g.items != [] && g.title == Label(g.id)
    && (forall k :: 0 <= k < |g.items| ==> r.phase(g.items[k]) == g.id)
    && (g.failed <==> exists k :: 0 <= k < |g.items| && r.failed(g.items[k]))
    && (g.done <==> exists k :: 0 <= k < |g.items| && r.done(g.items[k]))
  }

  function Flatten(groups: seq<PhaseGroup>): seq<ActivityEvent> {
    if groups == [] then [] else Flatten(groups[..|groups| - 1]) + groups[|groups| - 1].items
  }

  /** The grouping of `events`: sections that concatenate to them, adjacent ones of different phases. */
  ghost predicate IsGrouping(r: Reading, groups: seq<PhaseGroup>, events: seq<ActivityEvent>) {
    && Flatten(groups) == events
    && (forall k :: 0 <= k < |groups| ==> IsSection(r, groups[k]))
    && forall k :: 0 < k < |groups| ==> groups[k - 1].id != groups[k].id
  }

  function WithItem(r: Reading, g: PhaseGroup, item: ActivityEvent): PhaseGroup {
    PhaseGroup(g.id, g.title, g.items + [item], g.failed || r.failed(item), g.done || r.done(item))
  }

  lemma WithItemIsSection(r: Reading, g: PhaseGroup, item: ActivityEvent)
    requires r.phase(item) == g.id
    requires IsSection(r, g) || g == Opened(g.id)
    ensures IsSection(r, WithItem(r, g, item))
  {
    var items := WithItem(r, g, item).items;
    var n := |g.items|;
    assert items[n] == item;
    assert forall k :: 0 <= k < n ==> items[k] == g.items[k];
    if g.failed {
      var k :| 0 <= k < n && r.failed(g.items[k]);
      assert r.failed(items[k]);
    }
    if g.done {
      var k :| 0 <= k < n && r.done(g.items[k]);
      assert r.done(items[k]);
    }
  }

  function Opened(id: PhaseId): PhaseGroup {
    PhaseGroup(id, Label(id), [], false, false)
  }

  /** The groups with one more event: it joins the last one or opens its own. */
  function Extended(r: Reading, groups: seq<PhaseGroup>, item: ActivityEvent): seq<PhaseGroup> {
    var n := |groups| - 1;
    if groups != [] && groups[n].id == r.phase(item) then groups[..n] + [WithItem(r, groups[n], item)]
    else groups + [WithItem(r, Opened(r.phase(item)), item)]
  }

  lemma AppendSection(r: Reading, groups: seq<PhaseGroup>, events: seq<ActivityEvent>, g: PhaseGroup)
    requires IsGrouping(r, groups, events) && IsSection(r, g)
    requires groups != [] ==> groups[|groups| - 1].id != g.id
    ensures IsGrouping(r, groups + [g], events + g.items)
  {
    assert (groups + [g])[..|groups|] == groups;
  }

  lemma DropLastSection(r: Reading, groups: seq<PhaseGroup>, events: seq<ActivityEvent>)
    requires groups != [] && IsGrouping(r, groups, events)
    ensures IsGrouping(r, groups[..|groups| - 1], Flatten(groups[..|groups| - 1]))
    ensures events == Flatten(groups[..|groups| - 1]) + groups[|groups| - 1].items
    ensures IsSection(r, groups[|groups| - 1])
    ensures |groups| > 1 ==> groups[..|groups| - 1][|groups| - 2].id != groups[|groups| - 1].id
  {
  }

  lemma JoinLastSection(r: Reading, groups: seq<PhaseGroup>, events: seq<ActivityEvent>, item: ActivityEvent)
    requires groups != [] && IsGrouping(r, groups, events)
    requires groups[|groups| - 1].id == r.phase(item)
    ensures IsGrouping(r, groups[..|groups| - 1] + [WithItem(r, groups[|groups| - 1], item)], events + [item])
  {
    var last := groups[|groups| - 1];
    var front := groups[..|groups| - 1];
    var g := WithItem(r, last, item);
    DropLastSection(r, groups, events);
    WithItemIsSection(r, last, item);
    AppendSection(r, front, Flatten(front), g);
    assert g.items == last.items + [item];
    assert events + [item] == Flatten(front) + g.items;
  }

  lemma OpenSection(r: Reading, groups: seq<PhaseGroup>, events: seq<ActivityEvent>, item: ActivityEvent)
    requires IsGrouping(r, groups, events)
    requires groups != [] ==> groups[|groups| - 1].id != r.phase(item)
    ensures IsGrouping(r, groups + [WithItem(r, Opened(r.phase(item)), item)], events + [item])
  {
    var g := WithItem(r, Opened(r.phase(item)), item);
    WithItemIsSection(r, Opened(r.phase(item)), item);
    assert g.items == [item];
    AppendSection(r, groups, events, g);
  }

  lemma ExtendedIsGrouping(r: Reading, groups: seq<PhaseGroup>, events: seq<ActivityEvent>, item: ActivityEvent)
    requires IsGrouping(r, groups, events)
    ensures IsGrouping(r, Extended(r, groups, item), events + [item])
  {
    if groups != [] && groups[|groups| - 1].id == r.phase(item) {
      JoinLastSection(r, groups, events, item);
    } else {
      OpenSection(r, groups, events, item);
    }
  }

  method GroupByPhase(events: seq<ActivityEvent>) returns (groups: seq<PhaseGroup>)
    ensures IsGrouping(ACTIVITY, groups, events)
  {
    groups := [];
    for i := 0 to |events|
      invariant IsGrouping(ACTIVITY, groups, events[..i])
    {
      var item := events[i];
      var id := PhaseFor(item);
      ExtendedIsGrouping(ACTIVITY, groups, events[..i], item);
      ghost var extended := Extended(ACTIVITY, groups, item);
      if groups == [] || groups[|groups| - 1].id != id {
        groups := groups + [Opened(id)];
      }
      var last := |groups| - 1;
      groups := groups[last := WithItem(ACTIVITY, groups[last], item)];
      assert groups == extended;
      assert events[..i + 1] == events[..i] + [item];
    }
    assert events[..|events|] == events;
  }

  // ---- Uniqueness ------------------------------------------------------------------------

  /** The last section is maximal: the event just before it has another phase. */
  lemma LastSectionIsMaximal(r: Reading, a: seq<PhaseGroup>, events: seq<ActivityEvent>)
    requires a != [] && IsGrouping(r, a, events)
    requires |a[|a| - 1].items| < |events|
    ensures r.phase(events[|events| - |a[|a| - 1].items| - 1]) != a[|a| - 1].id
  {
    var n := |a| - 1;
    var front := a[..n];
    assert events == Flatten(front) + a[n].items;
    assert front != [];
    var prev := front[n - 1];
    assert prev == a[n - 1];
    assert Flatten(front) == Flatten(front[..n - 1]) + prev.items;
    assert events[|events| - |a[n].items| - 1] == prev.items[|prev.items| - 1];
  }

  lemma LastSectionAtMost(r: Reading, a: seq<PhaseGroup>, b: seq<PhaseGroup>, events: seq<ActivityEvent>)
    requires a != [] && b != [] && IsGrouping(r, a, events) && IsGrouping(r, b, events)
    ensures |b[|b| - 1].items| <= |a[|a| - 1].items|
  {
    var x, y := a[|a| - 1], b[|b| - 1];
    var n := |events|;
    assert events[n - 1] == x.items[|x.items| - 1] && events[n - 1] == y.items[|y.items| - 1];
    forall k | n - |y.items| <= k < n ensures r.phase(events[k]) == y.id {
      assert events[k] == y.items[k - (n - |y.items|)];
    }
    if |x.items| < n {
      LastSectionIsMaximal(r, a, events);
    }
  }

  /** There is only one grouping of an event list. */
  lemma {:induction false} GroupingIsUnique(r: Reading, a: seq<PhaseGroup>, b: seq<PhaseGroup>, events: seq<ActivityEvent>)
    requires IsGrouping(r, a, events) && IsGrouping(r, b, events)
    ensures a == b
  {
    if a == [] || b == [] {
      EmptyGrouping(r, a, events);
      EmptyGrouping(r, b, events);
    } else {
      var m, n := |a| - 1, |b| - 1;
      SameLastSection(r, a, b, events);
      DropLastSection(r, a, events);
      DropLastSection(r, b, events);
      GroupingIsUnique(r, a[..m], b[..n], Flatten(a[..m]));
      assert a == a[..m] + [a[m]] && b == b[..n] + [b[n]];
    }
  }

  lemma SameLastSection(r: Reading, a: seq<PhaseGroup>, b: seq<PhaseGroup>, events: seq<ActivityEvent>)
    requires a != [] && b != [] && IsGrouping(r, a, events) && IsGrouping(r, b, events)
    ensures a[|a| - 1] == b[|b| - 1]
    ensures Flatten(a[..|a| - 1]) == Flatten(b[..|b| - 1])
  {
    var m, n := |a| - 1, |b| - 1;
    LastSectionAtMost(r, a, b, events);
    LastSectionAtMost(r, b, a, events);
    var cut := |events| - |a[m].items|;
    assert events[cut..] == a[m].items && events[cut..] == b[n].items;
    assert events[..cut] == Flatten(a[..m]) && events[..cut] == Flatten(b[..n]);
    SameSection(r, a[m], b[n]);
  }

  lemma SameSection(r: Reading, g: PhaseGroup, h: PhaseGroup)
    requires IsSection(r, g) && IsSection(r, h) && g.items == h.items
    ensures g == h
  {
    assert r.phase(g.items[0]) == g.id && r.phase(h.items[0]) == h.id;
  }

  lemma EmptyGrouping(r: Reading, groups: seq<PhaseGroup>, events: seq<ActivityEvent>)
    requires IsGrouping(r, groups, events)
    ensures groups == [] <==> events == []
  {
    if groups != [] {
      assert IsSection(r, groups[|groups| - 1]);
    }
  }

  // ---- What the sections mean ------------------------------------------------------------

  /** The caption holds one of these words, with whatever capitals. */
  ghost predicate Mentions(item: ActivityEvent, words: seq<string>) {
    item.caption.Some? && exists k :: 0 <= k < |words| && HasWord(item.caption.value, words[k])
  }

  ghost predicate IsEvidence(item: ActivityEvent) {
    item.wire in {"verify", "verification"} || Mentions(item, ["verif", "test", "build passed", "diff"])
  }

  ghost predicate IsFix(item: ActivityEvent) {
    item.wire == "repair" || Mentions(item, ["repair", "fix", "retry", "rollback"])
  }

  predicate IsToolUse(item: ActivityEvent) {
    item.wire in {"tool", "tool_start", "tool_end"}
  }

  predicate IsPlanning(item: ActivityEvent) {
    item.wire in {"context", "session", "plan", "escalation", "status", "thinking_start", "thinking_end"}
  }

  /** Evidence goes before repair, repair before tool use, tool use before planning. */
  ghost predicate BelongsTo(item: ActivityEvent, title: string) {
    title == if IsEvidence(item) then "Verification" else if IsFix(item) then "Repair"
             else if IsToolUse(item) then "Execution" else if IsPlanning(item) then "Plan" else "Run"
  }

  function CaptionOf(item: ActivityEvent): string {
    if item.caption.Some? then Lower(item.caption.value) else ""
  }

  lemma MentionsFour(item: ActivityEvent, a: string, b: string, c: string, d: string)
    requires a != "" && b != "" && c != "" && d != ""
    requires HasNoCapitals(a) && HasNoCapitals(b) && HasNoCapitals(c) && HasNoCapitals(d)
    ensures Mentions(item, [a, b, c, d]) <==>
            Includes(CaptionOf(item), a) || Includes(CaptionOf(item), b) || Includes(CaptionOf(item), c) || Includes(CaptionOf(item), d)
  {
    if item.caption.Some? {
      var s, words := item.caption.value, [a, b, c, d];
      IncludesLowerIff(s, a);
      IncludesLowerIff(s, b);
      IncludesLowerIff(s, c);
      IncludesLowerIff(s, d);
      assert words[0] == a && words[1] == b && words[2] == c && words[3] == d;
    }
  }

  lemma EvidenceIff(item: ActivityEvent)
    ensures PhaseFor(item).Verification? <==> IsEvidence(item)
  {
    MentionsFour(item, "verif", "test", "build passed", "diff");
  }

  lemma FixIff(item: ActivityEvent)
    ensures PhaseFor(item).Repair? <==> !IsEvidence(item) && IsFix(item)
  {
    EvidenceIff(item);
    MentionsFour(item, "repair", "fix", "retry", "rollback");
  }

  lemma PhaseBelongs(item: ActivityEvent)
    ensures BelongsTo(item, Label(PhaseFor(item)))
  {
    EvidenceIff(item);
    FixIff(item);
  }

  ghost predicate IsFailure(item: ActivityEvent) {
    item.wire == "error" || HasPart(item.wire, "fail")
  }

  ghost predicate IsFinish(item: ActivityEvent) {
    HasPart(item.wire, "end") || HasPart(item.wire, "done") || HasPart(item.wire, "ok")
  }

  lemma MarksIff(item: ActivityEvent)
    ensures (MarksFailed(item) <==> IsFailure(item)) && (MarksDone(item) <==> IsFinish(item))
  {
    IncludesIff(item.wire, "fail");
    IncludesIff(item.wire, "end");
    IncludesIff(item.wire, "done");
    IncludesIff(item.wire, "ok");
  }

  /** In the grouping of any event list every event stands under the title it belongs to, a section is failed exactly
      when one of its events is an error or names a failure, and done exactly when one names an end. */
  lemma SectionMeaning(groups: seq<PhaseGroup>, events: seq<ActivityEvent>, k: nat)
    requires IsGrouping(ACTIVITY, groups, events) && k < |groups|
    ensures var g := groups[k];
            && (forall j :: 0 <= j < |g.items| ==> BelongsTo(g.items[j], g.title))
            && (g.failed <==> exists j :: 0 <= j < |g.items| && IsFailure(g.items[j]))
            && (g.done <==> exists j :: 0 <= j < |g.items| && IsFinish(g.items[j]))
  {
    var g := groups[k];
    assert IsSection(ACTIVITY, g);
    forall j | 0 <= j < |g.items| ensures BelongsTo(g.items[j], g.title) {
      PhaseBelongs(g.items[j]);
    }
    forall j | 0 <= j < |g.items|
      ensures (ACTIVITY.failed(g.items[j]) <==> IsFailure(g.items[j])) && (ACTIVITY.done(g.items[j]) <==> IsFinish(g.items[j]))
    {
      MarksIff(g.items[j]);
    }
  }
}
