/** What the sidebar shows between and after replies: acknowledged creations stay, acknowledged deletions
    stay away, and startup never shows a list that was overtaken. */
module SessionDisplay {
  import opened Common
  import opened ModeSessions
  import opened SessionClient
  import opened SessionProtocol
  import opened SessionSafety

  // ---- Created sessions stay -------------------------------------------------------------

  /** The `i`-th acknowledged mutation created a session of this space that nobody deleted. */
  ghost predicate IsAlive(w: World, i: nat, mode: Mode) {
    && i < |w.acked| && w.acked[i] < |w.log| && w.log[w.acked[i]].Created?
    && SessionMode(w.log[w.acked[i]].s) == mode && NeverDeleted(w.log, w.log[w.acked[i]].s.id)
  }

  ghost predicate IsShown(w: World, i: nat) {
    w.base.Some? && IsAlive(w, i, w.base.value) ==> HasId(w.client.sessions, w.log[w.acked[i]].s.id)
  }

  /** Every acknowledged live session of the space whose list was applied last is displayed. */
  ghost predicate AllShown(w: World) {
    forall i: nat :: IsShown(w, i)
  }

  /** Rows, log, acknowledgements and base are all that matters. */
  lemma SameShown(w: World, w': World)
    requires AllShown(w) && w'.client.sessions == w.client.sessions && w'.acked == w.acked && w.log <= w'.log
    requires w'.base == w.base && forall i :: 0 <= i < |w.acked| ==> w.acked[i] < |w.log|
    ensures AllShown(w')
  {
    forall i: nat ensures IsShown(w', i) {
      assert IsShown(w, i);
      if w'.base.Some? && IsAlive(w', i, w'.base.value) {
        assert forall j | 0 <= j < |w.log| :: w'.log[j] == w.log[j];
        assert IsAlive(w, i, w.base.value);
      }
    }
  }

  lemma HeldIsListed(w: World, reading: Reading, mode: Mode, i: nat)
    requires Holds(w, reading, mode) && AckedBefore(w, reading.version) && IsAlive(w, i, mode)
    ensures HasId(reading.rows, w.log[w.acked[i]].s.id)
  {
    var prefix := w.log[..reading.version];
    CreatedIsListed(prefix, w.acked[i]);
    SameRowsSameIds(reading.rows, Rows(prefix, mode), w.log[w.acked[i]].s.id);
  }

  lemma AppliedShows(w: World, r: nat, c: Client)
    requires Inv(w) && IsOpenRead(w, r) && w.lists[r].reply.Some? && IsActive(w, w.lists[r])
    requires c.sessions == w.lists[r].reply.value.rows
    ensures AllShown(ListApplied(Closed(w, r), w.lists[r], c))
  {
    var x := w.lists[r];
    var w' := ListApplied(Closed(w, r), x, c);
    assert ReadOk(w, r);
    forall i: nat ensures IsShown(w', i) {
      if IsAlive(w', i, x.mode) {
        assert IsAlive(w, i, x.mode);
        HeldIsListed(w, x.reply.value, x.mode, i);
      }
    }
  }

  lemma DeliveredShows(w: World, r: nat)
    requires Inv(w) && AllShown(w)
    ensures AllShown(ReadDelivered(w, r))
  {
    if IsOpenRead(w, r) && w.lists[r].reply.Some? {
      var x := w.lists[r];
      if x.startup && OnInitList(w.client, x.ticket, x.mode, x.reply.value.rows).Apply? {
        AppliedShows(w, r, InitShown(w.client, x.mode, x.reply.value.rows));
      } else if !x.startup && Lands(w.client, x.ticket, x.mode) {
        AppliedShows(w, r, Refreshed(w.client, x.ticket, x.mode, x.reply.value.rows));
      } else {
        SameShown(w, ReadDelivered(w, r));
      }
    }
  }

  /** What each acknowledgement does to the displayed ids. */
  lemma MutationAppliedHas(c: Client, m: Mutation, id: string)
    ensures HasId(MutationApplied(c, m).sessions, id) <==>
            match m
            case Created(s) => id == s.id || HasId(c.sessions, id)
            case Deleted(other) => id != other && HasId(c.sessions, id)
            case Renamed(_, _) => HasId(c.sessions, id)
  {
    match m
    case Created(s) =>
      WithoutIdHas(c.sessions, s.id, id);
      var rest := WithoutId(c.sessions, s.id);
      assert forall x :: x in [s] + rest <==> x == s || x in rest;
      if id == s.id { assert s in [s] + rest; }
    case Deleted(other) => WithoutIdHas(c.sessions, other, id);
    case Renamed(other, title) => RetitledHas(c.sessions, other, title, id);
  }

  lemma MutationShows(w: World, k: nat)
    requires Inv(w) && AllShown(w) && IsAckable(w, k)
    ensures AllShown(Receipt(w, k).(client := MutationApplied(w.client, w.log[w.writes[k].committed.value])))
  {
    var m := w.log[w.writes[k].committed.value];
    var w' := Receipt(w, k).(client := MutationApplied(w.client, m));
    forall i: nat ensures IsShown(w', i) {
      if w'.base.Some? && IsAlive(w', i, w'.base.value) {
        var id := w'.log[w'.acked[i]].s.id;
        MutationAppliedHas(w.client, m, id);
        if i < |w.acked| {
          assert IsShown(w, i) && IsAlive(w, i, w.base.value);
        }
      }
    }
  }

  /** When startup's create is applied, the list it found empty accounts for every earlier session. */
  lemma StartupCreateShows(w: World, k: nat, c: Client)
    requires Inv(w) && IsAckable(w, k) && w.writes[k].origin.ByStartup?
    requires w.writes[k].origin.ticket == w.client.generation
    requires w.log[w.writes[k].committed.value].Created? && c.sessions == [w.log[w.writes[k].committed.value].s]
    ensures AllShown(Receipt(w, k).(client := c, base := Some(w.writes[k].origin.mode)))
  {
    var o, s := w.writes[k].origin, w.log[w.writes[k].committed.value].s;
    var w' := Receipt(w, k).(client := c, base := Some(o.mode));
    assert WriteOk(w, k);
    forall i: nat ensures IsShown(w', i) {
      if IsAlive(w', i, o.mode) {
        if i < |w.acked| {
          assert IsAlive(w, i, o.mode);
          HeldIsListed(w, Reading(o.version, []), o.mode, i);
          assert false;
        } else {
          assert s in c.sessions;
        }
      }
    }
  }

  lemma AcknowledgedShows(w: World, k: nat)
    requires Inv(w) && AllShown(w)
    ensures AllShown(Acknowledged(w, k))
  {
    if IsAckable(w, k) {
      var m, o := w.log[w.writes[k].committed.value], w.writes[k].origin;
      if !(o.ByStartup? && m.Created?) {
        MutationShows(w, k);
      } else if OnInitCreate(w.client, o.ticket, o.mode).Apply? {
        StartupCreateShows(w, k, InitShown(Invalidated(w.client), o.mode, [m.s]));
      }
    }
  }

  lemma NextShows(w: World, step: Step)
    requires Inv(w) && AllShown(w)
    ensures AllShown(Next(w, step))
  {
    match step
    case DeliverRead(r) => DeliveredShows(w, r);
    case Acknowledge(k) => AcknowledgedShows(w, k);
    case Commit(k, m) => SameShown(w, Committed(w, k, m));
    case _ => SameShown(w, Next(w, step));
  }

  /** In every run, whatever is lost or late: a session whose creation was acknowledged and that nobody
      deleted is displayed whenever the list applied last was one of its space. */
  lemma {:induction false} CreatedStaysDisplayed(mode: Mode, memory: PerMode, steps: seq<Step>)
    ensures AllShown(Exec(Initial(mode, memory), steps))
  {
    if steps != [] {
      var front := steps[..|steps| - 1];
      CreatedStaysDisplayed(mode, memory, front);
      RunIsSound(mode, memory, front);
      NextShows(Exec(Initial(mode, memory), front), steps[|steps| - 1]);
    }
  }

  // ---- Deleted sessions stay away --------------------------------------------------------

  predicate IsDeletion(w: World, i: nat, id: string) {
    i < |w.acked| && w.acked[i] < |w.log| && w.log[w.acked[i]] == Deleted(id)
  }

  ghost predicate KnownDeleted(w: World, id: string) {
    exists i: nat :: IsDeletion(w, i, id)
  }

  /** A session is displayed although its deletion was acknowledged. */
  ghost predicate IsHaunted(w: World) {
    exists id :: KnownDeleted(w, id) && HasId(w.client.sessions, id)
  }

  /** The reply of a create arrives after the reply of the delete of the session it created. */
  ghost predicate IsLateCreate(w: World, step: Step) {
    && step.Acknowledge? && IsAckable(w, step.k)
    && var m := w.log[w.writes[step.k].committed.value]; m.Created? && KnownDeleted(w, m.s.id)
  }

  lemma SameHaunting(w: World, w': World)
    requires w'.client.sessions == w.client.sessions && w'.acked == w.acked && w.log <= w'.log
    requires forall i :: 0 <= i < |w.acked| ==> w.acked[i] < |w.log|
    ensures IsHaunted(w') <==> IsHaunted(w)
  {
    assert forall j | 0 <= j < |w.log| :: w'.log[j] == w.log[j];
    forall id ensures KnownDeleted(w', id) <==> KnownDeleted(w, id) {
      assert forall i: nat :: IsDeletion(w', i, id) <==> IsDeletion(w, i, id);
    }
  }

  lemma HeldIsNotHaunted(w: World, reading: Reading, mode: Mode, id: string)
    requires LogOk(w.log) && Holds(w, reading, mode) && AckedBefore(w, reading.version) && KnownDeleted(w, id)
    ensures !HasId(reading.rows, id)
  {
    var i: nat :| IsDeletion(w, i, id);
    var prefix := w.log[..reading.version];
    DeletedIsGone(prefix, mode, w.acked[i]);
    SameRowsSameIds(reading.rows, Rows(prefix, mode), id);
  }

  lemma AppliedNotHaunted(w: World, r: nat, c: Client)
    requires Inv(w) && IsOpenRead(w, r) && w.lists[r].reply.Some? && IsActive(w, w.lists[r])
    requires c.sessions == w.lists[r].reply.value.rows
    ensures !IsHaunted(ListApplied(Closed(w, r), w.lists[r], c))
  {
    var x := w.lists[r];
    var w' := ListApplied(Closed(w, r), x, c);
    assert ReadOk(w, r);
    forall id | KnownDeleted(w', id) ensures !HasId(c.sessions, id) {
      var i: nat :| IsDeletion(w', i, id);
      assert IsDeletion(w, i, id);
      HeldIsNotHaunted(w, x.reply.value, x.mode, id);
    }
  }

  lemma DeliveredNotHaunted(w: World, r: nat)
    requires Inv(w) && !IsHaunted(w)
    ensures !IsHaunted(ReadDelivered(w, r))
  {
    if IsOpenRead(w, r) && w.lists[r].reply.Some? {
      var x := w.lists[r];
      if x.startup && OnInitList(w.client, x.ticket, x.mode, x.reply.value.rows).Apply? {
        AppliedNotHaunted(w, r, InitShown(w.client, x.mode, x.reply.value.rows));
      } else if !x.startup && Lands(w.client, x.ticket, x.mode) {
        AppliedNotHaunted(w, r, Refreshed(w.client, x.ticket, x.mode, x.reply.value.rows));
      } else {
        SameHaunting(w, ReadDelivered(w, r));
      }
    }
  }

  /** One more acknowledgement makes at most its own deletion known. */
  lemma ReceiptKnows(w: World, k: nat, w': World, id: string)
    requires IsAckable(w, k) && w'.acked == Receipt(w, k).acked && w'.log == w.log
    ensures KnownDeleted(w', id) <==> KnownDeleted(w, id) || w.log[w.writes[k].committed.value] == Deleted(id)
  {
    if KnownDeleted(w, id) {
      var i: nat :| IsDeletion(w, i, id);
      assert IsDeletion(w', i, id);
    }
    if w.log[w.writes[k].committed.value] == Deleted(id) {
      assert IsDeletion(w', |w.acked|, id);
    }
    if KnownDeleted(w', id) {
      var i: nat :| IsDeletion(w', i, id);
      assert i < |w.acked| ==> IsDeletion(w, i, id);
    }
  }

  lemma MutationHauntsIff(w: World, k: nat)
    requires Inv(w) && !IsHaunted(w) && IsAckable(w, k)
    ensures IsHaunted(Receipt(w, k).(client := MutationApplied(w.client, w.log[w.writes[k].committed.value])))
            <==> IsLateCreate(w, Acknowledge(k))
  {
    var m := w.log[w.writes[k].committed.value];
    var w' := Receipt(w, k).(client := MutationApplied(w.client, m));
    forall id ensures KnownDeleted(w', id) <==> KnownDeleted(w, id) || m == Deleted(id) {
      ReceiptKnows(w, k, w', id);
    }
    forall id ensures KnownDeleted(w', id) && HasId(w'.client.sessions, id)
                      <==> m.Created? && id == m.s.id && KnownDeleted(w, id)
    {
      MutationAppliedHas(w.client, m, id);
    }
    if m.Created? && KnownDeleted(w, m.s.id) {
      assert KnownDeleted(w', m.s.id) && HasId(w'.client.sessions, m.s.id);
    }
  }

  /** While startup's ticket is active nobody can have learned of its session, let alone deleted it. */
  lemma StartupCreateUnknown(w: World, k: nat)
    requires Inv(w) && IsAckable(w, k) && w.writes[k].origin.ByStartup?
    requires w.writes[k].origin.ticket == w.client.generation
    requires w.log[w.writes[k].committed.value].Created?
    ensures !KnownDeleted(w, w.log[w.writes[k].committed.value].s.id)
  {
    var c := w.writes[k].committed.value;
    assert WriteOk(w, k);
    forall i: nat ensures !IsDeletion(w, i, w.log[c].s.id) {
      if i < |w.acked| {
        assert w.acked[i] < c;
        assert IdOf(w.log[w.acked[i]]) != w.log[c].s.id;
      }
    }
  }

  lemma StartupNotHaunted(w: World, k: nat, c: Client, base: Option<Mode>)
    requires Inv(w) && !IsHaunted(w) && IsAckable(w, k) && w.log[w.writes[k].committed.value].Created?
    requires w.writes[k].origin.ByStartup?
    requires c.sessions == w.client.sessions
             || (w.writes[k].origin.ticket == w.client.generation && c.sessions == [w.log[w.writes[k].committed.value].s])
    ensures !IsHaunted(Receipt(w, k).(client := c, base := base))
  {
    var m := w.log[w.writes[k].committed.value];
    var w' := Receipt(w, k).(client := c, base := base);
    forall id | KnownDeleted(w', id) ensures !HasId(c.sessions, id) {
      ReceiptKnows(w, k, w', id);
      if c.sessions != w.client.sessions {
        StartupCreateUnknown(w, k);
      }
    }
  }

  /** The one way a deleted session comes back: the reply of its creation overtaken by that of its
      deletion. Every other step keeps the display free of deleted sessions. For startup's own create the
      session shows up only through a list, so nothing is shown. */
  lemma AcknowledgedHauntsIff(w: World, k: nat)
    requires Inv(w) && !IsHaunted(w)
    ensures IsHaunted(Acknowledged(w, k)) <==> IsLateCreate(w, Acknowledge(k)) && w.writes[k].origin.ByUser?
  {
    if IsAckable(w, k) {
      var m, o := w.log[w.writes[k].committed.value], w.writes[k].origin;
      if !(o.ByStartup? && m.Created?) {
        MutationHauntsIff(w, k);
      } else if OnInitCreate(w.client, o.ticket, o.mode).Apply? {
        StartupNotHaunted(w, k, InitShown(Invalidated(w.client), o.mode, [m.s]), Some(o.mode));
      } else {
        var w1 := Receipt(w, k).(client := Invalidated(w.client), base := None);
        StartupNotHaunted(w, k, Invalidated(w.client), None);
        ReceiptKeeps(w, k, Invalidated(w.client), None);
        SameHaunting(w1, Acknowledged(w, k));
      }
    } else {
      SameHaunting(w, Acknowledged(w, k));
    }
  }

  ghost predicate IsLateUserCreate(w: World, step: Step) {
    IsLateCreate(w, step) && w.writes[step.k].origin.ByUser?
  }

  lemma NextHauntsIff(w: World, step: Step)
    requires Inv(w) && !IsHaunted(w)
    ensures IsHaunted(Next(w, step)) <==> IsLateUserCreate(w, step)
  {
    match step
    case DeliverRead(r) => DeliveredNotHaunted(w, r);
    case Acknowledge(k) => AcknowledgedHauntsIff(w, k);
    case Commit(k, m) => SameHaunting(w, Committed(w, k, m));
    case _ => SameHaunting(w, Next(w, step));
  }

  ghost predicate NoLateCreate(w: World, steps: seq<Step>) {
    forall n :: 0 <= n < |steps| ==> !IsLateUserCreate(Exec(w, steps[..n]), steps[n])
  }

  /** In every run in which no create is acknowledged after the delete of the same session, a session
      whose deletion was acknowledged is never displayed again. */
  lemma {:induction false} DeletedStaysAway(mode: Mode, memory: PerMode, steps: seq<Step>)
    requires NoLateCreate(Initial(mode, memory), steps)
    ensures !IsHaunted(Exec(Initial(mode, memory), steps))
  {
    if steps != [] {
      var n := |steps| - 1;
      var front := steps[..n];
      forall i | 0 <= i < n ensures !IsLateUserCreate(Exec(Initial(mode, memory), front[..i]), front[i]) {
        assert front[..i] == steps[..i];
      }
      DeletedStaysAway(mode, memory, front);
      RunIsSound(mode, memory, front);
      NextHauntsIff(Exec(Initial(mode, memory), front), steps[n]);
    }
  }

  /** A landing list lays every ghost. */
  lemma LandingExorcises(w: World, r: nat)
    requires Inv(w) && IsOpenRead(w, r) && w.lists[r].reply.Some? && !w.lists[r].startup
    requires Lands(w.client, w.lists[r].ticket, w.lists[r].mode)
    ensures !IsHaunted(ReadDelivered(w, r))
  {
    var x := w.lists[r];
    AppliedNotHaunted(w, r, Refreshed(w.client, x.ticket, x.mode, x.reply.value.rows));
  }

  /** A create is committed, its reply is late, and a refresh is begun. */
  lemma CommittedBeforeReply(mode: Mode, memory: PerMode, s: Session) returns (w: World)
    requires InMode(s, mode)
    ensures Reaches(Initial(mode, memory), w)
    ensures w.log == [Created(s)] && w.acked == [] && w.lists == [Read(1, mode, false, None, false)]
    ensures w.client.generation == 1 && w.client.mode == mode
    ensures w.writes == [Write(CreateIn(mode), ByUser, Some(0), false)]
  {
    var w0 := Initial(mode, memory);
    assert Exec(w0, []) == w0;
    ReachNext(w0, w0, Send(CreateIn(mode)));
    CreateSent(w0);
    var w1 := w0.(writes := [Write(CreateIn(mode), ByUser, None, false)]);
    ReachNext(w0, w1, Commit(0, Created(s)));
    CreateCommitted(w1, s, mode);
    var w2 := w1.(log := [Created(s)], writes := [Write(CreateIn(mode), ByUser, Some(0), false)]);
    ReachNext(w0, w2, Refresh);
    w := Begun(w2, false);
  }

  lemma OneServed(w: World, mode: Mode, s: Session) returns (w': World)
    requires w.log == [Created(s)] && InMode(s, mode) && w.lists == [Read(1, mode, false, None, false)]
    ensures w' == Next(w, ServeRead(0, [s]))
    ensures w' == w.(lists := [Read(1, mode, false, Some(Reading(1, [s])), false)])
  {
    assert w.log[..0] == [] && Rows(w.log, mode) == [s];
    w' := ReadServed(w, 0, [s]);
  }

  /** ... and the refresh shows the session. */
  lemma ShownBeforeReply(mode: Mode, memory: PerMode, s: Session) returns (w: World)
    requires InMode(s, mode)
    ensures Reaches(Initial(mode, memory), w)
    ensures w.log == [Created(s)] && w.client.sessions == [s] && w.acked == []
    ensures w.writes == [Write(CreateIn(mode), ByUser, Some(0), false)]
  {
    var w0 := Initial(mode, memory);
    var w3 := CommittedBeforeReply(mode, memory, s);
    ReachNext(w0, w3, ServeRead(0, [s]));
    var w4 := OneServed(w3, mode, s);
    ReachNext(w0, w4, DeliverRead(0));
    w := ReadDelivered(w4, 0);
  }

  /** Such a run exists: the session shown by the refresh is deleted, the delete is acknowledged, and then
      the late reply of the create puts the session back. */
  lemma LateCreateHappens(mode: Mode, memory: PerMode, s: Session)
    requires InMode(s, mode)
    ensures exists w :: Reaches(Initial(mode, memory), w) && IsHaunted(w)
  {
    var w0 := Initial(mode, memory);
    var w5 := ShownBeforeReply(mode, memory, s);
    ReachNext(w0, w5, Send(DeleteOf(s.id)));
    var w6 := Next(w5, Send(DeleteOf(s.id)));
    ReachNext(w0, w6, Commit(1, Deleted(s.id)));
    var w7 := Committed(w6, 1, Deleted(s.id));
    ReachNext(w0, w7, Acknowledge(1));
    var w8 := Acknowledged(w7, 1);
    ReachNext(w0, w8, Acknowledge(0));
    var w9 := Acknowledged(w8, 0);
    assert IsDeletion(w9, 0, s.id);
    assert w9.client.sessions[0] == s;
    assert KnownDeleted(w9, s.id) && HasId(w9.client.sessions, s.id);
  }

  // ---- One selection per space -----------------------------------------------------------

  /** The present space remembers what is selected in it. */
  predicate IsRemembered(c: Client) {
    Recall(c.memory, c.mode) == c.active
  }

  ghost predicate OtherSpaceUntouched(c: Client, c': Client) {
    forall other :: other != c.mode ==> Recall(c'.memory, other) == Recall(c.memory, other)
  }

  lemma AcknowledgedMemory(w: World, k: nat)
    requires IsRemembered(w.client)
    ensures IsRemembered(Acknowledged(w, k).client) && OtherSpaceUntouched(w.client, Acknowledged(w, k).client)
  {
  }

  lemma DeliveredMemory(w: World, r: nat)
    requires IsRemembered(w.client)
    ensures IsRemembered(ReadDelivered(w, r).client) && OtherSpaceUntouched(w.client, ReadDelivered(w, r).client)
  {
  }

  /** Whatever happens, late replies included, the selection of the displayed space is the one remembered
      for it, and the selection remembered for the other space is left alone. */
  lemma NextMemory(w: World, step: Step)
    requires IsRemembered(w.client)
    ensures IsRemembered(Next(w, step).client) && OtherSpaceUntouched(w.client, Next(w, step).client)
  {
    match step
    case Acknowledge(k) => AcknowledgedMemory(w, k);
    case DeliverRead(r) => DeliveredMemory(w, r);
    case _ =>
  }

  ghost predicate NoSwitch(steps: seq<Step>) {
    forall n :: 0 <= n < |steps| ==> !steps[n].SetMode?
  }

  lemma {:induction false} RunMemory(w: World, steps: seq<Step>)
    requires IsRemembered(w.client) && NoSwitch(steps)
    ensures IsRemembered(Exec(w, steps).client) && Exec(w, steps).client.mode == w.client.mode
    ensures OtherSpaceUntouched(w.client, Exec(w, steps).client)
  {
    if steps != [] {
      RunMemory(w, steps[..|steps| - 1]);
      NextMemory(Exec(w, steps[..|steps| - 1]), steps[|steps| - 1]);
      OnlySwitchesChangeMode(Exec(w, steps[..|steps| - 1]), steps[|steps| - 1]);
    }
  }

  lemma OnlySwitchesChangeMode(w: World, step: Step)
    requires !step.SetMode?
    ensures Next(w, step).client.mode == w.client.mode
  {
  }

  lemma {:induction false} ActiveIsRemembered(mode: Mode, memory: PerMode, steps: seq<Step>)
    ensures IsRemembered(Exec(Initial(mode, memory), steps).client)
  {
    if steps != [] {
      ActiveIsRemembered(mode, memory, steps[..|steps| - 1]);
      NextMemory(Exec(Initial(mode, memory), steps[..|steps| - 1]), steps[|steps| - 1]);
    }
  }

  /** Switching modes never switches the conversation: leaving a space at any point of any run, doing
      anything at all in the other one, and coming back selects exactly what was selected before. */
  lemma ReturnRestoresSelection(mode: Mode, memory: PerMode, before: seq<Step>, away: Mode, meanwhile: seq<Step>)
    requires Exec(Initial(mode, memory), before).client.mode != away && NoSwitch(meanwhile)
    ensures var w := Exec(Initial(mode, memory), before);
            ModeSet(Exec(ModeSet(w, away), meanwhile), w.client.mode).client.active == w.client.active
  {
    var w := Exec(Initial(mode, memory), before);
    ActiveIsRemembered(mode, memory, before);
    NextMemory(w, SetMode(away));
    RunMemory(ModeSet(w, away), meanwhile);
  }

  /** A create acknowledged after a mode switch crosses the spaces: the other space shows, selects and remembers a
      session that is not its own. */
  lemma LateCreateCrossesSpaces(mode: Mode, away: Mode, memory: PerMode, s: Session)
    requires InMode(s, mode) && away != mode
    ensures exists w :: Reaches(Initial(mode, memory), w) && w.client.mode == away && s in w.client.sessions
                        && w.client.active == Some(s.id) == Recall(w.client.memory, away) && !InMode(s, away)
  {
    var w0 := Initial(mode, memory);
    assert Exec(w0, []) == w0;
    ReachNext(w0, w0, Send(CreateIn(mode)));
    CreateSent(w0);
    var w1 := w0.(writes := [Write(CreateIn(mode), ByUser, None, false)]);
    ReachNext(w0, w1, SetMode(away));
    var w2 := ModeSet(w1, away);
    ReachNext(w0, w2, Commit(0, Created(s)));
    CreateCommitted(w2, s, mode);
    var w3 := w2.(log := [Created(s)], writes := [Write(CreateIn(mode), ByUser, Some(0), false)]);
    ReachNext(w0, w3, Acknowledge(0));
    var w4 := Acknowledged(w3, 0);
    CreateStaysInSpaceIff(w3.client, s);
    assert w4.client == CreateApplied(w3.client, s) && w4.client.sessions[0] == s;
  }

  // ---- Startup ---------------------------------------------------------------------------

  /** When startup applies its list, in any reachable world: the list is past every acknowledged mutation
      and of the present mode, and the selection lies inside it. */
  lemma StartupListIsSafe(w: World, r: nat)
    requires Inv(w) && IsOpenRead(w, r) && w.lists[r].reply.Some? && w.lists[r].startup
    requires OnInitList(w.client, w.lists[r].ticket, w.lists[r].mode, w.lists[r].reply.value.rows).Apply?
    ensures var x, w' := w.lists[r], ReadDelivered(w, r);
            && w'.client.sessions == x.reply.value.rows && Holds(w, x.reply.value, w.client.mode)
            && AckedBefore(w, x.reply.value.version)
            && w'.client.active.Some? && InSpace(w'.client.sessions, w.client.mode, w'.client.active.value)
            && (forall other :: other != w.client.mode ==> Recall(w'.client.memory, other) == Recall(w.client.memory, other))
  {
    var x := w.lists[r];
    assert ReadOk(w, r);
    ShownSelection(w.client, x.mode, x.reply.value.rows, Current(w.client, x.mode));
    RowsInMode(w.log[..x.reply.value.version], x.mode);
    assert x.reply.value.rows[0] in multiset(x.reply.value.rows);
    assert InMode(x.reply.value.rows[0], x.mode);
  }

  /** When startup applies its own create: its ticket is still active, nothing was acknowledged since the empty
      list, the created session is the whole list and is selected, and the other space's memory is untouched. */
  lemma StartupCreateIsSafe(w: World, k: nat)
    requires Inv(w) && IsAckable(w, k) && w.writes[k].origin.ByStartup?
    requires w.log[w.writes[k].committed.value].Created?
    requires OnInitCreate(w.client, w.writes[k].origin.ticket, w.writes[k].origin.mode).Apply?
    ensures var o, s, w' := w.writes[k].origin, w.log[w.writes[k].committed.value].s, Acknowledged(w, k);
            && Lands(w.client, o.ticket, o.mode) && AckedBefore(w, o.version) && o.version <= |w.log| && Rows(w.log[..o.version], w.client.mode) == []
            && w'.client.sessions == [s] && InMode(s, w.client.mode) && w'.client.active == Some(s.id)
            && (forall other :: other != w.client.mode ==> Recall(w'.client.memory, other) == Recall(w.client.memory, other))
  {
    var o, s := w.writes[k].origin, w.log[w.writes[k].committed.value].s;
    assert WriteOk(w, k);
    var c := Invalidated(w.client);
    ShownSelection(c, o.mode, [s], Current(c, o.mode));
    assert s in [s];
  }
}
