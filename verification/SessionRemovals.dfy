/** When the sidebar drops a session whose creation was acknowledged and that nobody deleted. */
module SessionRemovals {
  import opened Common
  import opened ModeSessions
  import opened SessionClient
  import opened SessionProtocol
  import opened SessionSafety
  import opened SessionDisplay

  /** The `i`-th acknowledged mutation created a session that nobody deleted. */
  ghost predicate IsLiving(w: World, i: nat) {
    i < |w.acked| && w.acked[i] < |w.log| && w.log[w.acked[i]].Created? && NeverDeleted(w.log, w.log[w.acked[i]].s.id)
  }

  function SessionAt(w: World, i: nat): Session
    requires i < |w.acked| && w.acked[i] < |w.log| && w.log[w.acked[i]].Created?
  {
    w.log[w.acked[i]].s
  }

  /** The step replaces the whole display: a refresh or startup's list lands, or startup's own create is shown. */
  predicate ReplacesList(w: World, step: Step) {
    match step
    case DeliverRead(r) =>
      && IsOpenRead(w, r) && w.lists[r].reply.Some?
      && (if w.lists[r].startup
          then OnInitList(w.client, w.lists[r].ticket, w.lists[r].mode, w.lists[r].reply.value.rows).Apply?
          else Lands(w.client, w.lists[r].ticket, w.lists[r].mode))
    case Acknowledge(k) =>
      && IsAckable(w, k) && w.writes[k].origin.ByStartup? && w.log[w.writes[k].committed.value].Created?
      && OnInitCreate(w.client, w.writes[k].origin.ticket, w.writes[k].origin.mode).Apply?
    case _ => false
  }

  // ---- What a list can hold --------------------------------------------------------------

  /** Every row was created, in the space that was asked for. */
  lemma {:induction false} RowCreated(log: seq<Mutation>, mode: Mode, s: Session) returns (c: nat)
    requires s in Rows(log, mode)
    ensures c < |log| && log[c].Created? && log[c].s.id == s.id && InMode(log[c].s, mode)
  {
    var n := |log| - 1;
    var rows := Rows(log[..n], mode);
    match log[n]
    case Created(x) =>
      if s == x && InMode(x, mode) {
        c := n;
      } else {
        c := RowCreated(log[..n], mode, s);
      }
    case Deleted(id) =>
      WithoutIdMembers(rows, id);
      c := RowCreated(log[..n], mode, s);
    case Renamed(id, title) =>
      var i :| 0 <= i < |rows| && Retitled(rows, id, title)[i] == s;
      RetitledAt(rows, id, title, i);
      c := RowCreated(log[..n], mode, rows[i]);
  }

  /** Different creations create different ids. */
  lemma CreatedOnce(log: seq<Mutation>, a: nat, b: nat)
    requires LogOk(log) && a < |log| && b < |log| && a != b && log[a].Created? && log[b].Created?
    ensures log[a].s.id != log[b].s.id
  {
    if a < b {
      assert IdOf(log[a]) != log[b].s.id;
    } else {
      assert IdOf(log[b]) != log[a].s.id;
    }
  }

  /** A listed reading past its acknowledgement holds a living session exactly when it is of the session's space. */
  lemma HeldIff(w: World, reading: Reading, mode: Mode, i: nat)
    requires Inv(w) && Holds(w, reading, mode) && AckedBefore(w, reading.version) && IsLiving(w, i)
    ensures HasId(reading.rows, SessionAt(w, i).id) <==> InMode(SessionAt(w, i), mode)
  {
    var x, prefix := SessionAt(w, i), w.log[..reading.version];
    SameRowsSameIds(reading.rows, Rows(prefix, mode), x.id);
    if InMode(x, mode) {
      HeldIsListed(w, reading, mode, i);
    } else {
      forall s | s in Rows(prefix, mode) ensures s.id != x.id {
        var c := RowCreated(prefix, mode, s);
        CreatedOnce(w.log, c, w.acked[i]);
      }
    }
  }

  // ---- One step --------------------------------------------------------------------------

  lemma DeliveredTakesIff(w: World, r: nat, i: nat)
    requires Inv(w) && IsLiving(w, i) && HasId(w.client.sessions, SessionAt(w, i).id)
    ensures HasId(ReadDelivered(w, r).client.sessions, SessionAt(w, i).id) <==>
            !(ReplacesList(w, DeliverRead(r)) && !InMode(SessionAt(w, i), w.client.mode))
  {
    if ReplacesList(w, DeliverRead(r)) {
      var x := w.lists[r];
      assert ReadOk(w, r);
      HeldIff(w, x.reply.value, x.mode, i);
    }
  }

  /** Startup's create is shown alone; what else is living belongs to the other space. */
  lemma StartupTakes(w: World, k: nat, i: nat)
    requires Inv(w) && IsLiving(w, i) && ReplacesList(w, Acknowledge(k))
    ensures !HasId([w.log[w.writes[k].committed.value].s], SessionAt(w, i).id)
    ensures !InMode(SessionAt(w, i), w.client.mode)
  {
    var o, c := w.writes[k].origin, w.writes[k].committed.value;
    assert WriteOk(w, k);
    HeldIff(w, Reading(o.version, []), o.mode, i);
    CreatedOnce(w.log, c, w.acked[i]);
  }

  lemma AcknowledgedTakesIff(w: World, k: nat, i: nat)
    requires Inv(w) && IsLiving(w, i) && HasId(w.client.sessions, SessionAt(w, i).id)
    ensures HasId(Acknowledged(w, k).client.sessions, SessionAt(w, i).id) <==>
            !(ReplacesList(w, Acknowledge(k)) && !InMode(SessionAt(w, i), w.client.mode))
  {
    if IsAckable(w, k) {
      var m := w.log[w.writes[k].committed.value];
      if ReplacesList(w, Acknowledge(k)) {
        StartupTakes(w, k, i);
      } else if !(w.writes[k].origin.ByStartup? && m.Created?) {
        MutationAppliedHas(w.client, m, SessionAt(w, i).id);
      }
    }
  }

  /** A displayed, acknowledged, living session is taken off the display exactly by a list of the other space that
      replaces it. */
  lemma NextTakesIff(w: World, step: Step, i: nat)
    requires Inv(w) && IsLiving(w, i) && HasId(w.client.sessions, SessionAt(w, i).id)
    ensures HasId(Next(w, step).client.sessions, SessionAt(w, i).id) <==>
            !(ReplacesList(w, step) && !InMode(SessionAt(w, i), w.client.mode))
  {
    match step
    case DeliverRead(r) => DeliveredTakesIff(w, r, i);
    case Acknowledge(k) => AcknowledgedTakesIff(w, k, i);
    case _ =>
  }

  /** A living session is put on the display by its acknowledgement, unless it is startup's own and was overtaken. */
  lemma AcknowledgementShows(w: World, k: nat)
    requires Inv(w) && IsAckable(w, k) && w.log[w.writes[k].committed.value].Created?
    requires w.writes[k].origin.ByUser? || ReplacesList(w, Acknowledge(k))
    ensures HasId(Acknowledged(w, k).client.sessions, w.log[w.writes[k].committed.value].s.id)
  {
    var m := w.log[w.writes[k].committed.value];
    if w.writes[k].origin.ByUser? {
      MutationAppliedHas(w.client, m, m.s.id);
    } else {
      assert m.s in [m.s];
    }
  }

  // ---- Whole runs ------------------------------------------------------------------------

  lemma {:induction false} LogGrows(w: World, steps: seq<Step>)
    ensures w.log <= Exec(w, steps).log && w.acked <= Exec(w, steps).acked
  {
    if steps != [] {
      LogGrows(w, steps[..|steps| - 1]);
      NextLogGrows(Exec(w, steps[..|steps| - 1]), steps[|steps| - 1]);
    }
  }

  lemma NextLogGrows(w: World, step: Step)
    ensures w.log <= Next(w, step).log && w.acked <= Next(w, step).acked
  {
  }

  lemma LivingBefore(w: World, w': World, i: nat)
    requires w.log <= w'.log && w.acked <= w'.acked && i < |w.acked| && w.acked[i] < |w.log| && IsLiving(w', i)
    ensures IsLiving(w, i) && SessionAt(w, i) == SessionAt(w', i)
  {
  }

  lemma {:induction false} RunKeeps(w: World, steps: seq<Step>)
    requires Inv(w)
    ensures Inv(Exec(w, steps))
  {
    if steps != [] {
      RunKeeps(w, steps[..|steps| - 1]);
      NextKeeps(Exec(w, steps[..|steps| - 1]), steps[|steps| - 1]);
    }
  }

  /** No list of another space replaced the display. */
  ghost predicate NeverReplaced(w: World, steps: seq<Step>, s: Session) {
    forall n :: 0 <= n < |steps| ==>
      !(ReplacesList(Exec(w, steps[..n]), steps[n]) && !InMode(s, Exec(w, steps[..n]).client.mode))
  }

  lemma NeverReplacedFront(w: World, steps: seq<Step>, s: Session)
    requires steps != [] && NeverReplaced(w, steps, s)
    ensures NeverReplaced(w, steps[..|steps| - 1], s)
    ensures var front := steps[..|steps| - 1];
            !(ReplacesList(Exec(w, front), steps[|front|]) && !InMode(s, Exec(w, front).client.mode))
  {
    var front := steps[..|steps| - 1];
    forall n | 0 <= n < |front|
      ensures !(ReplacesList(Exec(w, front[..n]), front[n]) && !InMode(s, Exec(w, front[..n]).client.mode))
    {
      assert front[..n] == steps[..n];
    }
  }

  /** From the moment it is displayed, whatever is late, lost or reordered, and before any list was applied too, an
      acknowledged session stays on display until it is deleted or a list of the other space replaces it. */
  lemma {:induction false} StaysDisplayed(w: World, steps: seq<Step>, i: nat)
    requires Inv(w) && i < |w.acked| && IsLiving(Exec(w, steps), i)
    requires IsLiving(w, i) && HasId(w.client.sessions, SessionAt(w, i).id) && NeverReplaced(w, steps, SessionAt(w, i))
    ensures HasId(Exec(w, steps).client.sessions, SessionAt(w, i).id)
  {
    if steps != [] {
      var front, step := steps[..|steps| - 1], steps[|steps| - 1];
      var mid := Exec(w, front);
      LogGrows(w, front);
      NextLogGrows(mid, step);
      RunKeeps(w, front);
      LivingBefore(mid, Exec(w, steps), i);
      NeverReplacedFront(w, steps, SessionAt(w, i));
      StaysDisplayed(w, front, i);
      NextTakesIff(mid, step, i);
    }
  }
}
