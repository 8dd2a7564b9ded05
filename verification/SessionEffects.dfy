/** What the steps of the session protocol show and what they send: the displayed rows, the list requests and the
    mutations a step causes. */
module SessionEffects {
  import opened Common
  import opened ModeSessions
  import opened SessionClient
  import opened SessionProtocol

  // ---- What is displayed -----------------------------------------------------------------

  /** The rows with another id, in their order. */
  function Others(rows: seq<Session>, id: string): seq<Session> {
    if rows == [] then []
    else
      var last := rows[|rows| - 1];
      Others(rows[..|rows| - 1], id) + if last.id == id then [] else [last]
  }

  lemma {:induction false} WithoutIsOthers(rows: seq<Session>, id: string)
    ensures WithoutId(rows, id) == Others(rows, id)
  {
    if rows != [] {
      var n := |rows| - 1;
      WithoutIsOthers(rows[..n], id);
      FilterConcat(rows[..n], [rows[n]], (s: Session) => s.id != id);
      assert rows == rows[..n] + [rows[n]];
    }
  }

  /** `rows'` is `rows` with one title changed. */
  ghost predicate OneRenamed(rows: seq<Session>, id: string, title: string, rows': seq<Session>) {
    && |rows'| == |rows|
    && forall k :: 0 <= k < |rows| ==>
         rows'[k].id == rows[k].id && rows'[k].mode == rows[k].mode
         && rows'[k].title == if rows[k].id == id then title else rows[k].title
  }

  /** The reply was asked for in the present mode, and nothing moved the counter since. */
  predicate IsCurrent(c: Client, mode: Mode, ticket: nat) {
    mode == c.mode && ticket == c.generation
  }

  ghost predicate MutationShows(c: Client, origin: Origin, m: Mutation, rows: seq<Session>) {
    match m
    case Created(s) =>
      if origin.ByUser? then rows == [s] + Others(c.sessions, s.id)
      else if IsCurrent(c, origin.mode, origin.ticket) then rows == [s]
      else rows == c.sessions
    case Deleted(id) => rows == Others(c.sessions, id)
    case Renamed(id, title) => OneRenamed(c.sessions, id, title, rows)
  }

  /** `rows` is what the step leaves displayed. */
  ghost predicate StepShows(w: World, step: Step, rows: seq<Session>) {
    match step
    case DeliverRead(r) =>
      if IsOpenRead(w, r) && w.lists[r].reply.Some? && IsCurrent(w.client, w.lists[r].mode, w.lists[r].ticket)
         && !(w.lists[r].startup && w.lists[r].reply.value.rows == [])
      then rows == w.lists[r].reply.value.rows
      else rows == w.client.sessions
    case Acknowledge(k) =>
      if IsAckable(w, k) then MutationShows(w.client, w.writes[k].origin, w.log[w.writes[k].committed.value], rows)
      else rows == w.client.sessions
    case _ => rows == w.client.sessions
  }

  lemma RetitledIsRenamed(rows: seq<Session>, id: string, title: string)
    ensures OneRenamed(rows, id, title, Retitled(rows, id, title))
  {
    forall k | 0 <= k < |rows|
      ensures var x := Retitled(rows, id, title)[k];
              x.id == rows[k].id && x.mode == rows[k].mode && x.title == if rows[k].id == id then title else rows[k].title
    {
      RetitledAt(rows, id, title, k);
    }
  }

  lemma AcknowledgedShows(w: World, k: nat)
    requires IsAckable(w, k)
    ensures MutationShows(w.client, w.writes[k].origin, w.log[w.writes[k].committed.value], Next(w, Acknowledge(k)).client.sessions)
  {
    var c, m := w.client, w.log[w.writes[k].committed.value];
    match m
    case Created(s) => WithoutIsOthers(c.sessions, s.id);
    case Deleted(id) => WithoutIsOthers(c.sessions, id);
    case Renamed(id, title) => RetitledIsRenamed(c.sessions, id, title);
  }

  /** Every step leaves exactly these rows displayed: a list that lands as it is, an acknowledged create in front, a
      deleted session left out, a renamed one with its title, and whatever was there in all other cases. */
  lemma NextShows(w: World, step: Step)
    ensures StepShows(w, step, Next(w, step).client.sessions)
  {
    match step
    case Acknowledge(k) =>
      if IsAckable(w, k) {
        AcknowledgedShows(w, k);
      }
    case _ =>
  }

  // ---- What is sent ----------------------------------------------------------------------

  /** Startup got an answer it may not use: it was superseded, or the mode was switched. */
  predicate IsSuperseded(w: World, step: Step) {
    match step
    case DeliverRead(r) =>
      && IsOpenRead(w, r) && w.lists[r].reply.Some? && w.lists[r].startup
      && !IsCurrent(w.client, w.lists[r].mode, w.lists[r].ticket)
      && !(w.lists[r].ticket == w.client.generation && w.lists[r].reply.value.rows == [])
    case Acknowledge(k) =>
      && IsAckable(w, k) && w.writes[k].origin.ByStartup? && w.log[w.writes[k].committed.value].Created?
      && !IsCurrent(w.client, w.writes[k].origin.mode, w.writes[k].origin.ticket)
    case _ => false
  }

  /** A step asks the server for a list exactly when it is a refresh, a startup, a real mode switch or an answer that
      startup may not use; the request is for the present mode and carries the newest ticket. */
  lemma NextAsksIff(w: World, step: Step)
    ensures var w' := Next(w, step);
            && (|w'.lists| != |w.lists| <==>
                  step.Refresh? || step.StartUp? || (step.SetMode? && step.mode != w.client.mode) || IsSuperseded(w, step))
            && (|w'.lists| != |w.lists| ==>
                  && |w'.lists| == |w.lists| + 1
                  && w'.lists[|w.lists|] == Read(w'.client.generation, w'.client.mode, step.StartUp?, None, false)
                  && w'.client.generation > w.client.generation)
  {
    match step
    case DeliverRead(r) => DeliveryAsks(w, r);
    case Acknowledge(k) => AcknowledgementAsks(w, k);
    case _ =>
  }

  lemma DeliveryAsks(w: World, r: nat)
    ensures var w' := ReadDelivered(w, r);
            if IsSuperseded(w, DeliverRead(r)) then
              && |w'.lists| == |w.lists| + 1 && w'.client.generation == w.client.generation + 1
              && w'.lists[|w.lists|] == Read(w'.client.generation, w'.client.mode, false, None, false)
            else |w'.lists| == |w.lists|
  {
  }

  lemma AcknowledgementAsks(w: World, k: nat)
    ensures var w' := Acknowledged(w, k);
            if IsSuperseded(w, Acknowledge(k)) then
              && |w'.lists| == |w.lists| + 1 && w'.client.generation > w.client.generation
              && w'.lists[|w.lists|] == Read(w'.client.generation, w'.client.mode, false, None, false)
            else |w'.lists| == |w.lists|
  {
  }

  /** Startup's own list came back empty and nothing moved the counter since. */
  predicate FindsNothing(w: World, step: Step) {
    && step.DeliverRead? && IsOpenRead(w, step.r) && w.lists[step.r].reply.Some? && w.lists[step.r].startup
    && w.lists[step.r].ticket == w.client.generation && w.lists[step.r].reply.value.rows == []
  }

  /** A step sends a mutation exactly when the user asks for one or startup finds no session; the user creates in the
      present mode, startup creates in the mode it asked for. */
  lemma NextSendsIff(w: World, step: Step)
    ensures var w' := Next(w, step);
            && (|w'.writes| != |w.writes| <==> step.Send? || FindsNothing(w, step))
            && (step.Send? ==>
                  && |w'.writes| == |w.writes| + 1
                  && w'.writes[|w.writes|].origin == ByUser
                  && w'.writes[|w.writes|].op == if step.op.CreateIn? then CreateIn(w.client.mode) else step.op)
            && (FindsNothing(w, step) ==>
                  && |w'.writes| == |w.writes| + 1
                  && w'.writes[|w.writes|].op == CreateIn(w.lists[step.r].mode)
                  && w'.writes[|w.writes|].origin.ByStartup?
                  && w'.writes[|w.writes|].origin.ticket == w.lists[step.r].ticket)
  {
  }
}
