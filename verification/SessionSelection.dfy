/** Which conversation is open: when a step of the session protocol changes the selection, and to what. */
module SessionSelection {
  import opened Common
  import opened ModeSessions
  import opened SessionClient
  import opened SessionProtocol

  /** A session is a chat exactly when it says so; all others, unmarked ones included, are agent sessions. */
  predicate IsOf(s: Session, mode: Mode) {
    mode.Chat? <==> s.mode == Some("chat")
  }

  ghost predicate Holds(rows: seq<Session>, mode: Mode, id: string) {
    exists s :: s in rows && IsOf(s, mode) && s.id == id
  }

  ghost predicate IsFirstOf(rows: seq<Session>, mode: Mode, n: nat) {
    n < |rows| && IsOf(rows[n], mode) && forall k :: 0 <= k < n ==> !IsOf(rows[k], mode)
  }

  /** The first listed session of the space, or none when the space is empty. */
  ghost predicate IsNewest(rows: seq<Session>, mode: Mode, id: Option<string>) {
    if id.None? then forall s :: s in rows ==> !IsOf(s, mode)
    else exists n: nat :: IsFirstOf(rows, mode, n) && rows[n].id == id.value
  }

  /** The list still holds the wanted session in its space. */
  ghost predicate Keeps(rows: seq<Session>, mode: Mode, wanted: Option<string>) {
    wanted.Some? && wanted.value != "" && Holds(rows, mode, wanted.value)
  }

  /** A shown list keeps the wanted session open as long as it holds it, and opens its newest one otherwise. */
  ghost predicate Opens(rows: seq<Session>, mode: Mode, wanted: Option<string>, id: Option<string>) {
    if Keeps(rows, mode, wanted) then id == wanted else IsNewest(rows, mode, id)
  }

  lemma SpacesAgree(s: Session, mode: Mode)
    ensures InMode(s, mode) <==> IsOf(s, mode)
  {
  }

  lemma HoldsIffInSpace(rows: seq<Session>, mode: Mode, id: string)
    ensures InSpace(rows, mode, id) <==> Holds(rows, mode, id)
  {
    forall s { SpacesAgree(s, mode); }
    if s :| s in rows && InMode(s, mode) && s.id == id {
      assert IsOf(s, mode);
    }
    if s :| s in rows && IsOf(s, mode) && s.id == id {
      assert InMode(s, mode);
    }
  }

  lemma NewestIsUnique(rows: seq<Session>, mode: Mode, a: Option<string>, b: Option<string>)
    requires IsNewest(rows, mode, a) && IsNewest(rows, mode, b)
    ensures a == b
  {
    if a.Some? {
      var n: nat :| IsFirstOf(rows, mode, n) && rows[n].id == a.value;
      assert rows[n] in rows;
    }
    if b.Some? {
      var n: nat :| IsFirstOf(rows, mode, n) && rows[n].id == b.value;
      assert rows[n] in rows;
    }
  }

  lemma ResolvedIsNewest(rows: seq<Session>, mode: Mode, wanted: Option<string>)
    requires !Keeps(rows, mode, wanted)
    ensures IsNewest(rows, mode, ResolveActive(rows, mode, wanted))
  {
    forall s { SpacesAgree(s, mode); }
    ResolvedSelection(rows, mode, wanted);
    if wanted.Some? {
      HoldsIffInSpace(rows, mode, wanted.value);
    }
    if ResolveActive(rows, mode, wanted).Some? {
      var n := ReplacementIsNewest(rows, mode, wanted);
      assert IsFirstOf(rows, mode, n);
    }
  }

  lemma ResolveOpens(rows: seq<Session>, mode: Mode, wanted: Option<string>, id: Option<string>)
    ensures ResolveActive(rows, mode, wanted) == id <==> Opens(rows, mode, wanted, id)
  {
    if Keeps(rows, mode, wanted) {
      HoldsIffInSpace(rows, mode, wanted.value);
      ResolvedSelection(rows, mode, wanted);
    } else {
      ResolvedIsNewest(rows, mode, wanted);
      if IsNewest(rows, mode, id) {
        NewestIsUnique(rows, mode, id, ResolveActive(rows, mode, wanted));
      }
    }
  }

  // ---- What each step opens --------------------------------------------------------------

  /** The session remembered for a space. */
  function RememberedIn(c: Client, mode: Mode): Option<string> {
    match mode
    case Chat => c.memory.chat
    case Agent => c.memory.agent
  }

  /** Startup wants the open session, or else the remembered one. */
  function WantedAtStart(c: Client, mode: Mode): Option<string> {
    if c.active.Some? then c.active else RememberedIn(c, mode)
  }

  /** `id` may be open after this list came back. */
  ghost predicate ListOpens(c: Client, x: Read, rows: seq<Session>, id: Option<string>) {
    if x.mode != c.mode || x.ticket != c.generation || (x.startup && rows == []) then id == c.active
    else Opens(rows, x.mode, if x.startup then WantedAtStart(c, x.mode) else c.active, id)
  }

  /** `id` may be open after this mutation was acknowledged, with `rows` displayed then. */
  ghost predicate MutationOpens(c: Client, origin: Origin, m: Mutation, rows: seq<Session>, id: Option<string>) {
    match m
    case Created(s) =>
      if origin.ByUser? then id == Some(s.id)
      else if origin.mode != c.mode || origin.ticket != c.generation then id == c.active
      else Opens([s], origin.mode, WantedAtStart(c, origin.mode), id)
    case Deleted(gone) => Opens(rows, c.mode, if c.active == Some(gone) then None else c.active, id)
    case Renamed(_, _) => id == c.active
  }

  /** `id` is what the step leaves open. */
  ghost predicate StepOpens(w: World, step: Step, id: Option<string>) {
    var c := w.client;
    match step
    case Select(picked) => id == picked
    case SetMode(mode) => id == if mode == c.mode then c.active else RememberedIn(c, mode)
    case DeliverRead(r) =>
      if IsOpenRead(w, r) && w.lists[r].reply.Some? then ListOpens(c, w.lists[r], w.lists[r].reply.value.rows, id)
      else id == c.active
    case Acknowledge(k) =>
      if IsAckable(w, k)
      then MutationOpens(c, w.writes[k].origin, w.log[w.writes[k].committed.value], Next(w, step).client.sessions, id)
      else id == c.active
    case _ => id == c.active
  }

  lemma ListOpensIff(w: World, r: nat, id: Option<string>)
    requires IsOpenRead(w, r) && w.lists[r].reply.Some?
    ensures Next(w, DeliverRead(r)).client.active == id <==> ListOpens(w.client, w.lists[r], w.lists[r].reply.value.rows, id)
  {
    var x := w.lists[r];
    ResolveOpens(x.reply.value.rows, x.mode, if x.startup then WantedAtStart(w.client, x.mode) else w.client.active, id);
  }

  lemma DeleteOpensIff(c: Client, gone: string, id: Option<string>)
    ensures var c' := DeleteApplied(c, gone);
            c'.active == id <==> Opens(c'.sessions, c.mode, if c.active == Some(gone) then None else c.active, id)
  {
    ResolveOpens(WithoutId(c.sessions, gone), c.mode, if c.active == Some(gone) then None else c.active, id);
  }

  lemma MutationOpensIff(w: World, k: nat, id: Option<string>)
    requires IsAckable(w, k)
    ensures var w' := Next(w, Acknowledge(k));
            w'.client.active == id <==>
            MutationOpens(w.client, w.writes[k].origin, w.log[w.writes[k].committed.value], w'.client.sessions, id)
  {
    var c, o, m := w.client, w.writes[k].origin, w.log[w.writes[k].committed.value];
    match m
    case Created(s) =>
      if o.ByStartup? {
        ResolveOpens([s], o.mode, WantedAtStart(c, o.mode), id);
      }
    case Deleted(gone) => DeleteOpensIff(c, gone, id);
    case Renamed(_, _) =>
  }

  /** Every step of the protocol leaves exactly one conversation open: the one picked, the one remembered for the space
      switched to, the one just created, the open one as long as the shown list holds it, or else the newest of that
      list. */
  lemma NextOpensIff(w: World, step: Step, id: Option<string>)
    ensures Next(w, step).client.active == id <==> StepOpens(w, step, id)
  {
    match step
    case DeliverRead(r) =>
      if IsOpenRead(w, r) && w.lists[r].reply.Some? {
        ListOpensIff(w, r, id);
      }
    case Acknowledge(k) =>
      if IsAckable(w, k) {
        MutationOpensIff(w, k, id);
      }
    case _ =>
  }

  // ---- When the selection changes --------------------------------------------------------

  /** Another session is picked, a switch recalls another one, a create of the user is acknowledged, or a list is shown
      - landed, startup's, or what a delete leaves - that neither holds the wanted session nor has the open one first. */
  ghost predicate IsReselection(w: World, step: Step) {
    var c := w.client;
    match step
    case Select(picked) => picked != c.active
    case SetMode(mode) => mode != c.mode && RememberedIn(c, mode) != c.active
    case DeliverRead(r) =>
      && IsOpenRead(w, r) && w.lists[r].reply.Some?
      && var x := w.lists[r];
         var rows := x.reply.value.rows;
         && x.mode == c.mode && x.ticket == c.generation && !(x.startup && rows == [])
         && Replaces(rows, x.mode, if x.startup then WantedAtStart(c, x.mode) else c.active, c.active)
    case Acknowledge(k) =>
      && IsAckable(w, k)
      && IsReselectingMutation(c, w.writes[k].origin, w.log[w.writes[k].committed.value], Next(w, step).client.sessions)
    case _ => false
  }

  ghost predicate IsReselectingMutation(c: Client, origin: Origin, m: Mutation, rows: seq<Session>) {
    match m
    case Created(s) =>
      if origin.ByUser? then c.active != Some(s.id)
      else origin.mode == c.mode && origin.ticket == c.generation
           && Replaces([s], origin.mode, WantedAtStart(c, origin.mode), c.active)
    case Deleted(gone) => Replaces(rows, c.mode, if c.active == Some(gone) then None else c.active, c.active)
    case Renamed(_, _) => false
  }

  /** Showing the list opens another session than `open`. */
  ghost predicate Replaces(rows: seq<Session>, mode: Mode, wanted: Option<string>, open: Option<string>) {
    if Keeps(rows, mode, wanted) then wanted != open else !IsNewest(rows, mode, open)
  }

  /** A step changes which conversation is open exactly when it is one of these. */
  lemma NextSelectsIff(w: World, step: Step)
    ensures Next(w, step).client.active != w.client.active <==> IsReselection(w, step)
  {
    NextOpensIff(w, step, w.client.active);
  }

  /** In particular a list that lands, a refresh or startup's, and still holds the open conversation leaves it open. */
  lemma LandingKeepsOpen(w: World, r: nat)
    requires IsOpenRead(w, r) && w.lists[r].reply.Some?
    requires Keeps(w.lists[r].reply.value.rows, w.lists[r].mode, w.client.active)
    ensures Next(w, DeliverRead(r)).client.active == w.client.active
  {
    NextSelectsIff(w, DeliverRead(r));
  }

  ghost predicate NoReselection(w: World, steps: seq<Step>) {
    forall n :: 0 <= n < |steps| ==> !IsReselection(Exec(w, steps[..n]), steps[n])
  }

  /** Over every run without such a step the open conversation stays open. */
  lemma {:induction false} OpenStaysOpen(w: World, steps: seq<Step>)
    requires NoReselection(w, steps)
    ensures Exec(w, steps).client.active == w.client.active
  {
    if steps != [] {
      var front := steps[..|steps| - 1];
      forall n | 0 <= n < |front| ensures !IsReselection(Exec(w, front[..n]), front[n]) {
        assert front[..n] == steps[..n];
      }
      OpenStaysOpen(w, front);
      NextSelectsIff(Exec(w, front), steps[|steps| - 1]);
    }
  }
}
