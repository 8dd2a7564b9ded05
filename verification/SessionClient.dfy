/** The session-list side of the client: what the refresh and mutation callers of src/store.ts and the
    startup of src/agent-init.ts do to the list, the selection and the per-space memory. */
module SessionClient {
  import opened Common
  import opened ModeSessions
  import opened SessionListGuard

  datatype Client = Client(generation: nat, mode: Mode, sessions: seq<Session>, active: Option<string>, memory: PerMode)

  function Invalidated(c: Client): Client {
    c.(generation := c.generation + 1)
  }

  /** A list is shown and the selection re-resolved inside it. */
  function Shown(c: Client, mode: Mode, rows: seq<Session>, remembered: Option<string>): Client {
    var active := ResolveActive(rows, mode, remembered);
    c.(sessions := rows, active := active, memory := RememberActive(c.memory, mode, active))
  }

  /** May a response with this ticket, asked for in this mode, land? */
  predicate Lands(c: Client, ticket: nat, mode: Mode) {
    c.mode == mode && ticket == c.generation
  }

  function Refreshed(c: Client, ticket: nat, mode: Mode, rows: seq<Session>): Client {
    if Lands(c, ticket, mode) then Shown(c, mode, rows, c.active) else c
  }

  function WithoutId(sessions: seq<Session>, id: string): seq<Session> {
    Filter(sessions, (s: Session) => s.id != id)
  }

  function Retitled(sessions: seq<Session>, id: string, title: string): (r: seq<Session>)
    ensures |r| == |sessions|
  {
    if sessions == [] then []
    else
      var s := sessions[0];
      [if s.id == id then s.(title := title) else s] + Retitled(sessions[1..], id, title)
  }

  /** The create was acknowledged: the session comes first, once, and is selected in the present mode. */
  function CreateApplied(c: Client, s: Session): Client {
    c.(generation := c.generation + 1, sessions := [s] + WithoutId(c.sessions, s.id),
       active := Some(s.id), memory := RememberActive(c.memory, c.mode, Some(s.id)))
  }

  function DeleteApplied(c: Client, id: string): Client {
    var rows := WithoutId(c.sessions, id);
    Shown(Invalidated(c), c.mode, rows, if c.active == Some(id) then None else c.active)
  }

  function RenameApplied(c: Client, id: string, title: string): Client {
    c.(generation := c.generation + 1, sessions := Retitled(c.sessions, id, title))
  }

  /** The switch itself; the refresh that follows takes its own ticket. */
  function Switched(c: Client, mode: Mode): Client {
    var memory := RememberActive(c.memory, c.mode, c.active);
    c.(generation := c.generation + 1, mode := mode, active := Recall(memory, mode), memory := memory)
  }

  function Selected(c: Client, id: Option<string>): Client {
    if c.active == id then c else c.(active := id, memory := RememberActive(c.memory, c.mode, id))
  }

  /** The selection startup tries to keep. */
  function Current(c: Client, mode: Mode): Option<string> {
    if c.active.Some? then c.active else Recall(c.memory, mode)
  }

  /** What startup does with its list: create the first session, leave it to a refresh, or show it. */
  datatype Startup = CreateFirst | Delegate | Apply

  function OnInitList(c: Client, ticket: nat, mode: Mode, rows: seq<Session>): Startup {
    if ticket == c.generation && rows == [] then CreateFirst
    else if ticket != c.generation || c.mode != mode then Delegate
    else Apply
  }

  /** ... and with its own create: the ticket is read before the create invalidates it. */
  function OnInitCreate(c: Client, ticket: nat, mode: Mode): Startup {
    if ticket != c.generation || c.mode != mode then Delegate else Apply
  }

  function InitShown(c: Client, mode: Mode, rows: seq<Session>): Client {
    Shown(c, mode, rows, Current(c, mode))
  }

  // ---- The store -------------------------------------------------------------------------

  class Store {
    const guard: Guard
    var mode: Mode
    var sessions: seq<Session>
    var active: Option<string>
    var memory: PerMode

    constructor (mode: Mode, memory: PerMode)
      ensures fresh(guard) && State() == Client(0, mode, [], Recall(memory, mode), memory)
    {
      guard := new Guard();
      this.mode, this.sessions := mode, [];
      this.active, this.memory := Recall(memory, mode), memory;
    }

    ghost function State(): Client
      reads this, guard
    {
      Client(guard.generation, mode, sessions, active, memory)
    }

    method BeginRefresh() returns (ticket: nat, asked: Mode)
      modifies guard
      ensures State() == Invalidated(old(State())) && ticket == guard.generation && asked == mode
    {
      asked := mode;
      ticket := guard.Begin();
    }

    method Show(asked: Mode, rows: seq<Session>, remembered: Option<string>)
      modifies this
      ensures State() == Shown(old(State()), asked, rows, remembered)
    {
      var resolved := ResolveActive(rows, asked, remembered);
      sessions := rows;
      active := resolved;
      memory := RememberActive(memory, asked, resolved);
    }

    method LandRefresh(ticket: nat, asked: Mode, rows: seq<Session>)
      modifies this
      ensures State() == Refreshed(old(State()), ticket, asked, rows)
    {
      if mode != asked {
        return;
      }
      if !guard.IsActive(ticket) {
        return;
      }
      Show(asked, rows, active);
    }

    method CreateAcknowledged(s: Session)
      modifies this, guard
      ensures State() == CreateApplied(old(State()), s)
    {
      guard.Invalidate();
      sessions := [s] + WithoutId(sessions, s.id);
      active := Some(s.id);
      memory := RememberActive(memory, mode, Some(s.id));
    }

    method DeleteAcknowledged(id: string)
      modifies this, guard
      ensures State() == DeleteApplied(old(State()), id)
    {
      guard.Invalidate();
      Show(mode, WithoutId(sessions, id), if active == Some(id) then None else active);
    }

    method RenameAcknowledged(id: string, title: string)
      modifies this, guard
      ensures State() == RenameApplied(old(State()), id, title)
    {
      guard.Invalidate();
      sessions := Retitled(sessions, id, title);
    }

    /** The part of `setMode` before its refresh. */
    method SetMode(target: Mode)
      modifies this, guard
      ensures State() == if target == old(mode) then old(State()) else Switched(old(State()), target)
    {
      if mode == target {
        return;
      }
      memory := RememberActive(memory, mode, active);
      guard.Invalidate();
      mode := target;
      active := Recall(memory, target);
    }

    method SelectSession(id: Option<string>)
      modifies this
      ensures State() == Selected(old(State()), id)
    {
      if active == id {
        return;
      }
      active := id;
      memory := RememberActive(memory, mode, id);
    }

    /** The continuation of startup's list request: `next` says how it goes on. */
    method InitListed(ticket: nat, asked: Mode, rows: seq<Session>) returns (next: Startup)
      modifies this
      ensures next == OnInitList(old(State()), ticket, asked, rows)
      ensures State() == if next.Apply? then InitShown(old(State()), asked, rows) else old(State())
    {
      var superseded := !guard.IsActive(ticket);
      if !superseded && |rows| == 0 {
        return CreateFirst;
      }
      if !superseded && mode != asked {
        superseded := true;
      }
      if superseded {
        return Delegate;
      }
      InitShow(asked, rows);
      return Apply;
    }

    /** The continuation of startup's own create. */
    method InitCreated(ticket: nat, asked: Mode, s: Session) returns (next: Startup)
      modifies this, guard
      ensures next == OnInitCreate(old(State()), ticket, asked)
      ensures State() == if next.Apply? then InitShown(Invalidated(old(State())), asked, [s]) else Invalidated(old(State()))
    {
      var superseded := !guard.IsActive(ticket);
      guard.Invalidate();
      if !superseded && mode != asked {
        superseded := true;
      }
      if superseded {
        return Delegate;
      }
      InitShow(asked, [s]);
      return Apply;
    }

    method InitShow(asked: Mode, rows: seq<Session>)
      modifies this
      ensures State() == InitShown(old(State()), asked, rows)
    {
      var current := if active.Some? then active else Recall(memory, asked);
      PrefilterIsRedundant(rows, asked, current);
      var resolved := ResolveActive(FilterByMode(rows, asked), asked, current);
      sessions := rows;
      active := resolved;
      memory := RememberActive(memory, asked, resolved);
    }
  }

  // ---- Facts about single steps ----------------------------------------------------------

  /** Taking a session out takes exactly that id out. */
  lemma WithoutIdMembers(sessions: seq<Session>, id: string)
    ensures forall s :: s in WithoutId(sessions, id) <==> s in sessions && s.id != id
  {
    FilterMembers(sessions, (s: Session) => s.id != id);
  }

  lemma WithoutIdHas(sessions: seq<Session>, id: string, other: string)
    ensures HasId(WithoutId(sessions, id), other) <==> other != id && HasId(sessions, other)
  {
    WithoutIdMembers(sessions, id);
  }

  /** A rename keeps every row in place and changes one title. */
  lemma {:induction false} RetitledAt(sessions: seq<Session>, id: string, title: string, k: nat)
    requires k < |sessions|
    ensures Retitled(sessions, id, title)[k] == if sessions[k].id == id then sessions[k].(title := title) else sessions[k]
  {
    if k > 0 {
      RetitledAt(sessions[1..], id, title, k - 1);
    }
  }

  lemma RetitledHas(sessions: seq<Session>, id: string, title: string, other: string)
    ensures HasId(Retitled(sessions, id, title), other) <==> HasId(sessions, other)
  {
    var rows := Retitled(sessions, id, title);
    forall k | 0 <= k < |sessions| ensures rows[k].id == sessions[k].id {
      RetitledAt(sessions, id, title, k);
    }
    if HasId(sessions, other) {
      var k :| 0 <= k < |sessions| && sessions[k].id == other;
      assert rows[k] in rows && rows[k].id == other;
    }
    if HasId(rows, other) {
      var k :| 0 <= k < |rows| && rows[k].id == other;
      assert sessions[k] in sessions && sessions[k].id == other;
    }
  }

  /** A shown list leaves a selection inside it and its space, null exactly when that space is empty, and
      the other space's memory untouched. */
  lemma ShownSelection(c: Client, mode: Mode, rows: seq<Session>, remembered: Option<string>)
    ensures var c' := Shown(c, mode, rows, remembered);
            && (c'.active.Some? ==> InSpace(rows, mode, c'.active.value))
            && (c'.active.None? <==> forall s :: s in rows ==> !InMode(s, mode))
            && Recall(c'.memory, mode) == c'.active
            && forall other :: other != mode ==> Recall(c'.memory, other) == Recall(c.memory, other)
  {
    ResolvedSelection(rows, mode, remembered);
  }

  /** An acknowledged create selects the new session and lists it once. The mode it is remembered for is
      the present one, so the present space's memory stays inside that space exactly when the session
      belongs to it: a create acknowledged after a mode switch puts a foreign session into both. */
  lemma CreateStaysInSpaceIff(c: Client, s: Session)
    ensures var c' := CreateApplied(c, s);
            && c'.active == Some(s.id) == Recall(c'.memory, c.mode)
            && c'.sessions[0] == s && !HasId(c'.sessions[1..], s.id)
            && (InSpace(c'.sessions, c.mode, s.id) <==> InMode(s, c.mode))
  {
    var c' := CreateApplied(c, s);
    assert c'.sessions[1..] == WithoutId(c.sessions, s.id);
    WithoutIdMembers(c.sessions, s.id);
    assert c'.sessions[0] in c'.sessions;
    forall t | t in c'.sessions && t.id == s.id ensures t == s {
      if t in c'.sessions[1..] {
        assert false;
      }
    }
  }
}
