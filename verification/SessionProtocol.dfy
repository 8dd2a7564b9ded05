/** Client, server and network around src/session-list-guard.ts: list requests and mutations are in flight
    together and every reply is served, lost or delivered in any order. */
module SessionProtocol {
  import opened Common
  import opened ModeSessions
  import opened SessionClient

  // ---- The server ------------------------------------------------------------------------

  datatype Mutation = Created(s: Session) | Deleted(id: string) | Renamed(id: string, title: string)

  function IdOf(m: Mutation): string {
    match m
    case Created(s) => s.id
    case Deleted(id) => id
    case Renamed(id, _) => id
  }

  function Applied(rows: seq<Session>, mode: Mode, m: Mutation): seq<Session> {
    match m
    case Created(s) => if InMode(s, mode) then [s] + rows else rows
    case Deleted(id) => WithoutId(rows, id)
    case Renamed(id, title) => Retitled(rows, id, title)
  }

  /** The sessions of one space after the committed mutations. */
  function Rows(log: seq<Mutation>, mode: Mode): seq<Session> {
    if log == [] then [] else Applied(Rows(log[..|log| - 1], mode), mode, log[|log| - 1])
  }

  /** A session id is new when it is created and is never used again. */
  predicate IsNewId(log: seq<Mutation>, id: string) {
    forall m :: m in log ==> IdOf(m) != id
  }

  // ---- Requests in flight ----------------------------------------------------------------

  /** The server's answer: what it held when it had committed `version` mutations, in whatever order. */
  datatype Reading = Reading(version: nat, rows: seq<Session>)

  datatype Read = Read(ticket: nat, mode: Mode, startup: bool, reply: Option<Reading>, done: bool)

  datatype Op = CreateIn(mode: Mode) | DeleteOf(id: string) | RenameTo(id: string, title: string)

  /** Startup's own create remembers its ticket and mode; `version` is that of the empty list that caused it. */
  datatype Origin = ByUser | ByStartup(ticket: nat, mode: Mode, version: nat)

  datatype Write = Write(op: Op, origin: Origin, committed: Option<nat>, done: bool)

  predicate Fulfils(op: Op, m: Mutation) {
    match op
    case CreateIn(mode) => m.Created? && InMode(m.s, mode)
    case DeleteOf(id) => m == Deleted(id)
    case RenameTo(id, _) => m.Renamed? && m.id == id
  }

  /** A list that landed: its ticket, its content, and how many mutations were acknowledged before. */
  datatype Landing = Landing(ticket: nat, mode: Mode, reading: Reading, acks: nat)

  /** `acked` holds the log positions of the acknowledged mutations in the order of their
      acknowledgement, `base` the space whose list was applied last. */
  datatype World = World(
    log: seq<Mutation>, client: Client, lists: seq<Read>, writes: seq<Write>,
    acked: seq<nat>, landed: seq<Landing>, base: Option<Mode>)

  function Initial(mode: Mode, memory: PerMode): World {
    World([], Client(0, mode, [], Recall(memory, mode), memory), [], [], [], [], None)
  }

  // ---- Steps -----------------------------------------------------------------------------

  /** A list request takes its ticket and is sent. */
  function Begun(w: World, startup: bool): World {
    var c := Invalidated(w.client);
    w.(client := c, lists := w.lists + [Read(c.generation, c.mode, startup, None, false)])
  }

  predicate IsOpenRead(w: World, r: nat) {
    r < |w.lists| && !w.lists[r].done
  }

  predicate IsOpenWrite(w: World, k: nat) {
    k < |w.writes| && !w.writes[k].done
  }

  function ReadServed(w: World, r: nat, rows: seq<Session>): World {
    if IsOpenRead(w, r) && w.lists[r].reply.None? && multiset(rows) == multiset(Rows(w.log, w.lists[r].mode))
    then w.(lists := w.lists[r := w.lists[r].(reply := Some(Reading(|w.log|, rows)))])
    else w
  }

  function Closed(w: World, r: nat): World
    requires r < |w.lists|
  {
    w.(lists := w.lists[r := w.lists[r].(done := true)])
  }

  function ListApplied(w: World, x: Read, c: Client): World
    requires x.reply.Some?
  {
    w.(client := c, landed := w.landed + [Landing(x.ticket, x.mode, x.reply.value, |w.acked|)], base := Some(x.mode))
  }

  function RefreshDelivered(w: World, x: Read): World
    requires x.reply.Some?
  {
    var c := Refreshed(w.client, x.ticket, x.mode, x.reply.value.rows);
    if Lands(w.client, x.ticket, x.mode) then ListApplied(w, x, c) else w.(client := c)
  }

  function StartupDelivered(w: World, x: Read): World
    requires x.reply.Some?
  {
    match OnInitList(w.client, x.ticket, x.mode, x.reply.value.rows)
    case CreateFirst =>
      w.(writes := w.writes + [Write(CreateIn(x.mode), ByStartup(x.ticket, x.mode, x.reply.value.version), None, false)])
    case Delegate => Begun(w, false)
    case Apply => ListApplied(w, x, InitShown(w.client, x.mode, x.reply.value.rows))
  }

  function ReadDelivered(w: World, r: nat): World {
    if IsOpenRead(w, r) && w.lists[r].reply.Some? then
      if w.lists[r].startup then StartupDelivered(Closed(w, r), w.lists[r]) else RefreshDelivered(Closed(w, r), w.lists[r])
    else w
  }

  function Committed(w: World, k: nat, m: Mutation): World {
    if IsOpenWrite(w, k) && w.writes[k].committed.None? && Fulfils(w.writes[k].op, m)
       && (m.Created? ==> IsNewId(w.log, m.s.id))
    then w.(log := w.log + [m], writes := w.writes[k := w.writes[k].(committed := Some(|w.log|))])
    else w
  }

  predicate IsAckable(w: World, k: nat) {
    IsOpenWrite(w, k) && w.writes[k].committed.Some? && w.writes[k].committed.value < |w.log|
  }

  function MutationApplied(c: Client, m: Mutation): Client {
    match m
    case Created(s) => CreateApplied(c, s)
    case Deleted(id) => DeleteApplied(c, id)
    case Renamed(id, title) => RenameApplied(c, id, title)
  }

  function Receipt(w: World, k: nat): World
    requires IsAckable(w, k)
  {
    w.(writes := w.writes[k := w.writes[k].(done := true)], acked := w.acked + [w.writes[k].committed.value])
  }

  /** Startup's own create came back: shown alone, or left to a refresh, and incomplete until that lands. */
  function StartupAcknowledged(w: World, ticket: nat, mode: Mode, s: Session): World {
    var c := Invalidated(w.client);
    if OnInitCreate(w.client, ticket, mode).Apply? then w.(client := InitShown(c, mode, [s]), base := Some(mode))
    else Begun(w.(client := c, base := None), false)
  }

  function Acknowledged(w: World, k: nat): World {
    if !IsAckable(w, k) then w
    else
      var w1, m, origin := Receipt(w, k), w.log[w.writes[k].committed.value], w.writes[k].origin;
      if origin.ByStartup? && m.Created? then StartupAcknowledged(w1, origin.ticket, origin.mode, m.s)
      else w1.(client := MutationApplied(w.client, m))
  }

  function ModeSet(w: World, mode: Mode): World {
    if mode == w.client.mode then w else Begun(w.(client := Switched(w.client, mode)), false)
  }

  datatype Step =
    | Refresh
    | StartUp
    | ServeRead(r: nat, rows: seq<Session>)
    | DeliverRead(r: nat)
    | LoseRead(r: nat)
    | Send(op: Op)
    | Commit(k: nat, m: Mutation)
    | Acknowledge(k: nat)
    | LoseWrite(k: nat)
    | SetMode(mode: Mode)
    | Select(id: Option<string>)

  /** What the user asks for: a create is always in the present mode. */
  function Asked(w: World, op: Op): Op {
    if op.CreateIn? then CreateIn(w.client.mode) else op
  }

  function Next(w: World, step: Step): World {
    match step
    case Refresh => Begun(w, false)
    case StartUp => Begun(w, true)
    case ServeRead(r, rows) => ReadServed(w, r, rows)
    case DeliverRead(r) => ReadDelivered(w, r)
    case LoseRead(r) => if IsOpenRead(w, r) then Closed(w, r) else w
    case Send(op) => w.(writes := w.writes + [Write(Asked(w, op), ByUser, None, false)])
    case Commit(k, m) => Committed(w, k, m)
    case Acknowledge(k) => Acknowledged(w, k)
    case LoseWrite(k) => if IsOpenWrite(w, k) then w.(writes := w.writes[k := w.writes[k].(done := true)]) else w
    case SetMode(mode) => ModeSet(w, mode)
    case Select(id) => w.(client := Selected(w.client, id))
  }

  function Exec(w: World, steps: seq<Step>): World {
    if steps == [] then w else Next(Exec(w, steps[..|steps| - 1]), steps[|steps| - 1])
  }

  /** A run leads from `w` to `w'`. */
  ghost predicate Reaches(w: World, w': World) {
    exists steps :: Exec(w, steps) == w'
  }

  lemma ReachNext(w: World, w1: World, step: Step)
    requires Reaches(w, w1)
    ensures Reaches(w, Next(w1, step))
  {
    var steps :| Exec(w, steps) == w1;
    assert (steps + [step])[..|steps|] == steps;
    assert Exec(w, steps + [step]) == Next(w1, step);
  }

  lemma CreateSent(w: World)
    requires w.writes == []
    ensures Next(w, Send(CreateIn(w.client.mode))) == w.(writes := [Write(CreateIn(w.client.mode), ByUser, None, false)])
  {
  }

  lemma CreateCommitted(w: World, s: Session, mode: Mode)
    requires w.writes == [Write(CreateIn(mode), ByUser, None, false)] && w.log == [] && InMode(s, mode)
    ensures Next(w, Commit(0, Created(s))) == w.(log := [Created(s)], writes := [Write(CreateIn(mode), ByUser, Some(0), false)])
  {
  }

  // ---- What the server holds -------------------------------------------------------------

  /** No id is created twice or after it was used. */
  ghost predicate LogOk(log: seq<Mutation>) {
    forall i, j :: 0 <= i < j < |log| && log[j].Created? ==> IdOf(log[i]) != log[j].s.id
  }

  /** A deleted session is in no list the server answers from then on. */
  lemma {:induction false} DeletedIsGone(log: seq<Mutation>, mode: Mode, d: nat)
    requires LogOk(log) && d < |log| && log[d].Deleted?
    ensures !HasId(Rows(log, mode), log[d].id)
  {
    var n := |log| - 1;
    var rows, id := Rows(log[..n], mode), log[d].id;
    if d < n {
      DeletedIsGone(log[..n], mode, d);
    }
    match log[n]
    case Created(s) =>
    case Deleted(other) => WithoutIdHas(rows, other, id);
    case Renamed(other, title) => RetitledHas(rows, other, title, id);
  }

  ghost predicate NeverDeleted(log: seq<Mutation>, id: string) {
    forall i :: 0 <= i < |log| ==> log[i] != Deleted(id)
  }

  /** A created session that was not deleted is in every list of its space from then on. */
  lemma {:induction false} CreatedIsListed(log: seq<Mutation>, c: nat)
    requires c < |log| && log[c].Created? && NeverDeleted(log, log[c].s.id)
    ensures HasId(Rows(log, SessionMode(log[c].s)), log[c].s.id)
  {
    var n := |log| - 1;
    var mode, id := SessionMode(log[c].s), log[c].s.id;
    var rows := Rows(log[..n], mode);
    if c < n {
      CreatedIsListed(log[..n], c);
      match log[n] {
        case Created(s) => assert forall x :: x in rows ==> x in Applied(rows, mode, log[n]);
        case Deleted(other) => WithoutIdHas(rows, other, id);
        case Renamed(other, title) => RetitledHas(rows, other, title, id);
      }
    } else {
      assert Applied(rows, mode, log[n])[0].id == id;
    }
  }

  /** Every row belongs to the space that was asked for. */
  lemma {:induction false} RowsInMode(log: seq<Mutation>, mode: Mode)
    ensures forall s :: s in Rows(log, mode) ==> InMode(s, mode)
  {
    if log != [] {
      var n := |log| - 1;
      var rows := Rows(log[..n], mode);
      RowsInMode(log[..n], mode);
      match log[n]
      case Created(s) =>
      case Deleted(id) => WithoutIdMembers(rows, id);
      case Renamed(id, title) =>
        forall s | s in Retitled(rows, id, title) ensures InMode(s, mode) {
          var k :| 0 <= k < |rows| && Retitled(rows, id, title)[k] == s;
          RetitledAt(rows, id, title, k);
          assert rows[k] in rows;
        }
    }
  }

  predicate Titles(m: Mutation, id: string) {
    IdOf(m) == id && !m.Deleted?
  }

  function TitleOf(m: Mutation): string
    requires !m.Deleted?
  {
    if m.Created? then m.s.title else m.title
  }

  /** A row after one more mutation was titled by it, or was there before and is not renamed by it. */
  lemma RowBefore(rows: seq<Session>, mode: Mode, m: Mutation, s: Session)
    requires s in Applied(rows, mode, m)
    ensures (Titles(m, s.id) && TitleOf(m) == s.title) || (s in rows && !(m.Renamed? && m.id == s.id))
  {
    match m
    case Created(_) =>
    case Deleted(id) => WithoutIdMembers(rows, id);
    case Renamed(id, title) =>
      var i :| 0 <= i < |rows| && Retitled(rows, id, title)[i] == s;
      RetitledAt(rows, id, title, i);
  }

  /** No mutation after `k` titles the id. */
  ghost predicate IsLastTitling(log: seq<Mutation>, k: nat, s: Session) {
    && k < |log| && Titles(log[k], s.id) && TitleOf(log[k]) == s.title
    && forall j :: k < j < |log| ==> !Titles(log[j], s.id)
  }

  lemma LastTitlingSnoc(log: seq<Mutation>, k: nat, s: Session)
    requires log != [] && LogOk(log) && IsLastTitling(log[..|log| - 1], k, s)
    requires !(log[|log| - 1].Renamed? && log[|log| - 1].id == s.id)
    ensures IsLastTitling(log, k, s)
  {
  }

  /** The title of a row was set by the last mutation that titled its id. */
  lemma {:induction false} RowTitle(log: seq<Mutation>, mode: Mode, s: Session) returns (k: nat)
    requires s in Rows(log, mode) && LogOk(log)
    ensures IsLastTitling(log, k, s)
  {
    var n := |log| - 1;
    RowBefore(Rows(log[..n], mode), mode, log[n], s);
    if Titles(log[n], s.id) && TitleOf(log[n]) == s.title {
      k := n;
    } else {
      k := RowTitle(log[..n], mode, s);
      LastTitlingSnoc(log, k, s);
    }
  }

  lemma SameRowsSameIds(a: seq<Session>, b: seq<Session>, id: string)
    requires multiset(a) == multiset(b)
    ensures HasId(a, id) <==> HasId(b, id)
  {
    assert forall s :: s in a <==> s in multiset(a);
    assert forall s :: s in b <==> s in multiset(b);
  }
}
