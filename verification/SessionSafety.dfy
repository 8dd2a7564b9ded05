/** What the generation guard of src/session-list-guard.ts promises, over every run of the protocol. */
module SessionSafety {
  import opened Common
  import opened ModeSessions
  import opened SessionClient
  import opened SessionProtocol

  // ---- The invariant ---------------------------------------------------------------------

  predicate IsActive(w: World, x: Read) {
    !x.done && x.ticket == w.client.generation
  }

  /** The rows are what the server held at that version. */
  ghost predicate Holds(w: World, reading: Reading, mode: Mode) {
    reading.version <= |w.log| && multiset(reading.rows) == multiset(Rows(w.log[..reading.version], mode))
  }

  ghost predicate AckedBefore(w: World, version: nat) {
    forall i :: 0 <= i < |w.acked| ==> w.acked[i] < version
  }

  ghost predicate LandedBefore(w: World, version: nat) {
    forall i :: 0 <= i < |w.landed| ==> w.landed[i].reading.version <= version
  }

  ghost predicate IsNewest(w: World, ticket: nat) {
    forall i :: 0 <= i < |w.landed| ==> w.landed[i].ticket < ticket
  }

  ghost predicate ActiveOk(w: World, x: Read) {
    && x.mode == w.client.mode && IsNewest(w, x.ticket)
    && (x.reply.Some? ==> AckedBefore(w, x.reply.value.version) && LandedBefore(w, x.reply.value.version))
  }

  ghost predicate ReadOk(w: World, r: nat) {
    r < |w.lists| ==>
      var x := w.lists[r];
      && x.ticket <= w.client.generation
      && (x.reply.Some? ==> Holds(w, x.reply.value, x.mode))
      && (IsActive(w, x) ==> ActiveOk(w, x))
  }

  ghost predicate TicketsOk(w: World) {
    forall a, b :: 0 <= a < b < |w.lists| ==> w.lists[a].ticket < w.lists[b].ticket
  }

  ghost predicate StartupOk(w: World, x: Write)
    requires x.origin.ByStartup?
  {
    var o := x.origin;
    && x.op == CreateIn(o.mode) && o.ticket <= w.client.generation && o.version <= |w.log|
    && (x.committed.Some? ==> o.version <= x.committed.value)
    && (!x.done && o.ticket == w.client.generation ==>
          o.mode == w.client.mode && Rows(w.log[..o.version], o.mode) == [] && AckedBefore(w, o.version))
  }

  ghost predicate WriteOk(w: World, k: nat) {
    k < |w.writes| ==>
      var x := w.writes[k];
      && (x.committed.Some? ==> x.committed.value < |w.log| && Fulfils(x.op, w.log[x.committed.value]))
      && (x.origin.ByStartup? ==> StartupOk(w, x))
  }

  /** A landed list is the server's content at a version past every mutation acknowledged before. */
  ghost predicate LandingOk(w: World, i: nat) {
    i < |w.landed| ==>
      var l := w.landed[i];
      && l.ticket <= w.client.generation && Holds(w, l.reading, l.mode) && l.acks <= |w.acked|
      && forall j :: 0 <= j < l.acks ==> w.acked[j] < l.reading.version
  }

  ghost predicate LandedInOrder(w: World) {
    forall i, j :: 0 <= i < j < |w.landed| ==>
      w.landed[i].ticket < w.landed[j].ticket && w.landed[i].reading.version <= w.landed[j].reading.version
  }

  ghost predicate Inv(w: World) {
    && LogOk(w.log) && TicketsOk(w) && LandedInOrder(w)
    && (forall i :: 0 <= i < |w.acked| ==> w.acked[i] < |w.log|)
    && (forall r: nat :: ReadOk(w, r))
    && (forall k: nat :: WriteOk(w, k))
    && (forall i: nat :: LandingOk(w, i))
  }

  /** A later generation makes every ticket in flight inactive. */
  lemma BumpKeeps(w: World, c: Client)
    requires Inv(w) && c.generation == w.client.generation + 1
    ensures Inv(w.(client := c))
  {
    var w' := w.(client := c);
    forall r: nat ensures ReadOk(w', r) { assert ReadOk(w, r); }
    forall k: nat ensures WriteOk(w', k) { assert WriteOk(w, k); }
    forall i: nat ensures LandingOk(w', i) { assert LandingOk(w, i); }
  }

  /** Changes of the selection alone are invisible to the protocol. */
  lemma SelectionKeeps(w: World, c: Client)
    requires Inv(w) && c.generation == w.client.generation && c.mode == w.client.mode
    ensures Inv(w.(client := c))
  {
    var w' := w.(client := c);
    forall r: nat ensures ReadOk(w', r) { assert ReadOk(w, r); }
    forall k: nat ensures WriteOk(w', k) { assert WriteOk(w, k); }
    forall i: nat ensures LandingOk(w', i) { assert LandingOk(w, i); }
  }

  lemma BegunKeeps(w: World, startup: bool)
    requires Inv(w)
    ensures Inv(Begun(w, startup))
  {
    var w1 := w.(client := Invalidated(w.client));
    BumpKeeps(w, Invalidated(w.client));
    AskedKeeps(w, w1, startup);
  }

  lemma AskedKeeps(w: World, w1: World, startup: bool)
    requires Inv(w) && Inv(w1) && w1 == w.(client := Invalidated(w.client))
    ensures Inv(Begun(w, startup))
  {
    var w' := Begun(w, startup);
    forall i: nat ensures LandingOk(w', i) { assert LandingOk(w, i); }
    forall k: nat ensures WriteOk(w', k) { assert WriteOk(w1, k); }
    forall r: nat ensures ReadOk(w', r) {
      assert ReadOk(w1, r);
      if r == |w.lists| {
        forall i | 0 <= i < |w.landed| ensures w.landed[i].ticket < w1.client.generation { assert LandingOk(w, i); }
      }
    }
    forall a | 0 <= a < |w.lists| ensures w.lists[a].ticket < w1.client.generation { assert ReadOk(w, a); }
  }

  lemma ServedKeeps(w: World, r: nat, rows: seq<Session>)
    requires Inv(w)
    ensures Inv(ReadServed(w, r, rows))
  {
    var w' := ReadServed(w, r, rows);
    forall k: nat ensures WriteOk(w', k) { assert WriteOk(w, k); }
    forall i: nat ensures LandingOk(w', i) { assert LandingOk(w, i); }
    forall q: nat ensures ReadOk(w', q) {
      assert ReadOk(w, q);
      assert w.log[..|w.log|] == w.log;
      forall i | 0 <= i < |w.landed| ensures w.landed[i].reading.version <= |w.log| { assert LandingOk(w, i); }
    }
  }

  lemma ClosedKeeps(w: World, r: nat)
    requires Inv(w) && r < |w.lists|
    ensures Inv(Closed(w, r))
  {
    var w' := Closed(w, r);
    forall k: nat ensures WriteOk(w', k) { assert WriteOk(w, k); }
    forall i: nat ensures LandingOk(w', i) { assert LandingOk(w, i); }
    forall q: nat ensures ReadOk(w', q) { assert ReadOk(w, q); }
  }

  /** A list lands: its ticket is the newest, so no other one is active. */
  lemma AppliedKeeps(w: World, r: nat, c: Client)
    requires Inv(w) && IsOpenRead(w, r) && w.lists[r].reply.Some? && IsActive(w, w.lists[r])
    requires c.generation == w.client.generation && c.mode == w.client.mode
    ensures Inv(ListApplied(Closed(w, r), w.lists[r], c))
  {
    var w1, x := Closed(w, r), w.lists[r];
    var w' := ListApplied(w1, x, c);
    assert ReadOk(w, r);
    ClosedKeeps(w, r);
    forall k: nat ensures WriteOk(w', k) { assert WriteOk(w1, k); }
    forall i: nat ensures LandingOk(w', i) { assert LandingOk(w1, i); }
    forall q: nat ensures ReadOk(w', q) {
      assert ReadOk(w1, q);
      if q < |w.lists| && q != r {
        assert w.lists[q].ticket != x.ticket;
      }
    }
  }

  lemma CreateFirstKeeps(w: World, r: nat)
    requires Inv(w) && IsOpenRead(w, r) && w.lists[r].reply.Some? && IsActive(w, w.lists[r]) && w.lists[r].reply.value.rows == []
    ensures var x, w1 := w.lists[r], Closed(w, r);
            Inv(w1.(writes := w1.writes + [Write(CreateIn(x.mode), ByStartup(x.ticket, x.mode, x.reply.value.version), None, false)]))
  {
    var x, w1 := w.lists[r], Closed(w, r);
    var write := Write(CreateIn(x.mode), ByStartup(x.ticket, x.mode, x.reply.value.version), None, false);
    var w' := w1.(writes := w1.writes + [write]);
    assert ReadOk(w, r);
    ClosedKeeps(w, r);
    var held := Rows(w.log[..x.reply.value.version], x.mode);
    assert held == [] by { assert |multiset(held)| == |held|; }
    assert StartupOk(w', write);
    forall i: nat ensures LandingOk(w', i) { assert LandingOk(w1, i); }
    forall q: nat ensures ReadOk(w', q) { assert ReadOk(w1, q); }
    forall k: nat ensures WriteOk(w', k) { assert WriteOk(w1, k); }
  }

  lemma DeliveredKeeps(w: World, r: nat)
    requires Inv(w)
    ensures Inv(ReadDelivered(w, r))
  {
    if IsOpenRead(w, r) && w.lists[r].reply.Some? {
      var x := w.lists[r];
      ClosedKeeps(w, r);
      if x.startup {
        match OnInitList(w.client, x.ticket, x.mode, x.reply.value.rows)
        case CreateFirst => CreateFirstKeeps(w, r);
        case Delegate => BegunKeeps(Closed(w, r), false);
        case Apply => AppliedKeeps(w, r, InitShown(w.client, x.mode, x.reply.value.rows));
      } else if Lands(w.client, x.ticket, x.mode) {
        AppliedKeeps(w, r, Refreshed(w.client, x.ticket, x.mode, x.reply.value.rows));
      }
    }
  }

  lemma CommittedKeeps(w: World, k: nat, m: Mutation)
    requires Inv(w)
    ensures Inv(Committed(w, k, m))
  {
    var w' := Committed(w, k, m);
    if w' != w {
      assert forall v: nat | v <= |w.log| :: w'.log[..v] == w.log[..v];
      forall q: nat ensures WriteOk(w', q) { assert WriteOk(w, q); }
      forall i: nat ensures LandingOk(w', i) { assert LandingOk(w, i); }
      forall r: nat ensures ReadOk(w', r) { assert ReadOk(w, r); }
    }
  }

  lemma ReceiptKeeps(w: World, k: nat, c: Client, base: Option<Mode>)
    requires Inv(w) && IsAckable(w, k) && c.generation == w.client.generation + 1
    ensures Inv(Receipt(w, k).(client := c, base := base))
  {
    var w' := Receipt(w, k).(client := c, base := base);
    forall q: nat ensures WriteOk(w', q) { assert WriteOk(w, q); }
    forall i: nat ensures LandingOk(w', i) { assert LandingOk(w, i); }
    forall r: nat ensures ReadOk(w', r) { assert ReadOk(w, r); }
  }

  lemma AcknowledgedKeeps(w: World, k: nat)
    requires Inv(w)
    ensures Inv(Acknowledged(w, k))
  {
    if IsAckable(w, k) {
      var m, o := w.log[w.writes[k].committed.value], w.writes[k].origin;
      if o.ByStartup? && m.Created? {
        var c := Invalidated(w.client);
        if OnInitCreate(w.client, o.ticket, o.mode).Apply? {
          ReceiptKeeps(w, k, InitShown(c, o.mode, [m.s]), Some(o.mode));
        } else {
          ReceiptKeeps(w, k, c, None);
          BegunKeeps(Receipt(w, k).(client := c, base := None), false);
        }
      } else {
        ReceiptKeeps(w, k, MutationApplied(w.client, m), w.base);
      }
    }
  }

  lemma SentKeeps(w: World, op: Op)
    requires Inv(w)
    ensures Inv(w.(writes := w.writes + [Write(op, ByUser, None, false)]))
  {
    var w' := w.(writes := w.writes + [Write(op, ByUser, None, false)]);
    forall q: nat ensures WriteOk(w', q) { assert WriteOk(w, q); }
    forall i: nat ensures LandingOk(w', i) { assert LandingOk(w, i); }
    forall r: nat ensures ReadOk(w', r) { assert ReadOk(w, r); }
  }

  lemma LostKeeps(w: World, k: nat)
    requires Inv(w) && IsOpenWrite(w, k)
    ensures Inv(w.(writes := w.writes[k := w.writes[k].(done := true)]))
  {
    var w' := w.(writes := w.writes[k := w.writes[k].(done := true)]);
    forall q: nat ensures WriteOk(w', q) { assert WriteOk(w, q); }
    forall i: nat ensures LandingOk(w', i) { assert LandingOk(w, i); }
    forall r: nat ensures ReadOk(w', r) { assert ReadOk(w, r); }
  }

  lemma ModeSetKeeps(w: World, mode: Mode)
    requires Inv(w)
    ensures Inv(ModeSet(w, mode))
  {
    if mode != w.client.mode {
      BumpKeeps(w, Switched(w.client, mode));
      BegunKeeps(w.(client := Switched(w.client, mode)), false);
    }
  }

  lemma NextKeeps(w: World, step: Step)
    requires Inv(w)
    ensures Inv(Next(w, step))
  {
    match step
    case Refresh => BegunKeeps(w, false);
    case StartUp => BegunKeeps(w, true);
    case ServeRead(r, rows) => ServedKeeps(w, r, rows);
    case DeliverRead(r) => DeliveredKeeps(w, r);
    case LoseRead(r) => if IsOpenRead(w, r) { ClosedKeeps(w, r); }
    case Send(op) => SentKeeps(w, Asked(w, op));
    case Commit(k, m) => CommittedKeeps(w, k, m);
    case Acknowledge(k) => AcknowledgedKeeps(w, k);
    case LoseWrite(k) => if IsOpenWrite(w, k) { LostKeeps(w, k); }
    case SetMode(mode) => ModeSetKeeps(w, mode);
    case Select(id) => SelectionKeeps(w, Selected(w.client, id));
  }

  lemma InitialIsSound(mode: Mode, memory: PerMode)
    ensures Inv(Initial(mode, memory))
  {
  }

  /** Every world a run reaches, whatever is late, reordered or lost, satisfies the invariant. */
  lemma {:induction false} RunIsSound(mode: Mode, memory: PerMode, steps: seq<Step>)
    ensures Inv(Exec(Initial(mode, memory), steps))
  {
    if steps == [] {
      InitialIsSound(mode, memory);
    } else {
      RunIsSound(mode, memory, steps[..|steps| - 1]);
      NextKeeps(Exec(Initial(mode, memory), steps[..|steps| - 1]), steps[|steps| - 1]);
    }
  }
}
