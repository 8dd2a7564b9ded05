/** When the sidebar of one conversation space lists a session of the other. */
module SessionSpaces {
  import opened ModeSessions
  import opened SessionClient
  import opened SessionProtocol
  import opened SessionSafety

  /** Every displayed session belongs to the present space. */
  ghost predicate OwnRowsOnly(c: Client) {
    forall s :: s in c.sessions ==> InMode(s, c.mode)
  }

  /** The two ways a foreign session gets displayed: a switch while sessions of the old space are listed, until the
      next list lands, and the reply of a create that was sent from the other space. */
  predicate MixesSpaces(w: World, step: Step) {
    || (step.SetMode? && step.mode != w.client.mode && w.client.sessions != [])
    || (step.Acknowledge? && IsAckable(w, step.k) && w.writes[step.k].origin.ByUser?
        && var m := w.log[w.writes[step.k].committed.value]; m.Created? && !InMode(m.s, w.client.mode))
  }

  lemma ListedInMode(w: World, reading: Reading, mode: Mode)
    requires Holds(w, reading, mode)
    ensures forall s :: s in reading.rows ==> InMode(s, mode)
  {
    var rows := Rows(w.log[..reading.version], mode);
    RowsInMode(w.log[..reading.version], mode);
    forall s | s in reading.rows ensures InMode(s, mode) {
      assert s in multiset(reading.rows) && s in multiset(rows);
    }
  }

  lemma DeliveredOwn(w: World, r: nat)
    requires Inv(w) && OwnRowsOnly(w.client)
    ensures OwnRowsOnly(ReadDelivered(w, r).client)
  {
    if IsOpenRead(w, r) && w.lists[r].reply.Some? {
      assert ReadOk(w, r);
      ListedInMode(w, w.lists[r].reply.value, w.lists[r].mode);
    }
  }

  lemma RetitledOwn(rows: seq<Session>, id: string, title: string, mode: Mode)
    requires forall s :: s in rows ==> InMode(s, mode)
    ensures forall s :: s in Retitled(rows, id, title) ==> InMode(s, mode)
  {
    var after := Retitled(rows, id, title);
    forall s | s in after ensures InMode(s, mode) {
      var k :| 0 <= k < |after| && after[k] == s;
      RetitledAt(rows, id, title, k);
      assert rows[k] in rows;
    }
  }

  lemma MutationOwnIff(c: Client, m: Mutation)
    requires OwnRowsOnly(c)
    ensures OwnRowsOnly(MutationApplied(c, m)) <==> (m.Created? ==> InMode(m.s, c.mode))
  {
    match m
    case Created(s) =>
      WithoutIdMembers(c.sessions, s.id);
      assert MutationApplied(c, m).sessions[0] == s;
    case Deleted(id) => WithoutIdMembers(c.sessions, id);
    case Renamed(id, title) => RetitledOwn(c.sessions, id, title, c.mode);
  }

  lemma AcknowledgedOwnIff(w: World, k: nat)
    requires Inv(w) && OwnRowsOnly(w.client)
    ensures OwnRowsOnly(Acknowledged(w, k).client) <==> !MixesSpaces(w, Acknowledge(k))
  {
    if IsAckable(w, k) {
      assert WriteOk(w, k);
      MutationOwnIff(w.client, w.log[w.writes[k].committed.value]);
    }
  }

  lemma SwitchOwnIff(w: World, mode: Mode)
    requires OwnRowsOnly(w.client)
    ensures OwnRowsOnly(ModeSet(w, mode).client) <==> !MixesSpaces(w, SetMode(mode))
  {
    if mode != w.client.mode && w.client.sessions != [] {
      assert w.client.sessions[0] in w.client.sessions;
    }
  }

  /** Every step keeps foreign sessions out of the sidebar, except exactly those two. */
  lemma NextOwnIff(w: World, step: Step)
    requires Inv(w) && OwnRowsOnly(w.client)
    ensures OwnRowsOnly(Next(w, step).client) <==> !MixesSpaces(w, step)
  {
    match step
    case DeliverRead(r) => DeliveredOwn(w, r);
    case Acknowledge(k) => AcknowledgedOwnIff(w, k);
    case SetMode(mode) => SwitchOwnIff(w, mode);
    case _ =>
  }

  /** A list that lands puts it right, whatever was displayed before. */
  lemma LandingSeparates(w: World, r: nat)
    requires Inv(w) && IsOpenRead(w, r) && w.lists[r].reply.Some? && !w.lists[r].startup
    requires Lands(w.client, w.lists[r].ticket, w.lists[r].mode)
    ensures OwnRowsOnly(ReadDelivered(w, r).client)
  {
    assert ReadOk(w, r);
    ListedInMode(w, w.lists[r].reply.value, w.lists[r].mode);
  }

  ghost predicate NeverMixes(w: World, steps: seq<Step>) {
    forall n :: 0 <= n < |steps| ==> !MixesSpaces(Exec(w, steps[..n]), steps[n])
  }

  /** Over every run without them the sidebar lists the present space only. */
  lemma {:induction false} SpacesStayApart(mode: Mode, memory: PerMode, steps: seq<Step>)
    requires NeverMixes(Initial(mode, memory), steps)
    ensures OwnRowsOnly(Exec(Initial(mode, memory), steps).client)
  {
    if steps != [] {
      var n := |steps| - 1;
      var front := steps[..n];
      forall i | 0 <= i < n ensures !MixesSpaces(Exec(Initial(mode, memory), front[..i]), front[i]) {
        assert front[..i] == steps[..i];
      }
      SpacesStayApart(mode, memory, front);
      RunIsSound(mode, memory, front);
      NextOwnIff(Exec(Initial(mode, memory), front), steps[n]);
    }
  }
}
