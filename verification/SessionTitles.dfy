/** Which title the sidebar shows: renames of one session whose replies overtake each other. */
module SessionTitles {
  import opened Common
  import opened ModeSessions
  import opened SessionClient
  import opened SessionProtocol
  import opened SessionSafety

  // ---- Outdated titles -------------------------------------------------------------------

  /** Some mutation at or after `c` gave the id this title. */
  ghost predicate TitledSince(log: seq<Mutation>, c: nat, id: string, title: string) {
    exists k: nat :: IsTitling(log, k, id, title) && c <= k
  }

  predicate IsTitling(log: seq<Mutation>, k: nat, id: string, title: string) {
    k < |log| && Titles(log[k], id) && TitleOf(log[k]) == title
  }

  /** The `i`-th acknowledged mutation titled this id. */
  predicate IsKnownTitling(w: World, i: nat, id: string) {
    i < |w.acked| && w.acked[i] < |w.log| && Titles(w.log[w.acked[i]], id)
  }

  /** The row shows a title from before a titling of its session that was acknowledged. */
  ghost predicate IsOutdatedRow(w: World, s: Session) {
    exists i: nat :: IsKnownTitling(w, i, s.id) && !TitledSince(w.log, w.acked[i], s.id, s.title)
  }

  ghost predicate IsOutdated(w: World) {
    exists s :: s in w.client.sessions && IsOutdatedRow(w, s)
  }

  /** Every displayed title was given to its session by some mutation. */
  ghost predicate Rooted(w: World) {
    forall s :: s in w.client.sessions ==> TitledSince(w.log, 0, s.id, s.title)
  }

  /** A titling is acknowledged of a session that is displayed or becomes so, after a later committed titling of
      it was acknowledged, and its title was not given again from that one on. */
  ghost predicate IsLateTitling(w: World, step: Step) {
    && step.Acknowledge? && IsAckable(w, step.k) && w.writes[step.k].origin.ByUser?
    && var m := w.log[w.writes[step.k].committed.value];
       && !m.Deleted? && (m.Created? || HasId(w.client.sessions, m.id))
       && exists i: nat :: IsKnownTitling(w, i, IdOf(m)) && !TitledSince(w.log, w.acked[i], IdOf(m), TitleOf(m))
  }

  lemma TitledByPrefix(log: seq<Mutation>, version: nat, c: nat, id: string, title: string)
    requires version <= |log| && TitledSince(log[..version], c, id, title)
    ensures TitledSince(log, c, id, title)
  {
    var k: nat :| IsTitling(log[..version], k, id, title) && c <= k;
    assert IsTitling(log, k, id, title);
  }

  /** A row the server listed was titled at or after every titling of its session in the listed version. */
  lemma ListedIsCurrent(w: World, reading: Reading, mode: Mode, s: Session, c: nat)
    requires LogOk(w.log) && Holds(w, reading, mode) && s in reading.rows
    requires c == 0 || (c < reading.version && Titles(w.log[c], s.id))
    ensures TitledSince(w.log, c, s.id, s.title)
  {
    var prefix := w.log[..reading.version];
    assert s in multiset(reading.rows);
    var k := RowTitle(prefix, mode, s);
    if c > 0 {
      assert Titles(prefix[c], s.id);
    }
    assert IsTitling(prefix, k, s.id, s.title);
    TitledByPrefix(w.log, reading.version, c, s.id, s.title);
  }

  // ---- Steps that acknowledge nothing ----------------------------------------------------

  lemma SameTitles(w: World, w': World)
    requires w'.client.sessions == w.client.sessions && w'.acked == w.acked && w.log <= w'.log
    requires forall i :: 0 <= i < |w.acked| ==> w.acked[i] < |w.log|
    requires Rooted(w) && !IsOutdated(w)
    ensures Rooted(w') && !IsOutdated(w')
  {
    assert w'.log[..|w.log|] == w.log;
    forall s | s in w.client.sessions ensures TitledSince(w'.log, 0, s.id, s.title) {
      TitledByPrefix(w'.log, |w.log|, 0, s.id, s.title);
    }
    forall s, i: nat | s in w.client.sessions && IsKnownTitling(w', i, s.id)
      ensures TitledSince(w'.log, w'.acked[i], s.id, s.title)
    {
      assert w'.log[w.acked[i]] == w.log[w.acked[i]];
      assert IsKnownTitling(w, i, s.id) && !IsOutdatedRow(w, s);
      TitledByPrefix(w'.log, |w.log|, w.acked[i], s.id, s.title);
    }
  }

  lemma AppliedTitles(w: World, r: nat, c: Client)
    requires Inv(w) && IsOpenRead(w, r) && w.lists[r].reply.Some? && IsActive(w, w.lists[r])
    requires c.sessions == w.lists[r].reply.value.rows
    ensures Rooted(ListApplied(Closed(w, r), w.lists[r], c)) && !IsOutdated(ListApplied(Closed(w, r), w.lists[r], c))
  {
    var x := w.lists[r];
    var w' := ListApplied(Closed(w, r), x, c);
    assert ReadOk(w, r);
    forall s | s in c.sessions ensures TitledSince(w'.log, 0, s.id, s.title) && !IsOutdatedRow(w', s) {
      ListedIsCurrent(w, x.reply.value, x.mode, s, 0);
      forall i: nat | IsKnownTitling(w', i, s.id) ensures TitledSince(w'.log, w'.acked[i], s.id, s.title) {
        ListedIsCurrent(w, x.reply.value, x.mode, s, w.acked[i]);
      }
    }
  }

  lemma DeliveredTitles(w: World, r: nat)
    requires Inv(w) && Rooted(w) && !IsOutdated(w)
    ensures Rooted(ReadDelivered(w, r)) && !IsOutdated(ReadDelivered(w, r))
  {
    if IsOpenRead(w, r) && w.lists[r].reply.Some? {
      var x := w.lists[r];
      if x.startup && OnInitList(w.client, x.ticket, x.mode, x.reply.value.rows).Apply? {
        AppliedTitles(w, r, InitShown(w.client, x.mode, x.reply.value.rows));
      } else if !x.startup && Lands(w.client, x.ticket, x.mode) {
        AppliedTitles(w, r, Refreshed(w.client, x.ticket, x.mode, x.reply.value.rows));
      } else {
        SameTitles(w, ReadDelivered(w, r));
      }
    }
  }

  // ---- Acknowledgements ------------------------------------------------------------------

  /** The titlings known after one more acknowledgement. */
  lemma ReceiptTitlings(w: World, k: nat, w': World, i: nat, id: string)
    requires IsAckable(w, k) && w'.acked == Receipt(w, k).acked && w'.log == w.log
    ensures i < |w.acked| ==> (IsKnownTitling(w', i, id) <==> IsKnownTitling(w, i, id)) && w'.acked[i] == w.acked[i]
    ensures i == |w.acked| ==>
              (IsKnownTitling(w', i, id) <==> Titles(w.log[w.writes[k].committed.value], id))
              && w'.acked[i] == w.writes[k].committed.value
  {
  }

  /** A row of a session the acknowledged mutation does not title stays as it was. */
  lemma UntouchedRow(w: World, k: nat, w': World, s: Session)
    requires IsAckable(w, k) && w'.acked == Receipt(w, k).acked && w'.log == w.log
    requires !Titles(w.log[w.writes[k].committed.value], s.id)
    ensures IsOutdatedRow(w', s) <==> IsOutdatedRow(w, s)
  {
    forall i: nat ensures IsKnownTitling(w', i, s.id) <==> IsKnownTitling(w, i, s.id) {
      ReceiptTitlings(w, k, w', i, s.id);
    }
    if IsOutdatedRow(w, s) {
      var i: nat :| IsKnownTitling(w, i, s.id) && !TitledSince(w.log, w.acked[i], s.id, s.title);
      ReceiptTitlings(w, k, w', i, s.id);
      assert IsKnownTitling(w', i, s.id) && !TitledSince(w'.log, w'.acked[i], s.id, s.title);
    }
    if IsOutdatedRow(w', s) {
      var i: nat :| IsKnownTitling(w', i, s.id) && !TitledSince(w'.log, w'.acked[i], s.id, s.title);
      ReceiptTitlings(w, k, w', i, s.id);
      assert IsKnownTitling(w, i, s.id) && !TitledSince(w.log, w.acked[i], s.id, s.title);
    }
  }

  /** A row that has just been given the acknowledged title is outdated exactly when a later titling was
      acknowledged before and the title was not given again since. */
  lemma TitledRow(w: World, k: nat, w': World, s: Session)
    requires IsAckable(w, k) && w'.acked == Receipt(w, k).acked && w'.log == w.log
    requires var m := w.log[w.writes[k].committed.value]; Titles(m, s.id) && s.title == TitleOf(m)
    ensures IsOutdatedRow(w', s) <==>
            exists i: nat :: IsKnownTitling(w, i, s.id) && !TitledSince(w.log, w.acked[i], s.id, s.title)
  {
    var c := w.writes[k].committed.value;
    assert IsTitling(w.log, c, s.id, s.title);
    if i: nat :| IsKnownTitling(w, i, s.id) && !TitledSince(w.log, w.acked[i], s.id, s.title) {
      ReceiptTitlings(w, k, w', i, s.id);
      assert IsKnownTitling(w', i, s.id) && !TitledSince(w'.log, w'.acked[i], s.id, s.title);
    }
    if IsOutdatedRow(w', s) {
      var i: nat :| IsKnownTitling(w', i, s.id) && !TitledSince(w'.log, w'.acked[i], s.id, s.title);
      ReceiptTitlings(w, k, w', i, s.id);
      if i == |w.acked| {
        assert false;
      }
    }
  }

  lemma CreateRows(c: Client, x: Session)
    ensures forall s :: s in CreateApplied(c, x).sessions <==> s == x || (s in c.sessions && s.id != x.id)
  {
    WithoutIdMembers(c.sessions, x.id);
    var rest := WithoutId(c.sessions, x.id);
    assert forall s :: s in [x] + rest <==> s == x || s in rest;
  }

  lemma CreateTitlesIff(w: World, k: nat)
    requires Inv(w) && Rooted(w) && !IsOutdated(w) && IsAckable(w, k)
    requires w.writes[k].origin.ByUser? && w.log[w.writes[k].committed.value].Created?
    ensures var w' := Receipt(w, k).(client := CreateApplied(w.client, w.log[w.writes[k].committed.value].s));
            Rooted(w') && (IsOutdated(w') <==> IsLateTitling(w, Acknowledge(k)))
  {
    var c := w.writes[k].committed.value;
    var x := w.log[c].s;
    var w' := Receipt(w, k).(client := CreateApplied(w.client, x));
    CreateRows(w.client, x);
    assert IsTitling(w.log, c, x.id, x.title);
    TitledRow(w, k, w', x);
    forall s | s in w'.client.sessions && s != x ensures !IsOutdatedRow(w', s) {
      UntouchedRow(w, k, w', s);
      assert !IsOutdatedRow(w, s);
    }
    assert x in w'.client.sessions;
  }

  lemma RetitledRows(rows: seq<Session>, id: string, title: string, s: Session)
    ensures s in Retitled(rows, id, title) <==>
            exists t :: t in rows && s == if t.id == id then t.(title := title) else t
  {
    var after := Retitled(rows, id, title);
    if s in after {
      var k :| 0 <= k < |after| && after[k] == s;
      RetitledAt(rows, id, title, k);
      assert rows[k] in rows;
    }
    if t :| t in rows && s == if t.id == id then t.(title := title) else t {
      var k :| 0 <= k < |rows| && rows[k] == t;
      RetitledAt(rows, id, title, k);
      assert after[k] in after;
    }
  }

  lemma RenamedRow(w: World, k: nat, s: Session)
    requires IsAckable(w, k) && w.log[w.writes[k].committed.value].Renamed?
    requires !IsOutdated(w) && Rooted(w)
    requires var m := w.log[w.writes[k].committed.value]; s in Retitled(w.client.sessions, m.id, m.title)
    ensures var m := w.log[w.writes[k].committed.value];
            var w' := Receipt(w, k).(client := RenameApplied(w.client, m.id, m.title));
            && TitledSince(w.log, 0, s.id, s.title)
            && (IsOutdatedRow(w', s) <==>
                  s.id == m.id && exists i: nat :: IsKnownTitling(w, i, m.id) && !TitledSince(w.log, w.acked[i], m.id, m.title))
  {
    var c := w.writes[k].committed.value;
    var m := w.log[c];
    var w' := Receipt(w, k).(client := RenameApplied(w.client, m.id, m.title));
    RetitledRows(w.client.sessions, m.id, m.title, s);
    var t :| t in w.client.sessions && s == if t.id == m.id then t.(title := m.title) else t;
    assert !IsOutdatedRow(w, t) && TitledSince(w.log, 0, t.id, t.title);
    if t.id == m.id {
      assert IsTitling(w.log, c, s.id, s.title);
      TitledRow(w, k, w', s);
    } else {
      UntouchedRow(w, k, w', s);
    }
  }

  lemma RenameTitlesIff(w: World, k: nat)
    requires Inv(w) && Rooted(w) && !IsOutdated(w) && IsAckable(w, k)
    requires w.writes[k].origin.ByUser? && w.log[w.writes[k].committed.value].Renamed?
    ensures var m := w.log[w.writes[k].committed.value];
            var w' := Receipt(w, k).(client := RenameApplied(w.client, m.id, m.title));
            Rooted(w') && (IsOutdated(w') <==> IsLateTitling(w, Acknowledge(k)))
  {
    var m := w.log[w.writes[k].committed.value];
    var w' := Receipt(w, k).(client := RenameApplied(w.client, m.id, m.title));
    forall s | s in w'.client.sessions
      ensures TitledSince(w.log, 0, s.id, s.title)
      ensures IsOutdatedRow(w', s) <==>
              s.id == m.id && exists i: nat :: IsKnownTitling(w, i, m.id) && !TitledSince(w.log, w.acked[i], m.id, m.title)
    {
      RenamedRow(w, k, s);
    }
    RetitledHas(w.client.sessions, m.id, m.title, m.id);
  }

  lemma DeleteTitles(w: World, k: nat)
    requires Inv(w) && Rooted(w) && !IsOutdated(w) && IsAckable(w, k) && w.log[w.writes[k].committed.value].Deleted?
    ensures var w' := Receipt(w, k).(client := DeleteApplied(w.client, w.log[w.writes[k].committed.value].id));
            Rooted(w') && !IsOutdated(w')
  {
    var m := w.log[w.writes[k].committed.value];
    var w' := Receipt(w, k).(client := DeleteApplied(w.client, m.id));
    WithoutIdMembers(w.client.sessions, m.id);
    forall s | s in w'.client.sessions ensures !IsOutdatedRow(w', s) {
      UntouchedRow(w, k, w', s);
      assert !IsOutdatedRow(w, s);
    }
  }

  /** Nothing titled a session before it was created. */
  lemma CreateIsFirst(log: seq<Mutation>, c: nat, id: string, title: string)
    requires LogOk(log) && c < |log| && log[c].Created? && log[c].s.id == id && TitledSince(log, 0, id, title)
    ensures TitledSince(log, c, id, title)
  {
    assert forall j :: 0 <= j < c ==> IdOf(log[j]) != log[c].s.id;
    var k: nat :| IsTitling(log, k, id, title);
  }

  /** Startup's own create never makes a row outdated: shown alone it is the first titling of its session that
      is acknowledged, and left to a refresh it titles no row. */
  lemma StartupTitles(w: World, k: nat, c: Client, base: Option<Mode>)
    requires Inv(w) && Rooted(w) && !IsOutdated(w) && IsAckable(w, k)
    requires w.writes[k].origin.ByStartup? && w.log[w.writes[k].committed.value].Created?
    requires c.sessions == w.client.sessions
             || (w.writes[k].origin.ticket == w.client.generation && c.sessions == [w.log[w.writes[k].committed.value].s])
    ensures var w' := Receipt(w, k).(client := c, base := base); Rooted(w') && !IsOutdated(w')
  {
    var at := w.writes[k].committed.value;
    var x := w.log[at].s;
    var w' := Receipt(w, k).(client := c, base := base);
    assert IsTitling(w.log, at, x.id, x.title);
    forall s, i: nat | s in c.sessions && IsKnownTitling(w', i, s.id)
      ensures TitledSince(w.log, w'.acked[i], s.id, s.title)
    {
      ReceiptTitlings(w, k, w', i, s.id);
      if c.sessions == w.client.sessions {
        assert !IsOutdatedRow(w, s);
        if i == |w.acked| {
          CreateIsFirst(w.log, at, s.id, s.title);
        }
      } else {
        StartupIsFirst(w, k, i);
      }
    }
  }

  /** While startup's ticket is active no titling of its session was acknowledged. */
  lemma StartupIsFirst(w: World, k: nat, i: nat)
    requires Inv(w) && IsAckable(w, k) && w.writes[k].origin.ByStartup?
    requires w.writes[k].origin.ticket == w.client.generation
    requires w.log[w.writes[k].committed.value].Created?
    ensures !IsKnownTitling(w, i, w.log[w.writes[k].committed.value].s.id)
  {
    var c := w.writes[k].committed.value;
    assert WriteOk(w, k);
    if i < |w.acked| {
      assert IdOf(w.log[w.acked[i]]) != w.log[c].s.id;
    }
  }

  lemma UserTitlesIff(w: World, k: nat)
    requires Inv(w) && Rooted(w) && !IsOutdated(w) && IsAckable(w, k) && w.writes[k].origin.ByUser?
    ensures Rooted(Acknowledged(w, k)) && (IsOutdated(Acknowledged(w, k)) <==> IsLateTitling(w, Acknowledge(k)))
  {
    match w.log[w.writes[k].committed.value]
    case Created(_) => CreateTitlesIff(w, k);
    case Deleted(_) => DeleteTitles(w, k);
    case Renamed(_, _) => RenameTitlesIff(w, k);
  }

  lemma StartupAcknowledgedTitles(w: World, k: nat)
    requires Inv(w) && Rooted(w) && !IsOutdated(w) && IsAckable(w, k) && w.writes[k].origin.ByStartup?
    ensures Rooted(Acknowledged(w, k)) && !IsOutdated(Acknowledged(w, k))
  {
    assert WriteOk(w, k);
    var m, o := w.log[w.writes[k].committed.value], w.writes[k].origin;
    if OnInitCreate(w.client, o.ticket, o.mode).Apply? {
      StartupTitles(w, k, InitShown(Invalidated(w.client), o.mode, [m.s]), Some(o.mode));
    } else {
      var w1 := Receipt(w, k).(client := Invalidated(w.client), base := None);
      StartupTitles(w, k, Invalidated(w.client), None);
      ReceiptKeeps(w, k, Invalidated(w.client), None);
      SameTitles(w1, Acknowledged(w, k));
    }
  }

  lemma AcknowledgedTitlesIff(w: World, k: nat)
    requires Inv(w) && Rooted(w) && !IsOutdated(w)
    ensures Rooted(Acknowledged(w, k)) && (IsOutdated(Acknowledged(w, k)) <==> IsLateTitling(w, Acknowledge(k)))
  {
    if IsAckable(w, k) {
      if w.writes[k].origin.ByUser? {
        UserTitlesIff(w, k);
      } else {
        StartupAcknowledgedTitles(w, k);
      }
    }
  }

  /** The one way a displayed title goes back: the reply of a titling overtaken by that of a later one. */
  lemma NextTitlesIff(w: World, step: Step)
    requires Inv(w) && Rooted(w) && !IsOutdated(w)
    ensures Rooted(Next(w, step)) && (IsOutdated(Next(w, step)) <==> IsLateTitling(w, step))
  {
    match step
    case DeliverRead(r) => DeliveredTitles(w, r);
    case Acknowledge(k) => AcknowledgedTitlesIff(w, k);
    case Commit(k, m) => SameTitles(w, Committed(w, k, m));
    case _ => SameTitles(w, Next(w, step));
  }

  ghost predicate NoLateTitling(w: World, steps: seq<Step>) {
    forall n :: 0 <= n < |steps| ==> !IsLateTitling(Exec(w, steps[..n]), steps[n])
  }

  lemma NoLateFront(w: World, steps: seq<Step>)
    requires steps != [] && NoLateTitling(w, steps)
    ensures NoLateTitling(w, steps[..|steps| - 1])
    ensures !IsLateTitling(Exec(w, steps[..|steps| - 1]), steps[|steps| - 1])
  {
    var front := steps[..|steps| - 1];
    forall n | 0 <= n < |front| ensures !IsLateTitling(Exec(w, front[..n]), front[n]) {
      assert front[..n] == steps[..n];
    }
  }

  /** In every run in which no reply of a titling is overtaken like that, no displayed title is ever older than an
      acknowledged one. */
  lemma {:induction false} TitlesNeverGoBack(mode: Mode, memory: PerMode, steps: seq<Step>)
    requires NoLateTitling(Initial(mode, memory), steps)
    ensures Rooted(Exec(Initial(mode, memory), steps)) && !IsOutdated(Exec(Initial(mode, memory), steps))
  {
    if steps != [] {
      var front := steps[..|steps| - 1];
      NoLateFront(Initial(mode, memory), steps);
      TitlesNeverGoBack(mode, memory, front);
      RunIsSound(mode, memory, front);
      NextTitlesIff(Exec(Initial(mode, memory), front), steps[|steps| - 1]);
    }
  }

  /** The next landing list brings every title up to date. */
  lemma LandingUpdatesTitles(w: World, r: nat)
    requires Inv(w) && IsOpenRead(w, r) && w.lists[r].reply.Some? && !w.lists[r].startup
    requires Lands(w.client, w.lists[r].ticket, w.lists[r].mode)
    ensures !IsOutdated(ReadDelivered(w, r))
  {
    var x := w.lists[r];
    AppliedTitles(w, r, Refreshed(w.client, x.ticket, x.mode, x.reply.value.rows));
  }

  // ---- A run -----------------------------------------------------------------------------

  /** A session was created, the create acknowledged, and two renames of it were sent. */
  lemma TwoRenamesSent(mode: Mode, memory: PerMode, s: Session, a: string, b: string) returns (w: World)
    requires InMode(s, mode)
    ensures Reaches(Initial(mode, memory), w)
    ensures w.log == [Created(s)] && w.client.sessions == [s] && w.acked == [0] && |w.writes| == 3
    ensures w.writes[1] == Write(RenameTo(s.id, a), ByUser, None, false)
    ensures w.writes[2] == Write(RenameTo(s.id, b), ByUser, None, false)
  {
    var w0 := Initial(mode, memory);
    assert Exec(w0, []) == w0;
    ReachNext(w0, w0, Send(CreateIn(mode)));
    CreateSent(w0);
    var w1 := w0.(writes := [Write(CreateIn(mode), ByUser, None, false)]);
    ReachNext(w0, w1, Commit(0, Created(s)));
    CreateCommitted(w1, s, mode);
    var w2 := w1.(log := [Created(s)], writes := [Write(CreateIn(mode), ByUser, Some(0), false)]);
    ReachNext(w0, w2, Acknowledge(0));
    var w3 := Acknowledged(w2, 0);
    ReachNext(w0, w3, Send(RenameTo(s.id, a)));
    RenameSent(w3, s.id, a);
    var w4 := w3.(writes := w3.writes + [Write(RenameTo(s.id, a), ByUser, None, false)]);
    ReachNext(w0, w4, Send(RenameTo(s.id, b)));
    RenameSent(w4, s.id, b);
    w := w4.(writes := w4.writes + [Write(RenameTo(s.id, b), ByUser, None, false)]);
  }

  lemma RenameSent(w: World, id: string, title: string)
    ensures Next(w, Send(RenameTo(id, title))) == w.(writes := w.writes + [Write(RenameTo(id, title), ByUser, None, false)])
  {
  }

  /** Both were committed in order. */
  lemma TwoRenamesCommitted(mode: Mode, memory: PerMode, s: Session, a: string, b: string) returns (w: World)
    requires InMode(s, mode)
    ensures Reaches(Initial(mode, memory), w)
    ensures w.log == [Created(s), Renamed(s.id, a), Renamed(s.id, b)] && w.client.sessions == [s] && w.acked == [0]
    ensures |w.writes| == 3 && w.writes[1] == Write(RenameTo(s.id, a), ByUser, Some(1), false)
    ensures w.writes[2] == Write(RenameTo(s.id, b), ByUser, Some(2), false)
  {
    var w0 := Initial(mode, memory);
    var w1 := TwoRenamesSent(mode, memory, s, a, b);
    ReachNext(w0, w1, Commit(1, Renamed(s.id, a)));
    var w2 := Committed(w1, 1, Renamed(s.id, a));
    ReachNext(w0, w2, Commit(2, Renamed(s.id, b)));
    w := Committed(w2, 2, Renamed(s.id, b));
  }

  lemma RenamedAlone(c: Client, s: Session, title: string)
    requires c.sessions == [s]
    ensures RenameApplied(c, s.id, title).sessions == [s.(title := title)]
  {
    RetitledAt([s], s.id, title, 0);
  }

  /** Such a run exists: two renames of a session are acknowledged in the reverse of the order in which the server
      committed them, and the sidebar shows the older title. */
  lemma RenamesOvertake(mode: Mode, memory: PerMode, s: Session, a: string, b: string)
    requires InMode(s, mode) && a != b
    ensures exists w :: Reaches(Initial(mode, memory), w) && IsOutdated(w) && w.client.sessions == [s.(title := a)]
  {
    var w0 := Initial(mode, memory);
    var w1 := TwoRenamesCommitted(mode, memory, s, a, b);
    ReachNext(w0, w1, Acknowledge(2));
    var w2 := Acknowledged(w1, 2);
    RenamedAlone(w1.client, s, b);
    ReachNext(w0, w2, Acknowledge(1));
    var w3 := Acknowledged(w2, 1);
    RenamedAlone(w2.client, s.(title := b), a);
    var row := s.(title := a);
    assert w3.client.sessions == [row] && row in w3.client.sessions;
    assert IsKnownTitling(w3, 1, row.id) && !TitledSince(w3.log, w3.acked[1], row.id, row.title);
  }
}
