/** The session list never goes back: what a user of src/session-list-guard.ts may rely on. */
module SessionTheorems {
  import opened ModeSessions
  import opened SessionClient
  import opened SessionProtocol
  import opened SessionSafety

  // ---- Landed lists ----------------------------------------------------------------------

  /** In every run every landed list is exactly the server's content, at a version past every mutation
      that was acknowledged before it landed. */
  lemma LandedListsArePast(mode: Mode, memory: PerMode, steps: seq<Step>, i: nat)
    requires i < |Exec(Initial(mode, memory), steps).landed|
    ensures var w := Exec(Initial(mode, memory), steps);
            var l := w.landed[i];
            && Holds(w, l.reading, l.mode)
            && l.acks <= |w.acked| && forall j :: 0 <= j < l.acks ==> w.acked[j] < l.reading.version
  {
    RunIsSound(mode, memory, steps);
    assert LandingOk(Exec(Initial(mode, memory), steps), i);
  }

  /** In every run landed tickets strictly increase and landed versions never go back. */
  lemma LandedInTicketOrder(mode: Mode, memory: PerMode, steps: seq<Step>, i: nat, j: nat)
    requires i < j < |Exec(Initial(mode, memory), steps).landed|
    ensures var landed := Exec(Initial(mode, memory), steps).landed;
            landed[i].ticket < landed[j].ticket && landed[i].reading.version <= landed[j].reading.version
  {
    RunIsSound(mode, memory, steps);
  }

  /** A deleted session is in no list that lands after its deletion was acknowledged. */
  lemma NoListResurrects(mode: Mode, memory: PerMode, steps: seq<Step>, i: nat, d: nat)
    requires i < |Exec(Initial(mode, memory), steps).landed|
    requires d < Exec(Initial(mode, memory), steps).landed[i].acks <= |Exec(Initial(mode, memory), steps).acked|
    requires var w := Exec(Initial(mode, memory), steps); w.acked[d] < |w.log| && w.log[w.acked[d]].Deleted?
    ensures var w := Exec(Initial(mode, memory), steps); !HasId(w.landed[i].reading.rows, w.log[w.acked[d]].id)
  {
    var w := Exec(Initial(mode, memory), steps);
    LandedListsArePast(mode, memory, steps, i);
    RunIsSound(mode, memory, steps);
    var l := w.landed[i];
    PrefixDeletedIsGone(w.log, l.reading.version, l.mode, w.acked[d]);
    SameRowsSameIds(l.reading.rows, Rows(w.log[..l.reading.version], l.mode), w.log[w.acked[d]].id);
  }

  lemma PrefixDeletedIsGone(log: seq<Mutation>, version: nat, mode: Mode, d: nat)
    requires LogOk(log) && d < version <= |log| && log[d].Deleted?
    ensures !HasId(Rows(log[..version], mode), log[d].id)
  {
    DeletedIsGone(log[..version], mode, d);
  }

  /** A created session that nobody deleted is in every list of its space that lands after its creation
      was acknowledged. */
  lemma NoListDropsCreated(mode: Mode, memory: PerMode, steps: seq<Step>, i: nat, c: nat)
    requires i < |Exec(Initial(mode, memory), steps).landed|
    requires c < Exec(Initial(mode, memory), steps).landed[i].acks <= |Exec(Initial(mode, memory), steps).acked|
    requires var w := Exec(Initial(mode, memory), steps);
             && w.acked[c] < |w.log| && w.log[w.acked[c]].Created?
             && SessionMode(w.log[w.acked[c]].s) == w.landed[i].mode && NeverDeleted(w.log, w.log[w.acked[c]].s.id)
    ensures var w := Exec(Initial(mode, memory), steps); HasId(w.landed[i].reading.rows, w.log[w.acked[c]].s.id)
  {
    var w := Exec(Initial(mode, memory), steps);
    LandedListsArePast(mode, memory, steps, i);
    var l := w.landed[i];
    PrefixCreatedIsListed(w.log, l.reading.version, w.acked[c]);
    SameRowsSameIds(l.reading.rows, Rows(w.log[..l.reading.version], l.mode), w.log[w.acked[c]].s.id);
  }

  lemma PrefixCreatedIsListed(log: seq<Mutation>, version: nat, c: nat)
    requires c < version <= |log| && log[c].Created? && NeverDeleted(log, log[c].s.id)
    ensures HasId(Rows(log[..version], SessionMode(log[c].s)), log[c].s.id)
  {
    CreatedIsListed(log[..version], c);
  }

  lemma PrefixRowTitle(log: seq<Mutation>, reading: Reading, mode: Mode, c: nat, s: Session) returns (k: nat)
    requires LogOk(log) && c < reading.version <= |log| && Titles(log[c], s.id) && s in reading.rows
    requires multiset(reading.rows) == multiset(Rows(log[..reading.version], mode))
    ensures c <= k < reading.version && Titles(log[k], s.id) && TitleOf(log[k]) == s.title
    ensures forall j :: k < j < reading.version ==> !Titles(log[j], s.id)
  {
    var prefix := log[..reading.version];
    assert s in multiset(reading.rows);
    k := RowTitle(prefix, mode, s);
    assert Titles(prefix[c], s.id);
    assert forall j :: 0 <= j < reading.version ==> prefix[j] == log[j];
  }

  /** A list that lands after a rename was acknowledged never shows an older title: every row's title was
      set by that rename or by a later mutation, the last one the server had committed. */
  lemma NoListRevertsRename(mode: Mode, memory: PerMode, steps: seq<Step>, i: nat, c: nat, s: Session) returns (k: nat)
    requires i < |Exec(Initial(mode, memory), steps).landed|
    requires c < Exec(Initial(mode, memory), steps).landed[i].acks <= |Exec(Initial(mode, memory), steps).acked|
    requires var w := Exec(Initial(mode, memory), steps);
             && w.acked[c] < |w.log| && w.log[w.acked[c]].Renamed? && w.log[w.acked[c]].id == s.id
             && s in w.landed[i].reading.rows
    ensures var w := Exec(Initial(mode, memory), steps);
            && w.acked[c] <= k < w.landed[i].reading.version <= |w.log|
            && Titles(w.log[k], s.id) && TitleOf(w.log[k]) == s.title
            && forall j :: k < j < w.landed[i].reading.version ==> !Titles(w.log[j], s.id)
  {
    var w := Exec(Initial(mode, memory), steps);
    LandedListsArePast(mode, memory, steps, i);
    RunIsSound(mode, memory, steps);
    k := PrefixRowTitle(w.log, w.landed[i].reading, w.landed[i].mode, w.acked[c], s);
  }

  /** A ticket that is still active was taken in the present mode: the mode checks beside the guard never
      decide anything. */
  lemma ModeCheckIsRedundant(mode: Mode, memory: PerMode, steps: seq<Step>, r: nat)
    requires IsOpenRead(Exec(Initial(mode, memory), steps), r)
    ensures var w := Exec(Initial(mode, memory), steps);
            w.lists[r].ticket == w.client.generation ==> Lands(w.client, w.lists[r].ticket, w.lists[r].mode)
  {
    RunIsSound(mode, memory, steps);
    assert ReadOk(Exec(Initial(mode, memory), steps), r);
  }

  // ---- Tickets ---------------------------------------------------------------------------

  /** The steps that begin a list request or invalidate. */
  predicate Bumps(w: World, step: Step) {
    match step
    case Refresh => true
    case StartUp => true
    case Acknowledge(k) => IsAckable(w, k)
    case SetMode(mode) => mode != w.client.mode
    case DeliverRead(r) =>
      && IsOpenRead(w, r) && w.lists[r].reply.Some? && w.lists[r].startup
      && OnInitList(w.client, w.lists[r].ticket, w.lists[r].mode, w.lists[r].reply.value.rows).Delegate?
    case _ => false
  }

  lemma GenerationMovesIff(w: World, step: Step)
    ensures Next(w, step).client.generation >= w.client.generation
    ensures Next(w, step).client.generation > w.client.generation <==> Bumps(w, step)
  {
  }

  predicate BumpsAt(w: World, steps: seq<Step>, n: nat) {
    n < |steps| && Bumps(Exec(w, steps[..n]), steps[n])
  }

  ghost predicate Quiet(w: World, steps: seq<Step>) {
    forall n: nat :: !BumpsAt(w, steps, n)
  }

  lemma BumpsAtFront(w: World, steps: seq<Step>, n: nat)
    requires n < |steps| - 1
    ensures BumpsAt(w, steps[..|steps| - 1], n) <==> BumpsAt(w, steps, n)
  {
    assert steps[..|steps| - 1][..n] == steps[..n];
  }

  lemma QuietSnoc(w: World, steps: seq<Step>)
    requires steps != []
    ensures Quiet(w, steps) <==> Quiet(w, steps[..|steps| - 1]) && !BumpsAt(w, steps, |steps| - 1)
  {
    var front := steps[..|steps| - 1];
    if Quiet(w, steps) {
      forall n: nat ensures !BumpsAt(w, front, n) {
        if n < |front| { BumpsAtFront(w, steps, n); }
      }
    }
    if Quiet(w, front) && !BumpsAt(w, steps, |front|) {
      forall n: nat ensures !BumpsAt(w, steps, n) {
        if n < |front| { BumpsAtFront(w, steps, n); }
      }
    }
  }

  lemma {:induction false} SameGenerationIffQuiet(w: World, steps: seq<Step>)
    ensures Exec(w, steps).client.generation >= w.client.generation
    ensures Exec(w, steps).client.generation == w.client.generation <==> Quiet(w, steps)
  {
    if steps != [] {
      var front := steps[..|steps| - 1];
      SameGenerationIffQuiet(w, front);
      QuietSnoc(w, steps);
      GenerationMovesIff(Exec(w, front), steps[|steps| - 1]);
    }
  }

  /** A list request begun now may land after any further steps exactly when none of them began another
      list request, acknowledged a mutation or switched the mode. */
  lemma ActiveIffNothingHappened(w: World, startup: bool, steps: seq<Step>)
    ensures var w1 := Begun(w, startup);
            Exec(w1, steps).client.generation == w1.lists[|w.lists|].ticket <==> Quiet(w1, steps)
  {
    SameGenerationIffQuiet(Begun(w, startup), steps);
  }

  /** An acknowledged mutation, startup's own create included, makes every list request in flight
      unlandable for good. */
  lemma AcknowledgementPoisons(w: World, k: nat, r: nat, steps: seq<Step>)
    requires Inv(w) && IsAckable(w, k) && r < |w.lists|
    ensures var w' := Exec(Acknowledged(w, k), steps);
            !Lands(w'.client, w.lists[r].ticket, w.lists[r].mode)
  {
    assert ReadOk(w, r);
    GenerationMovesIff(w, Acknowledge(k));
    SameGenerationIffQuiet(Acknowledged(w, k), steps);
  }
}
