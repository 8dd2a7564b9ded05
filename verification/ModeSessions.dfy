/** The two conversation spaces of src/mode-sessions.ts and the selection remembered for each. */
module ModeSessions {
  import opened Common

  datatype Mode = Chat | Agent

  /** A session row; `mode` is the raw field, missing on sessions that predate it. */
  datatype Session = Session(id: string, mode: Option<string>, title: string)

  function SessionMode(s: Session): Mode {
    if s.mode == Some("chat") then Chat else Agent
  }

  predicate InMode(s: Session, mode: Mode) {
    SessionMode(s) == mode
  }

  function FilterByMode(sessions: seq<Session>, mode: Mode): seq<Session> {
    Filter(sessions, s => InMode(s, mode))
  }

  predicate HasId(sessions: seq<Session>, id: string) {
    exists s :: s in sessions && s.id == id
  }

  /** `None` stands for null; JavaScript also takes an empty remembered id for none. */
  function ResolveActive(sessions: seq<Session>, mode: Mode, remembered: Option<string>): Option<string> {
    var inMode := FilterByMode(sessions, mode);
    if remembered.Some? && remembered.value != "" && HasId(inMode, remembered.value) then remembered
    else if inMode == [] then None
    else Some(inMode[0].id)
  }

  /** One value per space. */
  datatype PerMode = PerMode(chat: Option<string>, agent: Option<string>)

  function Recall(m: PerMode, mode: Mode): Option<string> {
    if mode.Chat? then m.chat else m.agent
  }

  function RememberActive(m: PerMode, mode: Mode, id: Option<string>): PerMode {
    if mode.Chat? then m.(chat := id) else m.(agent := id)
  }

  lemma SpaceMembers(sessions: seq<Session>, mode: Mode)
    ensures forall s :: s in FilterByMode(sessions, mode) <==> s in sessions && InMode(s, mode)
  {
    FilterMembers(sessions, s => InMode(s, mode));
  }

  /** `id` names a session of that space in the list. */
  predicate InSpace(sessions: seq<Session>, mode: Mode, id: string) {
    exists s :: s in sessions && InMode(s, mode) && s.id == id
  }

  /** The selection lies in the list and in the space, it is null exactly when that space is empty, and a
      non-empty remembered id is kept exactly as long as the space still holds it or it is the newest. */
  lemma ResolvedSelection(sessions: seq<Session>, mode: Mode, remembered: Option<string>)
    ensures var active := ResolveActive(sessions, mode, remembered);
            && (active.Some? ==> InSpace(sessions, mode, active.value))
            && (active.None? <==> forall s :: s in sessions ==> !InMode(s, mode))
            && (remembered.Some? && remembered.value != "" ==>
                  (active == remembered <==> InSpace(sessions, mode, remembered.value)))
  {
    SpaceMembers(sessions, mode);
    var inMode := FilterByMode(sessions, mode);
    if inMode != [] {
      assert inMode[0] in inMode;
    }
  }

  /** When the remembered selection is gone, the replacement is the first session of the space: every
      session listed before it belongs to the other one. */
  lemma ReplacementIsNewest(sessions: seq<Session>, mode: Mode, remembered: Option<string>) returns (n: nat)
    requires remembered.None? || remembered.value == "" || !InSpace(sessions, mode, remembered.value)
    requires exists s :: s in sessions && InMode(s, mode)
    ensures n < |sessions| && InMode(sessions[n], mode) && ResolveActive(sessions, mode, remembered) == Some(sessions[n].id)
    ensures forall k :: 0 <= k < n ==> !InMode(sessions[k], mode)
  {
    SpaceMembers(sessions, mode);
    n := FirstInMode(sessions, mode);
  }

  lemma {:induction false} FirstInMode(sessions: seq<Session>, mode: Mode) returns (n: nat)
    requires FilterByMode(sessions, mode) != []
    ensures n < |sessions| && InMode(sessions[n], mode) && FilterByMode(sessions, mode)[0] == sessions[n]
    ensures forall k :: 0 <= k < n ==> !InMode(sessions[k], mode)
  {
    if InMode(sessions[0], mode) {
      n := 0;
    } else {
      n := FirstInMode(sessions[1..], mode);
      n := n + 1;
    }
  }

  /** The two spaces partition the list: no session is in both, none is in neither. */
  lemma {:induction false} SpacesPartition(sessions: seq<Session>)
    ensures multiset(FilterByMode(sessions, Chat)) + multiset(FilterByMode(sessions, Agent)) == multiset(sessions)
  {
    if sessions != [] {
      SpacesPartition(sessions[1..]);
      assert sessions == [sessions[0]] + sessions[1..];
    }
  }

  /** `resolveActiveInSpace` of src/agent-init.ts: filtering the space first changes nothing. */
  lemma PrefilterIsRedundant(sessions: seq<Session>, mode: Mode, remembered: Option<string>)
    ensures ResolveActive(FilterByMode(sessions, mode), mode, remembered) == ResolveActive(sessions, mode, remembered)
  {
    FilterFilter(sessions, s => InMode(s, mode));
  }
}
