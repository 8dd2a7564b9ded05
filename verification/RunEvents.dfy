/** The wire-event vocabulary of src/run-events.ts and the manual tool allow-list. */
module RunEvents {
  import opened Common
  import opened Text
  import opened Distinct

  datatype Kind =
    | AssistantDelta | ThinkingDelta | ThinkingOpen | ThinkingClose | ToolStart | ToolEnd
    | Verification | Status | Escalation | Progress | Context | Perf | Failure | Plan | Session
    | Task | Handoff | Idle | Done | Complete | Aborted | Error | Unknown

  function NormalizeEventKind(wire: string): Kind {
    if wire == "response" || wire == "assistant_delta" then AssistantDelta
    else if wire == "reasoning" || wire == "thinking_delta" then ThinkingDelta
    else if wire == "thinking_start" then ThinkingOpen
    else if wire == "thinking_end" then ThinkingClose
    else if wire == "tool_start" then ToolStart
    else if wire == "tool_end" then ToolEnd
    else if wire == "verification" then Verification
    else if wire == "done" then Done
    else if wire == "complete" then Complete
    else if wire == "aborted" then Aborted
    else if wire == "thinking" then Progress
    else if wire == "status" then Status
    else if wire == "escalation" then Escalation
    else if wire == "context" then Context
    else if wire == "perf" then Perf
    else if wire == "failure" then Failure
    else if wire == "plan" then Plan
    else if wire == "session" then Session
    else if wire == "task" then Task
    else if wire == "handoff" then Handoff
    else if wire == "idle" then Idle
    else if wire == "error" then Error
    else Unknown
  }

  /** The four wire names that carry streamed content. */
  lemma ContentNames(wire: string)
    ensures NormalizeEventKind(wire).AssistantDelta? <==> wire in {"response", "assistant_delta"}
    ensures NormalizeEventKind(wire).ThinkingDelta? <==> wire in {"reasoning", "thinking_delta"}
  {
  }

  // ---- The manual tool allow-list --------------------------------------------------------

  /** The trimmed non-empty names of a list whose non-string items are `None`. */
  function Names(list: seq<Option<string>>): seq<string> {
    if list == [] then []
    else
      var front := Names(list[..|list| - 1]);
      var item := list[|list| - 1];
      if item.Some? && Trim(item.value) != "" then front + [Trim(item.value)] else front
  }

  function Allowlist(list: seq<Option<string>>): seq<string> {
    DistinctBy(Names(list), Lower)
  }

  lemma AllowlistSnoc(list: seq<Option<string>>, i: nat)
    requires i < |list|
    ensures Allowlist(list[..i + 1]) ==
            if list[i].Some? && Trim(list[i].value) != "" && !HasKey(Allowlist(list[..i]), Lower, Lower(Trim(list[i].value)))
            then Allowlist(list[..i]) + [Trim(list[i].value)] else Allowlist(list[..i])
  {
    assert list[..i + 1][..i] == list[..i];
    if list[i].Some? {
      DistinctBySnoc(Names(list[..i]), Trim(list[i].value), Lower);
    }
  }

  ghost predicate Tracks(seen: set<string>, out: seq<string>) {
    forall k :: k in seen <==> HasKey(out, Lower, k)
  }

  lemma TracksSnoc(seen: set<string>, out: seq<string>, name: string)
    requires Tracks(seen, out)
    ensures Lower(name) in seen <==> HasKey(out, Lower, Lower(name))
    ensures Tracks(seen + {Lower(name)}, out + [name])
  {
    forall k ensures k in seen + {Lower(name)} <==> HasKey(out + [name], Lower, k) {
      HasKeySnoc(out, name, Lower, k);
    }
  }

  /** `None` stands for a value that is not an array. */
  method NormalizeToolAllowlist(list: Option<seq<Option<string>>>) returns (out: seq<string>)
    ensures out == if list.None? then [] else Allowlist(list.value)
  {
    out := [];
    if list.None? {
      return;
    }
    var items := list.value;
    var seen: set<string> := {};
    for i := 0 to |items|
      invariant out == Allowlist(items[..i])
      invariant Tracks(seen, out)
    {
      AllowlistSnoc(items, i);
      if items[i].None? {
        continue;
      }
      var name := Trim(items[i].value);
      if name == "" {
        continue;
      }
      TracksSnoc(seen, out, name);
      if Lower(name) in seen {
        continue;
      }
      seen := seen + {Lower(name)};
      out := out + [name];
    }
    assert items[..|items|] == items;
  }

  ghost predicate IsName(item: Option<string>, key: string) {
    item.Some? && Trim(item.value) != "" && Lower(Trim(item.value)) == key
  }

  lemma {:induction false} AllowlistKeys(list: seq<Option<string>>, key: string)
    ensures HasKey(Allowlist(list), Lower, key) <==> exists j :: 0 <= j < |list| && IsName(list[j], key)
  {
    if list != [] {
      var n := |list| - 1;
      AllowlistKeys(list[..n], key);
      assert list[..n + 1] == list;
      AllowlistSnoc(list, n);
      assert forall j :: 0 <= j < n ==> list[..n][j] == list[j];
      if list[n].Some? {
        HasKeySnoc(Allowlist(list[..n]), Trim(list[n].value), Lower, key);
      }
    }
  }

  /** Of all spellings that differ only in case, the earliest one is kept: the first item with a
      given lower-case name puts its own trimmed spelling on the list. */
  lemma {:induction false} FirstSpellingIsKept(list: seq<Option<string>>, i: nat, key: string)
    requires i < |list| && IsName(list[i], key)
    requires forall j :: 0 <= j < i ==> !IsName(list[j], key)
    ensures Trim(list[i].value) in Allowlist(list)
  {
    var n := |list| - 1;
    assert list[..n + 1] == list;
    AllowlistSnoc(list, n);
    if i < n {
      FirstSpellingIsKept(list[..n], i, key);
    } else {
      AllowlistKeys(list[..n], key);
    }
  }

  /** The list is unique up to case, and normalising it again changes nothing. */
  lemma AllowlistIdempotent(list: seq<Option<string>>)
    ensures PairwiseDistinct(Allowlist(list), Lower)
    ensures Allowlist(AsItems(Allowlist(list))) == Allowlist(list)
  {
    DistinctByPairwise(Names(list), Lower);
    NamesTight(list);
    DistinctBySubset(Names(list), Lower);
    NamesOfTight(Allowlist(list));
    DistinctByFixed(Allowlist(list), Lower);
  }

  function AsItems(names: seq<string>): seq<Option<string>> {
    seq(|names|, k requires 0 <= k < |names| => Some(names[k]))
  }

  lemma {:induction false} NamesTight(list: seq<Option<string>>)
    ensures forall name :: name in Names(list) ==> name != "" && Trim(name) == name
  {
    if list != [] {
      NamesTight(list[..|list| - 1]);
      var item := list[|list| - 1];
      if item.Some? {
        TrimIsTight(item.value);
      }
    }
  }

  lemma {:induction false} NamesOfTight(names: seq<string>)
    requires forall name :: name in names ==> name != "" && Trim(name) == name
    ensures Names(AsItems(names)) == names
  {
    if names != [] {
      var n := |names| - 1;
      forall name | name in names[..n] ensures name != "" && Trim(name) == name {
        assert name in names;
      }
      assert names[n] in names;
      NamesOfTight(names[..n]);
      assert AsItems(names)[..n] == AsItems(names[..n]);
    }
  }
}
