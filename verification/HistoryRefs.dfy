/** The bounded, deduplicated reference list of src/history-ref.ts. */
module HistoryRefs {
  import opened Common
  import opened Text
  import opened Distinct

  const MAX_HISTORY_REFS: nat := 4

  datatype Range = Range(from: int, to: int)

  datatype RangesField = Undefined | NotAnArray | Ranges(ranges: seq<Range>)

  /** One element of an incoming list; `sessionId` is `None` when it is not a string. */
  datatype HistoryRef =
    | NullRef
    | HistoryRef(sessionId: Option<string>, mode: Option<string>, summaryVersion: Option<int>, ranges: RangesField)

  function Id(ref: HistoryRef): string {
    if ref.NullRef? || ref.sessionId.None? then "" else Trim(ref.sessionId.value)
  }

  predicate IsAcceptable(ref: HistoryRef, active: Option<string>) {
    Id(ref) != "" && active != Some(Id(ref))
  }

  function Cleaned(ref: HistoryRef): HistoryRef
    requires Id(ref) != ""
  {
    HistoryRef(Some(Id(ref)), ref.mode, ref.summaryVersion, if ref.ranges.Ranges? then ref.ranges else Undefined)
  }

  /** The acceptable references, cleaned, in order. */
  function Clean(refs: seq<HistoryRef>, active: Option<string>): seq<HistoryRef> {
    if refs == [] then []
    else
      var front := Clean(refs[..|refs| - 1], active);
      var ref := refs[|refs| - 1];
      if IsAcceptable(ref, active) then front + [Cleaned(ref)] else front
  }

  /** The first `MAX_HISTORY_REFS` distinct acceptable references. */
  function Normalized(refs: seq<HistoryRef>, active: Option<string>): seq<HistoryRef> {
    Take(DistinctBy(Clean(refs, active), Id), MAX_HISTORY_REFS)
  }

  function OrEmpty(refs: Option<seq<HistoryRef>>): seq<HistoryRef> {
    if refs.Some? then refs.value else []
  }

  function Merged(existing: Option<seq<HistoryRef>>, added: Option<seq<HistoryRef>>, active: Option<string>): seq<HistoryRef> {
    Normalized(OrEmpty(existing) + OrEmpty(added), active)
  }

  /** `None` stands for the TypeError that reading a field of a null element raises. */
  function Removed(refs: Option<seq<HistoryRef>>, sessionId: string): Option<seq<HistoryRef>> {
    if NullRef in OrEmpty(refs) then None
    else Some(Filter(OrEmpty(refs), (r: HistoryRef) => r.NullRef? || r.sessionId != Some(sessionId)))
  }

  // ---- The loop --------------------------------------------------------------------------

  method NormalizeHistoryRefs(refs: Option<seq<HistoryRef>>, active: Option<string>) returns (out: seq<HistoryRef>)
    ensures out == Normalized(OrEmpty(refs), active)
  {
    out := [];
    if refs.None? {
      return;
    }
    var list := refs.value;
    var seen: set<string> := {};
    for i := 0 to |list|
      invariant out == DistinctBy(Clean(list[..i], active), Id)
      invariant |out| < MAX_HISTORY_REFS
      invariant Tracks(seen, out)
    {
      var ref := list[i];
      DistinctCleanSnoc(list, i, active);
      SeenDecides(seen, out, Id(ref));
      if Id(ref) == "" || active == Some(Id(ref)) || Id(ref) in seen {
        continue;
      }
      SeenGrows(seen, out, ref);
      seen := seen + {Id(ref)};
      out := out + [Cleaned(ref)];
      if |out| >= MAX_HISTORY_REFS {
        CapReached(list, i + 1, active);
        return;
      }
    }
    NothingLeft(list, active);
  }

  /** `seen` is the set of the ids kept so far. */
  ghost predicate Tracks(seen: set<string>, out: seq<HistoryRef>) {
    forall k :: k in seen <==> HasKey(out, Id, k)
  }

  lemma SeenGrows(seen: set<string>, out: seq<HistoryRef>, ref: HistoryRef)
    requires Id(ref) != "" && Tracks(seen, out)
    ensures Tracks(seen + {Id(ref)}, out + [Cleaned(ref)])
  {
    CleanedKeepsId(ref);
    forall k ensures k in seen + {Id(ref)} <==> HasKey(out + [Cleaned(ref)], Id, k) {
      HasKeySnoc(out, Cleaned(ref), Id, k);
    }
  }

  lemma SeenDecides(seen: set<string>, out: seq<HistoryRef>, k: string)
    requires Tracks(seen, out)
    ensures k in seen <==> HasKey(out, Id, k)
  {
  }

  /** One more reference adds itself exactly when it is acceptable and its id is new. */
  lemma DistinctCleanSnoc(refs: seq<HistoryRef>, i: nat, active: Option<string>)
    requires i < |refs|
    ensures var before := DistinctBy(Clean(refs[..i], active), Id);
            DistinctBy(Clean(refs[..i + 1], active), Id) ==
            if IsAcceptable(refs[i], active) && !HasKey(before, Id, Id(refs[i])) then before + [Cleaned(refs[i])] else before
  {
    assert refs[..i + 1][..i] == refs[..i];
    if IsAcceptable(refs[i], active) {
      CleanedKeepsId(refs[i]);
      DistinctBySnoc(Clean(refs[..i], active), Cleaned(refs[i]), Id);
    }
  }

  /** A full list is final, whatever follows. */
  lemma CapReached(refs: seq<HistoryRef>, i: nat, active: Option<string>)
    requires i <= |refs|
    requires |DistinctBy(Clean(refs[..i], active), Id)| == MAX_HISTORY_REFS
    ensures Normalized(refs, active) == DistinctBy(Clean(refs[..i], active), Id)
  {
    assert refs == refs[..i] + refs[i..];
    CleanConcat(refs[..i], refs[i..], active);
    DistinctByPrefix(Clean(refs[..i], active), Clean(refs[i..], active), Id);
  }

  lemma NothingLeft(refs: seq<HistoryRef>, active: Option<string>)
    requires |DistinctBy(Clean(refs[..|refs|], active), Id)| <= MAX_HISTORY_REFS
    ensures Normalized(refs, active) == DistinctBy(Clean(refs[..|refs|], active), Id)
  {
    assert refs[..|refs|] == refs;
  }

  lemma CleanedKeepsId(ref: HistoryRef)
    requires Id(ref) != ""
    ensures Id(Cleaned(ref)) == Id(ref)
    ensures Cleaned(Cleaned(ref)) == Cleaned(ref)
  {
    TrimIsTight(ref.sessionId.value);
  }

  lemma {:induction false} CleanConcat(a: seq<HistoryRef>, b: seq<HistoryRef>, active: Option<string>)
    ensures Clean(a + b, active) == Clean(a, active) + Clean(b, active)
  {
    if b == [] {
      assert a + b == a;
    } else {
      CleanConcat(a, b[..|b| - 1], active);
      assert (a + b)[..|a + b| - 1] == a + b[..|b| - 1];
    }
  }

  // ---- Laws ------------------------------------------------------------------------------

  ghost predicate IsClean(ref: HistoryRef, active: Option<string>) {
    IsAcceptable(ref, active) && Cleaned(ref) == ref
  }

  lemma {:induction false} CleanIsClean(refs: seq<HistoryRef>, active: Option<string>)
    ensures forall r :: r in Clean(refs, active) ==> IsClean(r, active)
  {
    if refs != [] {
      CleanIsClean(refs[..|refs| - 1], active);
      var ref := refs[|refs| - 1];
      if IsAcceptable(ref, active) {
        CleanedKeepsId(ref);
      }
    }
  }

  lemma {:induction false} CleanFixed(refs: seq<HistoryRef>, active: Option<string>)
    requires forall r :: r in refs ==> IsClean(r, active)
    ensures Clean(refs, active) == refs
  {
    if refs != [] {
      CleanFixed(refs[..|refs| - 1], active);
      assert refs[|refs| - 1] in refs;
    }
  }

  lemma NormalizedIsClean(refs: seq<HistoryRef>, active: Option<string>)
    ensures forall r :: r in Normalized(refs, active) ==> IsClean(r, active)
    ensures forall r :: r in Normalized(refs, active) ==>
              r.HistoryRef? && r.sessionId.Some? && Attaches(r, active, r.sessionId.value) && !r.ranges.NotAnArray?
    ensures Clean(Normalized(refs, active), active) == Normalized(refs, active)
  {
    var cleaned := Clean(refs, active);
    CleanIsClean(refs, active);
    DistinctBySubset(cleaned, Id);
    CleanFixed(Normalized(refs, active), active);
  }

  /** Normalising an already normalised prefix again changes nothing. */
  lemma NormalizedAbsorbs(a: seq<HistoryRef>, b: seq<HistoryRef>, active: Option<string>)
    ensures Normalized(Normalized(a, active) + b, active) == Normalized(a + b, active)
  {
    NormalizedIsClean(a, active);
    CleanConcat(Normalized(a, active), b, active);
    CleanConcat(a, b, active);
    CappedAbsorbs(Clean(a, active), Clean(b, active), Id, MAX_HISTORY_REFS);
  }

  lemma NormalizedIdempotent(refs: seq<HistoryRef>, active: Option<string>)
    ensures Normalized(Normalized(refs, active), active) == Normalized(refs, active)
  {
    NormalizedAbsorbs(refs, [], active);
    assert Normalized(refs, active) + [] == Normalized(refs, active) && refs + [] == refs;
  }

  /** Attaching in two steps is attaching everything at once. */
  lemma MergeAssociates(a: Option<seq<HistoryRef>>, b: Option<seq<HistoryRef>>, c: seq<HistoryRef>, active: Option<string>)
    ensures Merged(Some(Merged(a, b, active)), Some(c), active) == Merged(a, Some(OrEmpty(b) + c), active)
  {
    var x, y := OrEmpty(a), OrEmpty(b);
    ConcatAssociates(x, y, c);
    AbsorbsInto(x + y, c, x + (y + c), active);
  }

  lemma AbsorbsInto(front: seq<HistoryRef>, c: seq<HistoryRef>, whole: seq<HistoryRef>, active: Option<string>)
    requires front + c == whole
    ensures Normalized(Normalized(front, active) + c, active) == Normalized(whole, active)
  {
    NormalizedAbsorbs(front, c, active);
  }

  lemma ConcatAssociates(a: seq<HistoryRef>, b: seq<HistoryRef>, c: seq<HistoryRef>)
    ensures a + b + c == a + (b + c)
  {
  }

  /** An acceptable reference at `i` whose id no earlier acceptable one has. */
  ghost predicate IsFirst(refs: seq<HistoryRef>, active: Option<string>, i: nat) {
    && i < |refs|
    && IsAcceptable(refs[i], active)
    && forall j :: 0 <= j < i && IsAcceptable(refs[j], active) ==> Id(refs[j]) != Id(refs[i])
  }

  /** Some acceptable reference has this id. */
  ghost predicate Accepts(refs: seq<HistoryRef>, active: Option<string>, id: string) {
    exists j :: 0 <= j < |refs| && IsAcceptable(refs[j], active) && Id(refs[j]) == id
  }

  lemma AcceptsSnoc(refs: seq<HistoryRef>, active: Option<string>, id: string)
    requires refs != []
    ensures var last := refs[|refs| - 1];
            Accepts(refs, active, id) <==>
            Accepts(refs[..|refs| - 1], active, id) || (IsAcceptable(last, active) && Id(last) == id)
  {
    var front := refs[..|refs| - 1];
    assert forall j :: 0 <= j < |front| ==> front[j] == refs[j];
  }

  lemma {:induction false} CleanHasKey(refs: seq<HistoryRef>, active: Option<string>, id: string)
    ensures HasKey(Clean(refs, active), Id, id) <==> Accepts(refs, active, id)
  {
    if refs != [] {
      var n := |refs| - 1;
      CleanHasKey(refs[..n], active, id);
      AcceptsSnoc(refs, active, id);
      if IsAcceptable(refs[n], active) {
        CleanedKeepsId(refs[n]);
        HasKeySnoc(Clean(refs[..n], active), Cleaned(refs[n]), Id, id);
      }
    }
  }

  lemma IsFirstIff(refs: seq<HistoryRef>, active: Option<string>, i: nat)
    requires i < |refs|
    ensures IsFirst(refs, active, i) <==>
            IsAcceptable(refs[i], active) && !HasKey(DistinctBy(Clean(refs[..i], active), Id), Id, Id(refs[i]))
  {
    DistinctByKeys(Clean(refs[..i], active), Id, Id(refs[i]));
    CleanHasKey(refs[..i], active, Id(refs[i]));
    assert forall j :: 0 <= j < i ==> refs[..i][j] == refs[j];
  }

  /** The positions of the first acceptable occurrences below `n`, in order. */
  ghost function FirstPositions(refs: seq<HistoryRef>, active: Option<string>, n: nat): seq<nat>
    requires n <= |refs|
  {
    if n == 0 then []
    else if IsFirst(refs, active, n - 1) then FirstPositions(refs, active, n - 1) + [n - 1]
    else FirstPositions(refs, active, n - 1)
  }

  lemma {:induction false} FirstPositionsMembers(refs: seq<HistoryRef>, active: Option<string>, n: nat, i: nat)
    requires n <= |refs|
    ensures i in FirstPositions(refs, active, n) <==> i < n && IsFirst(refs, active, i)
  {
    if n > 0 {
      FirstPositionsMembers(refs, active, n - 1, i);
    }
  }

  lemma {:induction false} FirstPositionsIncrease(refs: seq<HistoryRef>, active: Option<string>, n: nat)
    requires n <= |refs|
    ensures forall k :: 0 <= k < |FirstPositions(refs, active, n)| ==> FirstPositions(refs, active, n)[k] < n
    ensures forall k, m :: 0 <= k < m < |FirstPositions(refs, active, n)| ==>
              FirstPositions(refs, active, n)[k] < FirstPositions(refs, active, n)[m]
  {
    if n > 0 {
      FirstPositionsIncrease(refs, active, n - 1);
    }
  }

  lemma {:induction false} FirstPositionsSelect(refs: seq<HistoryRef>, active: Option<string>, n: nat)
    requires n <= |refs|
    ensures |FirstPositions(refs, active, n)| == |DistinctBy(Clean(refs[..n], active), Id)|
    ensures forall k :: 0 <= k < |FirstPositions(refs, active, n)| ==>
              Selects(refs, active, FirstPositions(refs, active, n)[k], DistinctBy(Clean(refs[..n], active), Id)[k])
  {
    if n > 0 {
      FirstPositionsSelect(refs, active, n - 1);
      DistinctCleanSnoc(refs, n - 1, active);
      IsFirstIff(refs, active, n - 1);
    }
  }

  /** `kept` is what the first occurrence at `i` contributes. */
  ghost predicate Selects(refs: seq<HistoryRef>, active: Option<string>, i: nat, kept: HistoryRef) {
    IsFirst(refs, active, i) && kept == Cleaned(refs[i])
  }

  lemma EarliestPositions(refs: seq<HistoryRef>, active: Option<string>) returns (at: seq<nat>)
    ensures |at| == |Normalized(refs, active)| <= MAX_HISTORY_REFS
    ensures forall k :: 0 <= k < |at| ==> Selects(refs, active, at[k], Normalized(refs, active)[k])
    ensures forall k, m :: 0 <= k < m < |at| ==> at[k] < at[m]
    ensures forall i: nat :: IsFirst(refs, active, i) && i !in at ==>
              |at| == MAX_HISTORY_REFS && forall k :: 0 <= k < |at| ==> at[k] < i
  {
    var all := FirstPositions(refs, active, |refs|);
    FirstPositionsIncrease(refs, active, |refs|);
    FirstPositionsSelect(refs, active, |refs|);
    assert refs[..|refs|] == refs;
    at := Take(all, MAX_HISTORY_REFS);
    forall i: nat | IsFirst(refs, active, i) && i !in at
      ensures |at| == MAX_HISTORY_REFS && forall k :: 0 <= k < |at| ==> at[k] < i
    {
      FirstPositionsMembers(refs, active, |refs|, i);
      assert all == at + all[|at|..];
      assert i in all[|at|..];
    }
  }

  /** The reference attaches the session `id`: its trimmed id, which is neither empty nor the active one. */
  predicate Attaches(ref: HistoryRef, active: Option<string>, id: string) {
    ref.HistoryRef? && ref.sessionId.Some? && Trim(ref.sessionId.value) == id && id != "" && active != Some(id)
  }

  ghost predicate IsFirstOf(refs: seq<HistoryRef>, active: Option<string>, i: nat, id: string) {
    i < |refs| && Attaches(refs[i], active, id) && forall j :: 0 <= j < i ==> !Attaches(refs[j], active, id)
  }

  /** `kept` has the trimmed id and the fields of the first reference that attaches it, without what is no list of
      ranges. */
  ghost predicate IsFirstCopy(refs: seq<HistoryRef>, active: Option<string>, i: nat, kept: HistoryRef) {
    && kept.HistoryRef? && kept.sessionId.Some?
    && IsFirstOf(refs, active, i, kept.sessionId.value)
    && kept.mode == refs[i].mode && kept.summaryVersion == refs[i].summaryVersion
    && (if refs[i].ranges.Ranges? then kept.ranges == refs[i].ranges else kept.ranges == Undefined)
  }

  lemma AttachesIff(ref: HistoryRef, active: Option<string>, id: string)
    ensures Attaches(ref, active, id) <==> IsAcceptable(ref, active) && Id(ref) == id
  {
  }

  lemma FirstOfIff(refs: seq<HistoryRef>, active: Option<string>, i: nat, id: string)
    ensures IsFirstOf(refs, active, i, id) <==> IsFirst(refs, active, i) && Id(refs[i]) == id
  {
    forall j | 0 <= j < |refs| { AttachesIff(refs[j], active, id); }
  }

  /** The normalised list holds at most four references, in order a copy of the first one to attach each id: `at`
      gives the positions they come from, and a first one is left out only when the list is full and it comes later
      than everything kept. */
  lemma NormalizedKeepsEarliest(refs: seq<HistoryRef>, active: Option<string>) returns (at: seq<nat>)
    ensures |at| == |Normalized(refs, active)| <= 4
    ensures forall k :: 0 <= k < |at| ==> IsFirstCopy(refs, active, at[k], Normalized(refs, active)[k])
    ensures forall k, m :: 0 <= k < m < |at| ==> at[k] < at[m]
    ensures forall i: nat, id :: IsFirstOf(refs, active, i, id) && i !in at ==>
              |at| == 4 && forall k :: 0 <= k < |at| ==> at[k] < i
  {
    at := EarliestPositions(refs, active);
    forall k | 0 <= k < |at| ensures IsFirstCopy(refs, active, at[k], Normalized(refs, active)[k]) {
      assert Selects(refs, active, at[k], Normalized(refs, active)[k]);
      FirstOfIff(refs, active, at[k], Id(refs[at[k]]));
    }
    forall i: nat, id | IsFirstOf(refs, active, i, id) && i !in at
      ensures |at| == 4 && forall k :: 0 <= k < |at| ==> at[k] < i
    {
      FirstOfIff(refs, active, i, id);
    }
  }

  lemma {:induction false} FirstPositionsPrefix(refs: seq<HistoryRef>, active: Option<string>, i: nat, n: nat)
    requires i <= n <= |refs|
    ensures FirstPositions(refs, active, i) <= FirstPositions(refs, active, n)
  {
    if i < n {
      FirstPositionsPrefix(refs, active, i, n - 1);
    }
  }

  /** The first occurrence at `i` is one of the four earliest. */
  lemma EarliestIff(refs: seq<HistoryRef>, active: Option<string>, i: nat)
    requires IsFirst(refs, active, i)
    ensures i in Take(FirstPositions(refs, active, |refs|), MAX_HISTORY_REFS) <==>
            |FirstPositions(refs, active, i)| < MAX_HISTORY_REFS
  {
    var before, all := FirstPositions(refs, active, i), FirstPositions(refs, active, |refs|);
    FirstPositionsPrefix(refs, active, i + 1, |refs|);
    assert FirstPositions(refs, active, i + 1) == before + [i];
    assert all[|before|] == i;
    FirstPositionsIncrease(refs, active, |refs|);
    assert forall k :: 0 <= k < |all| && all[k] == i ==> k == |before|;
  }

  lemma KeptIsFirst(refs: seq<HistoryRef>, active: Option<string>, at: seq<nat>, i: nat)
    requires IsFirst(refs, active, i) && |at| == |Normalized(refs, active)|
    requires forall k :: 0 <= k < |at| ==> Selects(refs, active, at[k], Normalized(refs, active)[k])
    ensures Cleaned(refs[i]) in Normalized(refs, active) <==> i in at
  {
    var kept := Normalized(refs, active);
    CleanedKeepsId(refs[i]);
    if Cleaned(refs[i]) in kept {
      var k :| 0 <= k < |kept| && kept[k] == Cleaned(refs[i]);
      assert Selects(refs, active, at[k], kept[k]);
      CleanedKeepsId(refs[at[k]]);
      assert at[k] == i;
    }
    if i in at {
      var k :| 0 <= k < |at| && at[k] == i;
      assert Selects(refs, active, at[k], kept[k]);
    }
  }

  /** The first occurrence of an id is kept exactly when fewer than four first occurrences precede it. */
  lemma FirstIsKeptIff(refs: seq<HistoryRef>, active: Option<string>, i: nat)
    requires IsFirst(refs, active, i)
    ensures Cleaned(refs[i]) in Normalized(refs, active) <==> |FirstPositions(refs, active, i)| < 4
  {
    FirstPositionsIncrease(refs, active, |refs|);
    FirstPositionsSelect(refs, active, |refs|);
    assert refs[..|refs|] == refs;
    EarliestIff(refs, active, i);
    KeptIsFirst(refs, active, Take(FirstPositions(refs, active, |refs|), MAX_HISTORY_REFS), i);
  }

  /** Detaching takes away exactly the references whose id is the given text as it stands, untrimmed; a list with a
      null element makes it throw. */
  lemma RemovedIff(refs: seq<HistoryRef>, id: string)
    ensures Removed(Some(refs), id).None? <==> NullRef in refs
    ensures NullRef !in refs ==> forall r :: r in Removed(Some(refs), id).value <==> r in refs && r.sessionId != Some(id)
  {
    FilterMembers(refs, (r: HistoryRef) => r.NullRef? || r.sessionId != Some(id));
  }

  /** Detaching commutes with normalising: removing an id from a normalised list never fails and leaves a
      normalised list without that id and with every other reference in place. */
  lemma RemoveKeepsNormalized(refs: seq<HistoryRef>, active: Option<string>, id: string)
    ensures Removed(Some(Normalized(refs, active)), id).Some?
    ensures var left := Removed(Some(Normalized(refs, active)), id).value;
            && Normalized(left, active) == left
            && forall r :: r in left <==> r in Normalized(refs, active) && Id(r) != id
  {
    var n := Normalized(refs, active);
    var keep := (r: HistoryRef) => r.NullRef? || r.sessionId != Some(id);
    var left := Filter(n, keep);
    NormalizedIsClean(refs, active);
    assert Removed(Some(n), id) == Some(left);
    FilterMembers(n, keep);
    CleanFixed(left, active);
    DistinctByPairwise(Clean(refs, active), Id);
    FilterPairwise(n, keep);
    DistinctByFixed(left, Id);
  }

  lemma {:induction false} FilterPairwise(xs: seq<HistoryRef>, p: HistoryRef -> bool)
    requires PairwiseDistinct(xs, Id)
    ensures PairwiseDistinct(Filter(xs, p), Id)
    ensures |Filter(xs, p)| <= |xs|
  {
    if xs != [] {
      FilterPairwise(xs[1..], p);
      FilterMembers(xs[1..], p);
      assert forall r :: r in xs[1..] ==> Id(r) != Id(xs[0]);
      forall k | 0 <= k < |Filter(xs[1..], p)| ensures Id(Filter(xs[1..], p)[k]) != Id(xs[0]) {
        assert Filter(xs[1..], p)[k] in Filter(xs[1..], p);
      }
    }
  }

  /** The promise of the comment on `normalizeHistoryRefs`, that the most recent attachment is kept: it is exactly
      when the cap drops nothing. */
  lemma NewestIsKeptIff(refs: seq<HistoryRef>, active: Option<string>)
    requires refs != [] && PairwiseDistinct(refs, Id)
    requires forall k :: 0 <= k < |refs| ==> IsClean(refs[k], active)
    ensures refs[|refs| - 1] in Normalized(refs, active) <==> |refs| <= 4
  {
    CleanFixed(refs, active);
    DistinctByFixed(refs, Id);
    var n := |refs| - 1;
    if |refs| > MAX_HISTORY_REFS {
      forall k | 0 <= k < MAX_HISTORY_REFS ensures refs[..MAX_HISTORY_REFS][k] != refs[n] {
        assert Id(refs[k]) != Id(refs[n]);
      }
    }
  }

  /** From the fifth one on the newest attachments are dropped. */
  lemma NewestAreDropped(refs: seq<HistoryRef>, active: Option<string>)
    requires PairwiseDistinct(refs, Id) && forall k :: 0 <= k < |refs| ==> IsClean(refs[k], active)
    ensures Normalized(refs, active) == if |refs| <= 4 then refs else refs[..4]
  {
    CleanFixed(refs, active);
    DistinctByFixed(refs, Id);
  }
}
