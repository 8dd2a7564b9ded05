/** ASCII text operations the parsers share: trimming, lower-casing, substring search. */
module Text {

  predicate IsSpace(c: char) {
    c == ' ' || c == '\t' || c == '\n' || c == '\r' || c == '\U{000B}' || c == '\U{000C}'
  }

  function TrimLeft(s: string): string {
    if s != "" && IsSpace(s[0]) then TrimLeft(s[1..]) else s
  }

  function TrimRight(s: string): string {
    if s != "" && IsSpace(s[|s| - 1]) then TrimRight(s[..|s| - 1]) else s
  }

  function Trim(s: string): string {
    TrimRight(TrimLeft(s))
  }

  /** No blank at either end. */
  predicate IsTight(s: string) {
    s == "" || (!IsSpace(s[0]) && !IsSpace(s[|s| - 1]))
  }

  lemma {:induction false} TrimLeftTight(s: string)
    ensures TrimLeft(s) == "" || !IsSpace(TrimLeft(s)[0])
  {
    if s != "" && IsSpace(s[0]) {
      TrimLeftTight(s[1..]);
    }
  }

  lemma {:induction false} TrimRightTight(s: string)
    requires s == "" || !IsSpace(s[0])
    ensures IsTight(TrimRight(s))
  {
    if s != "" && IsSpace(s[|s| - 1]) {
      TrimRightTight(s[..|s| - 1]);
    }
  }

  /** Trimming leaves no blank at either end, and leaves such a text alone. */
  lemma TrimIsTight(s: string)
    ensures IsTight(Trim(s))
    ensures IsTight(s) ==> Trim(s) == s
    ensures Trim(Trim(s)) == Trim(s)
  {
    TrimLeftTight(s);
    TrimRightTight(TrimLeft(s));
  }

  /** Nothing but blanks, tabs, line ends and feeds. */
  predicate IsBlank(s: string) {
    forall i :: 0 <= i < |s| ==> s[i] in {' ', '\t', '\n', '\r', '\U{000B}', '\U{000C}'}
  }

  /** No blank first or last. */
  predicate HasNoMargin(s: string) {
    s == "" || (!IsBlank([s[0]]) && !IsBlank([s[|s| - 1]]))
  }

  lemma SpaceIsBlank(c: char)
    ensures IsSpace(c) <==> IsBlank([c])
  {
    assert [c][0] == c;
  }

  lemma {:induction false} TrimLeftSplits(s: string) returns (pre: string)
    ensures s == pre + TrimLeft(s) && IsBlank(pre)
  {
    pre := "";
    if s != "" && IsSpace(s[0]) {
      var rest := TrimLeftSplits(s[1..]);
      pre := [s[0]] + rest;
    }
  }

  lemma {:induction false} TrimRightSplits(s: string) returns (post: string)
    ensures s == TrimRight(s) + post && IsBlank(post)
  {
    post := "";
    if s != "" && IsSpace(s[|s| - 1]) {
      var rest := TrimRightSplits(s[..|s| - 1]);
      post := rest + [s[|s| - 1]];
      assert s == s[..|s| - 1] + [s[|s| - 1]];
    }
  }

  lemma {:induction false} TrimLeftSkips(pre: string, rest: string)
    requires IsBlank(pre) && (rest == "" || !IsSpace(rest[0]))
    ensures TrimLeft(pre + rest) == rest
  {
    if pre == "" {
      assert pre + rest == rest;
    } else {
      SpaceIsBlank(pre[0]);
      TrimLeftSkips(pre[1..], rest);
      assert (pre + rest)[1..] == pre[1..] + rest;
    }
  }

  lemma {:induction false} TrimRightSkips(text: string, post: string)
    requires IsBlank(post) && (text == "" || !IsSpace(text[|text| - 1]))
    ensures TrimRight(text + post) == text
  {
    if post == "" {
      assert text + post == text;
    } else {
      var n := |post| - 1;
      SpaceIsBlank(post[n]);
      TrimRightSkips(text, post[..n]);
      assert (text + post)[..|text| + n] == text + post[..n];
    }
  }

  /** `raw` is `text` with blanks around it. */
  predicate IsPadded(raw: string, pre: string, text: string, post: string) {
    raw == pre + text + post && IsBlank(pre) && IsBlank(post)
  }

  lemma TrimSkips(raw: string, pre: string, text: string, post: string)
    requires IsPadded(raw, pre, text, post) && HasNoMargin(text)
    ensures Trim(raw) == text
  {
    if text == "" {
      assert raw == (pre + post) + "";
      TrimLeftSkips(pre + post, "");
    } else {
      SpaceIsBlank(text[0]);
      SpaceIsBlank(text[|text| - 1]);
      assert raw == pre + (text + post);
      TrimLeftSkips(pre, text + post);
      TrimRightSkips(text, post);
    }
  }

  lemma TrimPads(raw: string) returns (pre: string, post: string)
    ensures IsPadded(raw, pre, Trim(raw), post) && HasNoMargin(Trim(raw))
  {
    pre := TrimLeftSplits(raw);
    post := TrimRightSplits(TrimLeft(raw));
    assert raw == pre + (Trim(raw) + post) == pre + Trim(raw) + post;
    TightHasNoMargin(raw);
  }

  lemma TightHasNoMargin(raw: string)
    ensures HasNoMargin(Trim(raw))
  {
    var text := Trim(raw);
    TrimIsTight(raw);
    if text != "" {
      SpaceIsBlank(text[0]);
      SpaceIsBlank(text[|text| - 1]);
    }
  }

  /** Trimming takes away exactly the blanks around a text that starts and ends with none. */
  lemma TrimIff(raw: string, text: string)
    ensures Trim(raw) == text <==> HasNoMargin(text) && exists pre, post :: IsPadded(raw, pre, text, post)
  {
    var pre, post := TrimPads(raw);
    forall pre, post | IsPadded(raw, pre, text, post) && HasNoMargin(text) ensures Trim(raw) == text {
      TrimSkips(raw, pre, text, post);
    }
  }

  function LowerChar(c: char): char {
    if 'A' <= c <= 'Z' then (c as int + 32) as char else c
  }

  function Lower(s: string): (r: string)
    ensures |r| == |s|
    ensures forall i :: 0 <= i < |s| ==> r[i] == LowerChar(s[i])
  {
    seq(|s|, i requires 0 <= i < |s| => LowerChar(s[i]))
  }

  /** `s` is `t` with some of its small letters written as capitals. */
  predicate IsCasingOf(s: string, t: string) {
    && |s| == |t|
    && forall i :: 0 <= i < |s| ==> s[i] == t[i] || ('a' <= t[i] <= 'z' && s[i] as int == t[i] as int - 32)
  }

  predicate HasNoCapitals(s: string) {
    forall i :: 0 <= i < |s| ==> !('A' <= s[i] <= 'Z')
  }

  /** Lower-casing gives the one text without capitals that the text is a casing of. */
  lemma LowerIff(s: string, t: string)
    ensures Lower(s) == t <==> IsCasingOf(s, t) && HasNoCapitals(t)
  {
    if IsCasingOf(s, t) && HasNoCapitals(t) {
      forall i | 0 <= i < |s| ensures Lower(s)[i] == t[i] {
        assert s[i] == t[i] || ('a' <= t[i] <= 'z' && s[i] as int == t[i] as int - 32);
      }
    }
  }

  predicate StartsAt(s: string, t: string, k: int) {
    0 <= k <= |s| - |t| && s[k..k + |t|] == t
  }

  /** `t` occurs in `s` at some offset. */
  predicate Includes(s: string, t: string) {
    exists k :: 0 <= k <= |s| && StartsAt(s, t, k)
  }

  /** `t` stands somewhere in `s`. */
  ghost predicate HasPart(s: string, t: string) {
    exists a, b :: s == a + t + b
  }

  lemma IncludesIff(s: string, t: string)
    ensures Includes(s, t) <==> HasPart(s, t)
  {
    if Includes(s, t) {
      var k :| 0 <= k <= |s| && StartsAt(s, t, k);
      assert s == s[..k] + t + s[k + |t|..];
    }
    if a, b :| s == a + t + b {
      assert StartsAt(s, t, |a|);
    }
  }

  /** `t` stands somewhere in `s`, with whatever capitals. */
  ghost predicate HasWord(s: string, t: string) {
    exists a, x, b :: s == a + x + b && IsCasingOf(x, t)
  }

  lemma CasingAt(s: string, t: string, k: nat)
    requires k + |t| <= |s| && HasNoCapitals(t)
    ensures StartsAt(Lower(s), t, k) <==> IsCasingOf(s[k..k + |t|], t)
  {
    LowerIff(s[k..k + |t|], t);
    assert Lower(s)[k..k + |t|] == Lower(s[k..k + |t|]);
  }

  lemma IncludesLowerIff(s: string, t: string)
    requires HasNoCapitals(t)
    ensures Includes(Lower(s), t) <==> HasWord(s, t)
  {
    if Includes(Lower(s), t) {
      var k :| 0 <= k <= |s| && StartsAt(Lower(s), t, k);
      CasingAt(s, t, k);
      assert s == s[..k] + s[k..k + |t|] + s[k + |t|..];
    }
    if a, x, b :| s == a + x + b && IsCasingOf(x, t) {
      assert s[|a|..|a| + |t|] == x;
      CasingAt(s, t, |a|);
    }
  }
}
