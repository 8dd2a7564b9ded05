/** Line splitting and tailing of cmd/logs.go. */
module TextLines {
  import opened Common

  /** The lines of `s` that a newline ends. */
  function Complete(s: string): seq<string> {
    if s == "" then []
    else if s[|s| - 1] == '\n' then Complete(s[..|s| - 1]) + [Partial(s[..|s| - 1])]
    else Complete(s[..|s| - 1])
  }

  /** What follows the last newline of `s`. */
  function Partial(s: string): string {
    if s == "" || s[|s| - 1] == '\n' then "" else Partial(s[..|s| - 1]) + [s[|s| - 1]]
  }

  function Lines(s: string): seq<string> {
    if Partial(s) == "" then Complete(s) else Complete(s) + [Partial(s)]
  }

  method SplitLines(s: string) returns (out: seq<string>)
    ensures out == Lines(s)
  {
    out := [];
    var start := 0;
    for i := 0 to |s|
      invariant 0 <= start <= i
      invariant out == Complete(s[..i])
      invariant s[start..i] == Partial(s[..i])
    {
      SplitSnoc(s, start, i);
      if s[i] == '\n' {
        out := out + [s[start..i]];
        start := i + 1;
      }
    }
    assert s[..|s|] == s;
    assert out == Complete(s) && s[start..|s|] == Partial(s);
    if start < |s| {
      out := out + [s[start..|s|]];
    }
  }

  /** One more character ends the line begun at `start` or extends it. */
  lemma SplitSnoc(s: string, start: nat, i: nat)
    requires start <= i < |s| && s[start..i] == Partial(s[..i])
    ensures s[i] == '\n' ==> Complete(s[..i + 1]) == Complete(s[..i]) + [s[start..i]] && Partial(s[..i + 1]) == s[i + 1..i + 1]
    ensures s[i] != '\n' ==> Complete(s[..i + 1]) == Complete(s[..i]) && Partial(s[..i + 1]) == s[start..i + 1]
  {
    assert s[..i + 1][..i] == s[..i];
    assert s[start..i + 1] == s[start..i] + [s[i]];
  }

  /** `data` is `None` when the file cannot be read. */
  method ReadTail(data: Option<string>, n: int) returns (lines: seq<string>)
    ensures data.None? ==> lines == ["(no app.log yet)"]
    ensures data.Some? && n <= 0 ==> lines == Lines(data.value)
    ensures data.Some? && n > 0 ==>
              exists dropped :: dropped + lines == Lines(data.value)
                             && |lines| == if |Lines(data.value)| > n then n else |Lines(data.value)|
  {
    if data.None? {
      return ["(no app.log yet)"];
    }
    lines := SplitLines(data.value);
    ghost var all := lines;
    if n > 0 && |lines| > n {
      lines := lines[|lines| - n..];
    }
    assert all[..|all| - |lines|] + lines == all;
  }

  // ---- Laws ------------------------------------------------------------------------------

  function Join(lines: seq<string>): string {
    if lines == [] then ""
    else if |lines| == 1 then lines[0]
    else Join(lines[..|lines| - 1]) + "\n" + lines[|lines| - 1]
  }

  /** Every line followed by a newline. */
  function Terminated(lines: seq<string>): string {
    if lines == [] then "" else Terminated(lines[..|lines| - 1]) + lines[|lines| - 1] + "\n"
  }

  function WithoutLastNewline(s: string): string {
    if s != "" && s[|s| - 1] == '\n' then s[..|s| - 1] else s
  }

  lemma {:induction false} PartialHasNoNewline(s: string)
    ensures '\n' !in Partial(s)
  {
    if s != "" && s[|s| - 1] != '\n' {
      PartialHasNoNewline(s[..|s| - 1]);
    }
  }

  /** Splitting loses nothing: the complete lines, each with its newline, and the rest are the text. */
  lemma {:induction false} SplitIsLossless(s: string)
    ensures Terminated(Complete(s)) + Partial(s) == s
    ensures forall line :: line in Complete(s) ==> '\n' !in line
  {
    if s != "" {
      var front := s[..|s| - 1];
      SplitIsLossless(front);
      PartialHasNoNewline(front);
      assert s == front + [s[|s| - 1]];
      if s[|s| - 1] == '\n' {
        assert Complete(s)[..|Complete(front)|] == Complete(front);
      }
    }
  }

  lemma {:induction false} TerminatedIsJoin(lines: seq<string>)
    requires lines != []
    ensures Terminated(lines) == Join(lines) + "\n"
  {
    if |lines| > 1 {
      TerminatedIsJoin(lines[..|lines| - 1]);
    }
  }

  /** The lines hold no newline, and joined by newlines they are the text minus one trailing newline. */
  lemma LinesJoin(s: string)
    ensures forall line :: line in Lines(s) ==> '\n' !in line
    ensures Join(Lines(s)) == WithoutLastNewline(s)
  {
    SplitIsLossless(s);
    PartialHasNoNewline(s);
    var whole, rest := Complete(s), Partial(s);
    if rest == "" {
      assert Terminated(whole) == s;
      if whole != [] {
        TerminatedIsJoin(whole);
        assert s == Join(whole) + "\n";
      }
    } else {
      assert (whole + [rest])[..|whole|] == whole;
      if whole != [] {
        TerminatedIsJoin(whole);
        assert s == Join(whole) + "\n" + rest;
      } else {
        assert s == rest;
      }
      assert s[|s| - 1] == rest[|rest| - 1];
    }
  }

  /** Newline-free lines are determined by their join, up to the empty text. */
  lemma {:induction false} JoinInjective(a: seq<string>, b: seq<string>)
    requires a != [] && b != []
    requires forall line :: line in a + b ==> '\n' !in line
    requires Join(a) == Join(b)
    ensures a == b
  {
    var m, n := |a| - 1, |b| - 1;
    assert a[m] in a + b && b[n] in a + b;
    LastLine(a);
    LastLine(b);
    assert a == a[..m] + [a[m]] && b == b[..n] + [b[n]];
    if m > 0 && n > 0 {
      forall line | line in a[..m] + b[..n] ensures '\n' !in line {
        assert line in a + b;
      }
      JoinFront(a);
      JoinFront(b);
      JoinInjective(a[..m], b[..n]);
    }
  }

  lemma JoinFront(lines: seq<string>)
    requires |lines| > 1
    ensures var n := |Join(lines)| - |lines[|lines| - 1]| - 1; 0 <= n <= |Join(lines)| && Join(lines[..|lines| - 1]) == Join(lines)[..n]
  {
  }

  /** The last line is what follows the last newline of the join. */
  lemma LastLine(lines: seq<string>)
    requires lines != [] && '\n' !in lines[|lines| - 1]
    ensures Partial(Join(lines)) == lines[|lines| - 1]
    ensures |lines| == 1 <==> |Join(lines)| == |lines[|lines| - 1]|
  {
    var last := lines[|lines| - 1];
    if |lines| > 1 {
      var front := Join(lines[..|lines| - 1]) + "\n";
      PartialAppend(front, last);
    } else {
      PartialAppend("", last);
      assert "" + last == last;
    }
  }

  lemma {:induction false} PartialAppend(front: string, last: string)
    requires front == "" || front[|front| - 1] == '\n'
    requires '\n' !in last
    ensures Partial(front + last) == last
  {
    if last == "" {
      assert front + last == front;
    } else {
      var n := |last| - 1;
      PartialAppend(front, last[..n]);
      assert (front + last)[..|front| + n] == front + last[..n];
    }
  }
}
