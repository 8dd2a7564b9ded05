/** GitHub URL parsing of src/clone-url.ts: anchored patterns with a greedy owner and a lazy repository. */
module CloneUrl {
  import opened Common
  import opened Text

  datatype ParsedGitHubUrl = ParsedGitHubUrl(owner: string, repo: string, ssh: bool)

  /** The three accepted syntaxes. */
  datatype Form = Scp | Https | Bare

  function Prefix(form: Form): string {
    match form
    case Scp => "git@github.com:"
    case Https => "https://github.com/"
    case Bare => "github.com/"
  }

  /** The character class `[a-z0-9_.-]`. */
  predicate IsNameChar(c: char) {
    'a' <= c <= 'z' || '0' <= c <= '9' || c == '_' || c == '.' || c == '-'
  }

  predicate IsName(s: string) {
    s != "" && forall i :: 0 <= i < |s| ==> IsNameChar(s[i])
  }

  /** What may follow the repository: an optional `.git`, an optional slash, the end. */
  predicate IsTail(s: string) {
    s == "" || s == "/" || s == ".git" || s == ".git/"
  }

  /** The greedy owner group: the length of the longest run of name characters from `from`. */
  function NameRun(s: string, from: nat): (n: nat)
    requires from <= |s|
    ensures from + n <= |s|
    ensures forall i :: from <= i < from + n ==> IsNameChar(s[i])
    ensures from + n < |s| ==> !IsNameChar(s[from + n])
    decreases |s| - from
  {
    if from < |s| && IsNameChar(s[from]) then 1 + NameRun(s, from + 1) else 0
  }

  /** The lazy repository group: the first length above `n` that lets the rest of the pattern match. */
  function LazyRepo(s: string, n: nat): (r: Option<nat>)
    requires n <= |s|
    ensures r.Some? ==> n < r.value <= |s| && IsTail(s[r.value..])
    ensures r.Some? ==> forall i :: n <= i < r.value ==> IsNameChar(s[i])
    ensures forall m :: n < m <= |s| && IsTail(s[m..]) && (forall i :: n <= i < m ==> IsNameChar(s[i])) ==>
              r.Some? && r.value <= m
    decreases |s| - n
  {
    if n == |s| || !IsNameChar(s[n]) then None
    else if IsTail(s[n + 1..]) then Some(n + 1)
    else LazyRepo(s, n + 1)
  }

  /** One anchored pattern: the prefix, the owner, a slash, the repository, the tail. */
  function MatchAfter(prefix: string, value: string): Option<(string, string)> {
    if !(prefix <= value) then None
    else
      var rest := value[|prefix|..];
      var n := NameRun(rest, 0);
      if n == 0 || n == |rest| || rest[n] != '/' then None
      else
        var tail := rest[n + 1..];
        match LazyRepo(tail, 0)
        case None => None
        case Some(m) => Some((rest[..n], tail[..m]))
  }

  function ParseGitHubUrl(raw: string): Option<ParsedGitHubUrl> {
    var value := Lower(Trim(raw));
    if value == "" then None
    else
      match MatchAfter(Prefix(Scp), value)
      case Some(m) => Some(ParsedGitHubUrl(m.0, m.1, true))
      case None =>
        match MatchAfter(Prefix(Https), value)
        case Some(m) => Some(ParsedGitHubUrl(m.0, m.1, false))
        case None =>
          match MatchAfter(Prefix(Bare), value)
          case Some(m) => Some(ParsedGitHubUrl(m.0, m.1, false))
          case None => None
  }

  // ---- What a match is -------------------------------------------------------------------

  /** `value` splits as the pattern says. */
  ghost predicate Splits(value: string, prefix: string, owner: string, repo: string, tail: string) {
    value == prefix + owner + "/" + repo + tail && IsName(owner) && IsName(repo) && IsTail(tail)
  }

  lemma OwnerIsForced(value: string, prefix: string, owner: string, repo: string, tail: string)
    requires Splits(value, prefix, owner, repo, tail)
    ensures var rest := value[|prefix|..];
            prefix <= value && rest == owner + "/" + repo + tail && NameRun(rest, 0) == |owner| && rest[|owner| + 1..] == repo + tail
  {
    var rest := value[|prefix|..];
    assert rest == owner + "/" + repo + tail;
    assert rest[|owner|] == '/';
    assert forall i :: 0 <= i < |owner| ==> rest[i] == owner[i];
  }

  lemma RepoIsLazy(tail: string, repo: string, end: string)
    requires tail == repo + end && IsName(repo) && IsTail(end)
    ensures LazyRepo(tail, 0).Some? && LazyRepo(tail, 0).value <= |repo|
  {
    assert tail[|repo|..] == end;
    assert forall i :: 0 <= i < |repo| ==> tail[i] == repo[i];
  }

  lemma JoinSplit(prefix: string, owner: string, repo: string, tail: string)
    ensures prefix + (owner + ("/" + (repo + tail))) == prefix + owner + "/" + repo + tail
  {
  }

  /** The lazy group splits what follows the owner. */
  lemma RepoSplits(after: string) returns (repo: string, tail: string)
    requires LazyRepo(after, 0).Some?
    ensures repo == after[..LazyRepo(after, 0).value] && after == repo + tail && IsName(repo) && IsTail(tail)
  {
    var m := LazyRepo(after, 0).value;
    repo, tail := after[..m], after[m..];
  }

  lemma OwnerSplits(rest: string, n: nat) returns (after: string)
    requires n == NameRun(rest, 0) && 0 < n < |rest| && rest[n] == '/'
    ensures after == rest[n + 1..] && rest == rest[..n] + ("/" + after) && IsName(rest[..n])
  {
    after := rest[n + 1..];
  }

  lemma MatchSplits(prefix: string, value: string) returns (tail: string)
    requires MatchAfter(prefix, value).Some?
    ensures var m := MatchAfter(prefix, value).value; Splits(value, prefix, m.0, m.1, tail)
  {
    var rest := value[|prefix|..];
    var n := NameRun(rest, 0);
    var after := OwnerSplits(rest, n);
    var repo, end := RepoSplits(after);
    tail := end;
    assert value == prefix + rest;
    JoinSplit(prefix, rest[..n], repo, tail);
  }

  lemma MatchFindsShortest(prefix: string, value: string, owner: string, repo: string, tail: string)
    requires Splits(value, prefix, owner, repo, tail)
    ensures var r := MatchAfter(prefix, value); r.Some? && r.value.0 == owner && |r.value.1| <= |repo|
  {
    OwnerIsForced(value, prefix, owner, repo, tail);
    RepoIsLazy(repo + tail, repo, tail);
  }

  /** All splits share what follows the owner, so a repository is determined by its length. */
  lemma RepoByLength(value: string, prefix: string, owner: string, repo: string, tail: string, repo': string, tail': string)
    requires Splits(value, prefix, owner, repo, tail) && Splits(value, prefix, owner, repo', tail')
    requires |repo| == |repo'|
    ensures repo == repo'
  {
    SameRest(value, prefix, owner, repo, tail, repo', tail');
    assert (repo + tail)[..|repo|] == repo;
  }

  /** `p` is the reading of `value` in syntax `form`: a split, and none has a shorter repository. */
  ghost predicate Reads(value: string, form: Form, p: ParsedGitHubUrl) {
    && p.ssh == form.Scp?
    && (exists tail :: Splits(value, Prefix(form), p.owner, p.repo, tail))
    && forall repo, tail :: Splits(value, Prefix(form), p.owner, repo, tail) ==> |p.repo| <= |repo|
  }

  lemma MatchIffReads(value: string, form: Form, p: ParsedGitHubUrl)
    requires p.ssh == form.Scp?
    ensures MatchAfter(Prefix(form), value) == Some((p.owner, p.repo)) <==> Reads(value, form, p)
  {
    var m := MatchAfter(Prefix(form), value);
    if m.Some? {
      var tail := MatchSplits(Prefix(form), value);
      forall repo, tail | Splits(value, Prefix(form), m.value.0, repo, tail) ensures |m.value.1| <= |repo| {
        MatchFindsShortest(Prefix(form), value, m.value.0, repo, tail);
      }
    }
    if Reads(value, form, p) {
      var tail :| Splits(value, Prefix(form), p.owner, p.repo, tail);
      MatchFindsShortest(Prefix(form), value, p.owner, p.repo, tail);
      var tail' := MatchSplits(Prefix(form), value);
      RepoByLength(value, Prefix(form), p.owner, p.repo, tail, m.value.1, tail');
    }
  }

  lemma FormsAreDisjoint(value: string, a: Form, b: Form)
    requires a != b && Prefix(a) <= value
    ensures !(Prefix(b) <= value)
  {
    assert value[0] == Prefix(a)[0] && value[3] == Prefix(a)[3];
    assert Prefix(a)[0] != Prefix(b)[0] || Prefix(a)[3] != Prefix(b)[3];
  }

  lemma ParseFrom(raw: string, form: Form, p: ParsedGitHubUrl)
    requires MatchAfter(Prefix(form), Lower(Trim(raw))) == Some((p.owner, p.repo)) && p.ssh == form.Scp?
    ensures ParseGitHubUrl(raw) == Some(p)
  {
    OnlyFormMatches(Lower(Trim(raw)), form);
  }

  lemma ParseUsed(raw: string, p: ParsedGitHubUrl) returns (form: Form)
    requires ParseGitHubUrl(raw) == Some(p)
    ensures MatchAfter(Prefix(form), Lower(Trim(raw))) == Some((p.owner, p.repo)) && p.ssh == form.Scp?
  {
    form := if p.ssh then Scp else if MatchAfter(Prefix(Https), Lower(Trim(raw))).Some? then Https else Bare;
  }

  /** The parser accepts exactly the texts that, trimmed and lower-cased, can be read in one of the
      three syntaxes, and returns that reading. */
  lemma ParseIffReads(raw: string, p: ParsedGitHubUrl)
    ensures ParseGitHubUrl(raw) == Some(p) <==> exists form :: Reads(Lower(Trim(raw)), form, p)
  {
    if ParseGitHubUrl(raw) == Some(p) {
      var form := ParseUsed(raw, p);
      MatchIffReads(Lower(Trim(raw)), form, p);
    }
    forall form | Reads(Lower(Trim(raw)), form, p) ensures ParseGitHubUrl(raw) == Some(p) {
      MatchIffReads(Lower(Trim(raw)), form, p);
      ParseFrom(raw, form, p);
    }
  }

  lemma OnlyFormMatches(value: string, form: Form)
    requires MatchAfter(Prefix(form), value).Some?
    ensures forall other :: other != form ==> MatchAfter(Prefix(other), value).None?
  {
    forall other | other != form ensures MatchAfter(Prefix(other), value).None? {
      FormsAreDisjoint(value, form, other);
    }
  }

  // ---- Round trips -----------------------------------------------------------------------

  function Print(form: Form, owner: string, repo: string, tail: string): string {
    Prefix(form) + owner + "/" + repo + tail
  }

  /** A clone address survives trimming and lower-casing. */
  lemma PrintIsNormal(form: Form, owner: string, repo: string, tail: string)
    requires IsName(owner) && IsName(repo) && IsTail(tail)
    ensures Lower(Trim(Print(form, owner, repo, tail))) == Print(form, owner, repo, tail)
  {
    var s := Print(form, owner, repo, tail);
    assert forall i :: 0 <= i < |repo| ==> !IsSpace(repo[i]);
    assert s[0] == Prefix(form)[0];
    assert s[|s| - 1] == if tail == "" then repo[|repo| - 1] else tail[|tail| - 1];
    TrimIsTight(s);
    forall i | 0 <= i < |s| ensures LowerChar(s[i]) == s[i] {
      PrintChars(form, owner, repo, tail, i);
    }
  }

  lemma PrintChars(form: Form, owner: string, repo: string, tail: string, i: nat)
    requires IsName(owner) && IsName(repo) && IsTail(tail)
    requires i < |Print(form, owner, repo, tail)|
    ensures !('A' <= Print(form, owner, repo, tail)[i] <= 'Z')
  {
    var p := Prefix(form);
    if i < |p| {
      PrefixChars(form, i);
    }
  }

  lemma PrefixChars(form: Form, i: nat)
    requires i < |Prefix(form)|
    ensures !('A' <= Prefix(form)[i] <= 'Z')
  {
  }

  /** The only shorter repository a printed address could be read with is the same name without a
      trailing `.git`. */
  lemma ShorterSplit(repo: string, tail: string, repo': string, tail': string)
    requires repo + tail == repo' + tail' && IsTail(tail) && IsTail(tail')
    requires IsName(repo) && IsName(repo') && |repo'| < |repo|
    ensures repo == repo' + ".git" && (tail == "" || tail == "/")
  {
    assert (repo + tail)[..|repo|] == repo && (repo + tail)[|repo|..] == tail;
    var cut := (repo' + tail')[|repo'|..];
    assert cut == tail' && cut == repo[|repo'|..] + tail;
    assert IsNameChar(cut[0]) by { assert cut[0] == repo[|repo'|]; }
    assert |tail'| == |repo| - |repo'| + |tail|;
    assert repo[|repo'|..] == tail'[..|repo| - |repo'|];
    assert repo[|repo| - 1] == tail'[|repo| - |repo'| - 1];
    assert repo == repo[..|repo'|] + repo[|repo'|..];
  }

  /** A printed address is read back when no shorter repository fits. */
  lemma PrintReads(form: Form, owner: string, repo: string, tail: string)
    requires IsName(owner) && IsName(repo) && IsTail(tail)
    requires tail == ".git" || tail == ".git/" || !(|repo| > 4 && repo[|repo| - 4..] == ".git")
    ensures Reads(Print(form, owner, repo, tail), form, ParsedGitHubUrl(owner, repo, form.Scp?))
  {
    var s := Print(form, owner, repo, tail);
    assert Splits(s, Prefix(form), owner, repo, tail);
    forall repo', tail' | Splits(s, Prefix(form), owner, repo', tail') ensures |repo| <= |repo'| {
      SameRest(s, Prefix(form), owner, repo, tail, repo', tail');
      if |repo'| < |repo| {
        ShorterSplit(repo, tail, repo', tail');
      }
    }
  }

  lemma SameRest(s: string, prefix: string, owner: string, repo: string, tail: string, repo': string, tail': string)
    requires s == prefix + owner + "/" + repo + tail == prefix + owner + "/" + repo' + tail'
    ensures repo + tail == repo' + tail'
  {
    var k := |prefix| + |owner| + 1;
    assert s[k..] == repo + tail && s[k..] == repo' + tail';
  }

  /** A repository named `short.git` is read as `short` when printed without a further suffix. */
  lemma GitSuffixIsEaten(form: Form, owner: string, short: string, tail: string)
    requires IsName(owner) && IsName(short) && (tail == "" || tail == "/")
    ensures forall other, p :: Reads(Print(form, owner, short + ".git", tail), other, p) && p.owner == owner ==> |p.repo| <= |short|
  {
    var s := Print(form, owner, short + ".git", tail);
    assert s == Prefix(form) + owner + "/" + short + (".git" + tail);
    assert Splits(s, Prefix(form), owner, short, ".git" + tail);
    forall other, p | Reads(s, other, p) && p.owner == owner ensures |p.repo| <= |short| {
      if other != form {
        FormsAreDisjoint(s, form, other);
        assert false;
      }
    }
  }

  lemma GitSuffixFails(form: Form, owner: string, short: string, tail: string)
    requires IsName(owner) && IsName(short) && IsName(short + ".git") && (tail == "" || tail == "/")
    ensures ParseGitHubUrl(Print(form, owner, short + ".git", tail)) != Some(ParsedGitHubUrl(owner, short + ".git", form.Scp?))
  {
    PrintIsNormal(form, owner, short + ".git", tail);
    GitSuffixIsEaten(form, owner, short, tail);
    ParseIffReads(Print(form, owner, short + ".git", tail), ParsedGitHubUrl(owner, short + ".git", form.Scp?));
  }

  lemma PlainSucceeds(form: Form, owner: string, repo: string, tail: string)
    requires IsName(owner) && IsName(repo) && IsTail(tail)
    requires tail == ".git" || tail == ".git/" || !(|repo| > 4 && repo[|repo| - 4..] == ".git")
    ensures ParseGitHubUrl(Print(form, owner, repo, tail)) == Some(ParsedGitHubUrl(owner, repo, form.Scp?))
  {
    PrintIsNormal(form, owner, repo, tail);
    PrintReads(form, owner, repo, tail);
    ParseIffReads(Print(form, owner, repo, tail), ParsedGitHubUrl(owner, repo, form.Scp?));
  }

  /** Without the suffix the round trip holds exactly when the repository's own name does not end
      in `.git` after at least one other character. */
  lemma BareRoundTripIff(form: Form, owner: string, repo: string, slash: bool)
    requires IsName(owner) && IsName(repo)
    ensures ParseGitHubUrl(Print(form, owner, repo, if slash then "/" else ""))
            == Some(ParsedGitHubUrl(owner, repo, form.Scp?))
            <==> !(|repo| > 4 && repo[|repo| - 4..] == ".git")
  {
    if |repo| > 4 && repo[|repo| - 4..] == ".git" {
      var short := repo[..|repo| - 4];
      assert short + ".git" == repo;
      GitSuffixFails(form, owner, short, if slash then "/" else "");
    } else {
      PlainSucceeds(form, owner, repo, if slash then "/" else "");
    }
  }

  /** Whatever was accepted, printing the result in full and parsing again gives the result back. */
  lemma ParsePrintParse(raw: string, slash: bool)
    requires ParseGitHubUrl(raw).Some?
    ensures var p := ParseGitHubUrl(raw).value;
            forall form: Form | form.Scp? == p.ssh ::
              ParseGitHubUrl(Print(form, p.owner, p.repo, if slash then ".git/" else ".git")) == Some(p)
  {
    var p := ParseGitHubUrl(raw).value;
    ParseIffReads(raw, p);
    var form0 :| Reads(Lower(Trim(raw)), form0, p);
    forall form: Form | form.Scp? == p.ssh
      ensures ParseGitHubUrl(Print(form, p.owner, p.repo, if slash then ".git/" else ".git")) == Some(p)
    {
      PlainSucceeds(form, p.owner, p.repo, if slash then ".git/" else ".git");
    }
  }

  // ---- Which texts are addresses ---------------------------------------------------------

  predicate IsSite(site: string, ssh: bool) {
    if ssh then site == "git@github.com:" else site == "https://github.com/" || site == "github.com/"
  }

  predicate IsWrittenName(s: string) {
    s != "" && forall i :: 0 <= i < |s| ==> 'a' <= s[i] <= 'z' || '0' <= s[i] <= '9' || s[i] in {'_', '.', '-'}
  }

  /** An address in small letters: the site, the owner, a slash, the repository and what may follow it. A name that
      ends in ".git" needs the suffix itself behind it. */
  predicate IsAddress(s: string, p: ParsedGitHubUrl, site: string, tail: string) {
    && s == site + p.owner + "/" + p.repo + tail
    && IsSite(site, p.ssh) && IsWrittenName(p.owner) && IsWrittenName(p.repo)
    && (|| tail == ".git" || tail == ".git/"
        || ((tail == "" || tail == "/") && !(|p.repo| > 4 && p.repo[|p.repo| - 4..] == ".git")))
  }

  /** `raw` is such an address, in whatever case and with whatever blanks around it. */
  ghost predicate IsAddressLike(raw: string, p: ParsedGitHubUrl) {
    exists pre, text, post, s, site, tail ::
      IsPadded(raw, pre, text, post) && IsCasingOf(text, s) && IsAddress(s, p, site, tail)
  }

  lemma NamesAreWritten(s: string)
    ensures IsName(s) <==> IsWrittenName(s)
  {
  }

  lemma SiteIsPrefix(site: string, ssh: bool) returns (form: Form)
    requires IsSite(site, ssh)
    ensures site == Prefix(form) && ssh == form.Scp?
  {
    form := if ssh then Scp else if site == "github.com/" then Bare else Https;
  }

  lemma AddressIsRead(s: string, p: ParsedGitHubUrl, site: string, tail: string) returns (form: Form)
    requires IsAddress(s, p, site, tail)
    ensures s == Print(form, p.owner, p.repo, tail) && Reads(s, form, p)
    ensures IsName(p.owner) && IsName(p.repo) && IsTail(tail)
  {
    form := SiteIsPrefix(site, p.ssh);
    NamesAreWritten(p.owner);
    NamesAreWritten(p.repo);
    PrintReads(form, p.owner, p.repo, tail);
  }

  lemma ReadIsAddress(s: string, form: Form, p: ParsedGitHubUrl) returns (tail: string)
    requires Reads(s, form, p)
    ensures IsAddress(s, p, Prefix(form), tail)
  {
    tail :| Splits(s, Prefix(form), p.owner, p.repo, tail);
    NamesAreWritten(p.owner);
    NamesAreWritten(p.repo);
    if (tail == "" || tail == "/") && |p.repo| > 4 && p.repo[|p.repo| - 4..] == ".git" {
      var short := p.repo[..|p.repo| - 4];
      assert s == Prefix(form) + p.owner + "/" + short + (".git" + tail);
      assert Splits(s, Prefix(form), p.owner, short, ".git" + tail);
    }
  }

  /** Printing an address of any of the three sites with `.git`, with or without a trailing slash, parses back to the
      same owner, repository and ssh flag. */
  lemma PrintParseRoundTrip(site: string, ssh: bool, owner: string, repo: string, slash: bool)
    requires IsSite(site, ssh) && IsWrittenName(owner) && IsWrittenName(repo)
    ensures ParseGitHubUrl(site + owner + "/" + repo + if slash then ".git/" else ".git")
            == Some(ParsedGitHubUrl(owner, repo, ssh))
  {
    var form := SiteIsPrefix(site, ssh);
    NamesAreWritten(owner);
    NamesAreWritten(repo);
    PlainSucceeds(form, owner, repo, if slash then ".git/" else ".git");
  }

  /** The first and the last character of an address are no blanks, in either case. */
  lemma CasingHasNoMargin(text: string, form: Form, owner: string, repo: string, tail: string)
    requires IsName(owner) && IsName(repo) && IsTail(tail)
    requires IsCasingOf(text, Print(form, owner, repo, tail))
    ensures HasNoMargin(text)
  {
    var s := Print(form, owner, repo, tail);
    assert s[0] == Prefix(form)[0];
    LastIsNoSpace(form, owner, repo, tail);
    CasingIsNoSpace(text, s, 0);
    CasingIsNoSpace(text, s, |s| - 1);
  }

  lemma LastIsNoSpace(form: Form, owner: string, repo: string, tail: string)
    requires IsName(owner) && IsName(repo) && IsTail(tail)
    ensures var s := Print(form, owner, repo, tail); s != "" && !IsSpace(s[|s| - 1])
  {
    var s := Print(form, owner, repo, tail);
    assert s[|s| - 1] == if tail == "" then repo[|repo| - 1] else tail[|tail| - 1];
  }

  lemma CasingIsNoSpace(text: string, s: string, i: nat)
    requires IsCasingOf(text, s) && i < |s| && !IsSpace(s[i])
    ensures !IsBlank([text[i]])
  {
    SpaceIsBlank(text[i]);
  }

  /** The parser accepts exactly the texts that are such an address, in any case and with any blanks around it, and
      returns what that address names. */
  lemma ParseIffAddress(raw: string, p: ParsedGitHubUrl)
    ensures ParseGitHubUrl(raw) == Some(p) <==> IsAddressLike(raw, p)
  {
    ParseIffReads(raw, p);
    if ParseGitHubUrl(raw) == Some(p) {
      var form :| Reads(Lower(Trim(raw)), form, p);
      AcceptedIsAddress(raw, form, p);
    }
    if IsAddressLike(raw, p) {
      var pre, text, post, s, site, tail :|
        IsPadded(raw, pre, text, post) && IsCasingOf(text, s) && IsAddress(s, p, site, tail);
      var form := AddressIsRead(s, p, site, tail);
      CasingHasNoMargin(text, form, p.owner, p.repo, tail);
      TrimIff(raw, text);
      PrintHasNoCapitals(form, p.owner, p.repo, tail);
      LowerIff(text, s);
    }
  }

  lemma AcceptedIsAddress(raw: string, form: Form, p: ParsedGitHubUrl)
    requires Reads(Lower(Trim(raw)), form, p)
    ensures IsAddressLike(raw, p)
  {
    var s := Lower(Trim(raw));
    var pre, post := TrimPads(raw);
    LowerIff(Trim(raw), s);
    var tail := ReadIsAddress(s, form, p);
    assert IsPadded(raw, pre, Trim(raw), post) && IsCasingOf(Trim(raw), s) && IsAddress(s, p, Prefix(form), tail);
  }

  lemma PrintHasNoCapitals(form: Form, owner: string, repo: string, tail: string)
    requires IsName(owner) && IsName(repo) && IsTail(tail)
    ensures HasNoCapitals(Print(form, owner, repo, tail))
  {
    forall i | 0 <= i < |Print(form, owner, repo, tail)| ensures !('A' <= Print(form, owner, repo, tail)[i] <= 'Z') {
      PrintChars(form, owner, repo, tail, i);
    }
  }
}
