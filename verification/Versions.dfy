/** Version parsing and ordering of cmd/stress_release_surface.go. */
module Versions {
  import opened Text
  import KeySort

  const TWO_63: int := 0x8000_0000_0000_0000
  const TWO_64: int := 0x1_0000_0000_0000_0000

  /** Go's 64-bit `int`: the value modulo 2^64, as a signed number. */
  function Wrap(x: int): int {
    (x + TWO_63) % TWO_64 - TWO_63
  }

  predicate IsDigit(c: char) { '0' <= c <= '9' }

  function Digit(c: char): nat
    requires IsDigit(c)
  {
    c as int - '0' as int
  }

  /** The value of the leading digits, accumulated in a Go `int`. */
  function LeadingInt(part: string, n: int): int
    decreases |part|
  {
    if part == "" || !IsDigit(part[0]) then n
    else LeadingInt(part[1..], Wrap(n * 10 + Digit(part[0])))
  }

  method ParsePart(part: string) returns (n: int)
    ensures n == LeadingInt(part, 0)
  {
    n := 0;
    for i := 0 to |part|
      invariant LeadingInt(part[i..], n) == LeadingInt(part, 0)
    {
      if !IsDigit(part[i]) {
        return;
      }
      n := Wrap(n * 10 + Digit(part[i]));
      assert part[i..][1..] == part[i + 1..];
    }
  }

  /** The index of the first dot, or the length. */
  function DotAt(v: string): (k: nat)
    ensures k <= |v|
    ensures k < |v| ==> v[k] == '.'
    ensures forall i :: 0 <= i < k ==> v[i] != '.'
  {
    if v == "" || v[0] == '.' then 0 else 1 + DotAt(v[1..])
  }

  /** `strings.SplitN(v, ".", n)` for positive `n`. */
  function SplitN(v: string, n: nat): (parts: seq<string>)
    requires n > 0
    ensures 1 <= |parts| <= n
  {
    var k := DotAt(v);
    if n == 1 || k == |v| then [v] else [v[..k]] + SplitN(v[k + 1..], n - 1)
  }

  function TrimV(v: string): string {
    if v != "" && v[0] == 'v' then v[1..] else v
  }

  /** The three numeric components; missing ones are zero. */
  function VersionParts(v: string): (out: seq<int>)
    ensures |out| == 3
  {
    Components(SplitN(TrimV(Trim(v)), 3))
  }

  function Components(parts: seq<string>): (out: seq<int>)
    ensures |out| == 3
    ensures forall k :: 0 <= k < 3 ==> out[k] == if k < |parts| then LeadingInt(parts[k], 0) else 0
  {
    [Component(parts, 0), Component(parts, 1), Component(parts, 2)]
  }

  function Component(parts: seq<string>, i: nat): int {
    if i < |parts| then LeadingInt(parts[i], 0) else 0
  }

  method ParseVersionParts(v: string) returns (out: seq<int>)
    ensures out == VersionParts(v)
  {
    var parts := SplitN(TrimV(Trim(v)), 3);
    out := [0, 0, 0];
    for i := 0 to |parts|
      invariant |out| == 3
      invariant forall k :: 0 <= k < 3 ==> out[k] == if k < i then LeadingInt(parts[k], 0) else 0
    {
      var n := ParsePart(parts[i]);
      out := out[i := n];
    }
  }

  /** Lexicographic order on components. */
  predicate PartsLess(a: seq<int>, b: seq<int>)
    requires |a| == |b| == 3
  {
    a[0] < b[0] || (a[0] == b[0] && (a[1] < b[1] || (a[1] == b[1] && a[2] < b[2])))
  }

  method VersionLessThan(a: string, b: string) returns (less: bool)
    ensures less == PartsLess(VersionParts(a), VersionParts(b))
  {
    var pa := ParseVersionParts(a);
    var pb := ParseVersionParts(b);
    for i := 0 to 3
      invariant forall k :: 0 <= k < i ==> pa[k] == pb[k]
    {
      if pa[i] != pb[i] {
        return pa[i] < pb[i];
      }
    }
    return false;
  }

  predicate Less(a: string, b: string) { PartsLess(VersionParts(a), VersionParts(b)) }

  /** A strict weak order on all texts: irreflexive, transitive, and being incomparable is having the
      same components. */
  lemma StrictWeakOrder(a: string, b: string, c: string)
    ensures !Less(a, a)
    ensures Less(a, b) && Less(b, c) ==> Less(a, c)
    ensures !Less(a, b) && !Less(b, a) <==> VersionParts(a) == VersionParts(b)
  {
    var x, y := VersionParts(a), VersionParts(b);
    if x[0] == y[0] && x[1] == y[1] && x[2] == y[2] {
      assert x == y;
    }
  }

  // ---- Printing --------------------------------------------------------------------------

  function DigitChar(d: nat): char
    requires d < 10
  {
    ('0' as int + d) as char
  }

  function Decimal(n: nat): (s: string)
    ensures s != "" && forall i :: 0 <= i < |s| ==> IsDigit(s[i])
  {
    if n < 10 then [DigitChar(n)] else Decimal(n / 10) + [DigitChar(n % 10)]
  }

  lemma {:induction false} LeadingIntSnoc(s: string, c: char, n: int)
    requires IsDigit(c) && forall i :: 0 <= i < |s| ==> IsDigit(s[i])
    ensures LeadingInt(s + [c], n) == Wrap(LeadingInt(s, n) * 10 + Digit(c))
  {
    if s == "" {
      assert (s + [c])[1..] == "";
    } else {
      LeadingIntSnoc(s[1..], c, Wrap(n * 10 + Digit(s[0])));
      assert (s + [c])[1..] == s[1..] + [c];
    }
  }

  lemma WrapStep(x: int, d: int)
    ensures Wrap(Wrap(x) * 10 + d) == Wrap(x * 10 + d)
  {
    var q := (x + TWO_63) / TWO_64;
    assert Wrap(x) == x - q * TWO_64;
    WrapShift(x * 10 + d, -10 * q);
  }

  lemma WrapShift(x: int, k: int)
    ensures Wrap(x + k * TWO_64) == Wrap(x)
  {
    var y := x + TWO_63;
    var q := y / TWO_64;
    var r := y % TWO_64;
    assert y + k * TWO_64 == (q + k) * TWO_64 + r;
    RemainderUnique(y + k * TWO_64, q + k, r);
  }

  lemma RemainderUnique(y: int, q: int, r: int)
    requires y == q * TWO_64 + r && 0 <= r < TWO_64
    ensures y % TWO_64 == r
  {
  }

  /** Reading a printed number gives it back modulo 2^64. */
  lemma {:induction false} LeadingIntOfDecimal(n: nat)
    ensures LeadingInt(Decimal(n), 0) == Wrap(n)
  {
    if n < 10 {
      assert Decimal(n)[1..] == "";
    } else {
      LeadingIntOfDecimal(n / 10);
      LeadingIntSnoc(Decimal(n / 10), DigitChar(n % 10), 0);
      WrapStep(n / 10, n % 10);
    }
  }

  /** A printed component survives exactly when it fits a 64-bit integer. */
  lemma ComponentRoundTripIff(n: nat)
    ensures LeadingInt(Decimal(n), 0) == n <==> n <= 9_223_372_036_854_775_807
  {
    LeadingIntOfDecimal(n);
  }

  datatype Triple = Triple(major: nat, minor: nat, patch: nat)

  function Dotted(t: Triple, suffix: string): string {
    Decimal(t.major) + "." + Decimal(t.minor) + "." + (Decimal(t.patch) + suffix)
  }

  /** A plain triple (empty `suffix`), or one followed by a pre-release or anything else. */
  function Print(t: Triple, v: bool, suffix: string): string {
    (if v then "v" else "") + Dotted(t, suffix)
  }

  lemma TrimPrinted(body: string, v: bool)
    requires IsTight(body) && body != "" && body[0] != 'v'
    ensures TrimV(Trim((if v then "v" else "") + body)) == body
  {
    var s := (if v then "v" else "") + body;
    assert s[0] == if v then 'v' else body[0];
    assert s[|s| - 1] == body[|body| - 1];
    TrimIsTight(s);
  }

  lemma PrintSplits(t: Triple, v: bool, suffix: string)
    requires suffix == "" || !IsSpace(suffix[|suffix| - 1])
    ensures SplitN(TrimV(Trim(Print(t, v, suffix))), 3) ==
            [Decimal(t.major), Decimal(t.minor), Decimal(t.patch) + suffix]
  {
    var a, b, c := Decimal(t.major), Decimal(t.minor), Decimal(t.patch) + suffix;
    DottedIsTight(t, suffix);
    TrimPrinted(Dotted(t, suffix), v);
    SplitLong(Dotted(t, suffix), a, b, c);
  }

  lemma DottedIsTight(t: Triple, suffix: string)
    requires suffix == "" || !IsSpace(suffix[|suffix| - 1])
    ensures IsTight(Dotted(t, suffix)) && Dotted(t, suffix) != "" && IsDigit(Dotted(t, suffix)[0])
  {
    var a, c := Decimal(t.major), Decimal(t.patch) + suffix;
    assert Dotted(t, suffix)[0] == a[0];
    assert Dotted(t, suffix)[|Dotted(t, suffix)| - 1] == c[|c| - 1];
  }

  /** Parsing a printed triple, with or without the leading "v", gives each component modulo 2^64. */
  lemma PartsOfPrint(t: Triple, v: bool)
    ensures VersionParts(Print(t, v, "")) == Wrapped(t)
  {
    PrintSplits(t, v, "");
    assert Decimal(t.patch) + "" == Decimal(t.patch);
    LeadingIntOfDecimal(t.major);
    LeadingIntOfDecimal(t.minor);
    LeadingIntOfDecimal(t.patch);
  }

  function Wrapped(t: Triple): seq<int> {
    [Wrap(t.major), Wrap(t.minor), Wrap(t.patch)]
  }

  /** All three fit Go's 64-bit `int`. */
  predicate InRange(t: Triple) {
    && t.major <= 9_223_372_036_854_775_807 && t.minor <= 9_223_372_036_854_775_807
    && t.patch <= 9_223_372_036_854_775_807
  }

  lemma WrapFixedIff(n: nat)
    ensures Wrap(n) == n <==> n < TWO_63
  {
  }

  lemma WrappedIff(t: Triple)
    ensures Wrapped(t) == [t.major, t.minor, t.patch] <==> InRange(t)
  {
    WrapFixedIff(t.major);
    WrapFixedIff(t.minor);
    WrapFixedIff(t.patch);
    assert Wrapped(t) == [t.major, t.minor, t.patch] <==>
           Wrapped(t)[0] == t.major && Wrapped(t)[1] == t.minor && Wrapped(t)[2] == t.patch;
  }

  /** Printing and parsing is the identity exactly on the triples that fit 64-bit integers. */
  lemma VersionRoundTripIff(t: Triple, v: bool)
    ensures VersionParts(Print(t, v, "")) == [t.major, t.minor, t.patch] <==> InRange(t)
  {
    PartsOfPrint(t, v);
    WrappedIff(t);
  }

  /** Precedence of plain triples in section 11 of Semantic Versioning 2.0.0. */
  predicate Precedes(a: Triple, b: Triple) {
    if a.major != b.major then a.major < b.major
    else if a.minor != b.minor then a.minor < b.minor
    else a.patch < b.patch
  }

  lemma OrderIsPrecedence(a: Triple, b: Triple, va: bool, vb: bool)
    requires InRange(a) && InRange(b)
    ensures Less(Print(a, va, ""), Print(b, vb, "")) <==> Precedes(a, b)
  {
    VersionRoundTripIff(a, va);
    VersionRoundTripIff(b, vb);
  }

  /** Whatever follows the third number is ignored, so a pre-release and its release are
      incomparable, where section 11 puts the pre-release first. */
  lemma PreReleaseIsIgnored(t: Triple, v: bool, suffix: string)
    requires suffix != "" && !IsDigit(suffix[0]) && !IsSpace(suffix[|suffix| - 1])
    ensures VersionParts(Print(t, v, suffix)) == VersionParts(Print(t, v, ""))
  {
    PrintSplits(t, v, suffix);
    PrintSplits(t, v, "");
    assert Decimal(t.patch) + "" == Decimal(t.patch);
    LeadingIntStops(Decimal(t.patch), suffix, 0);
  }

  lemma {:induction false} LeadingIntStops(s: string, rest: string, n: int)
    requires forall i :: 0 <= i < |s| ==> IsDigit(s[i])
    requires rest != "" && !IsDigit(rest[0])
    ensures LeadingInt(s + rest, n) == LeadingInt(s, n)
  {
    if s == "" {
      assert s + rest == rest;
    } else {
      LeadingIntStops(s[1..], rest, Wrap(n * 10 + Digit(s[0])));
      assert (s + rest)[1..] == s[1..] + rest;
    }
  }

  /** What may follow the third number without being read as part of it. */
  predicate IsSuffix(suffix: string) {
    suffix == "" || (!IsDigit(suffix[0]) && !IsSpace(suffix[|suffix| - 1]))
  }

  /** On in-range triples, with or without suffixes, the order is the precedence of the triples alone. */
  lemma SuffixedOrder(a: Triple, b: Triple, va: bool, vb: bool, sa: string, sb: string)
    requires InRange(a) && InRange(b) && IsSuffix(sa) && IsSuffix(sb)
    ensures Less(Print(a, va, sa), Print(b, vb, sb)) <==> Precedes(a, b)
  {
    if sa != "" { PreReleaseIsIgnored(a, va, sa); }
    if sb != "" { PreReleaseIsIgnored(b, vb, sb); }
    OrderIsPrecedence(a, b, va, vb);
  }

  // ---- What is read from any text --------------------------------------------------------

  predicate AllDigits(s: string) {
    forall i :: 0 <= i < |s| ==> '0' <= s[i] <= '9'
  }

  /** The number the digits denote. */
  function Value(digits: string): nat
    requires AllDigits(digits)
  {
    if digits == "" then 0
    else Value(digits[..|digits| - 1]) * 10 + (digits[|digits| - 1] as int - 48)
  }

  /** `n` is `x` modulo 2^64 as a signed number. */
  predicate IsInt64(n: int, x: int) {
    && -9_223_372_036_854_775_808 <= n <= 9_223_372_036_854_775_807
    && (x - n) % 18_446_744_073_709_551_616 == 0
  }

  /** `n` is the number of the longest run of digits `part` starts with. */
  ghost predicate IsNumberOf(part: string, n: int) {
    exists digits, rest :: part == digits + rest && AllDigits(digits) && IsInt64(n, Value(digits))
                           && (rest == "" || !('0' <= rest[0] <= '9'))
  }

  lemma WrapIsInt64(x: int)
    ensures IsInt64(Wrap(x), x)
  {
    var y := x + TWO_63;
    assert x - Wrap(x) == (y / TWO_64) * TWO_64;
    RemainderUnique(x - Wrap(x), y / TWO_64, 0);
  }

  lemma Int64Unique(m: int, n: int, x: int)
    requires IsInt64(m, x) && IsInt64(n, x)
    ensures m == n
  {
    var p, q := (x - m) / TWO_64, (x - n) / TWO_64;
    assert m - n == (q - p) * TWO_64;
  }

  lemma {:induction false} LeadingIntOfDigits(digits: string)
    requires AllDigits(digits)
    ensures LeadingInt(digits, 0) == Wrap(Value(digits))
  {
    if digits != "" {
      var n := |digits| - 1;
      LeadingIntOfDigits(digits[..n]);
      LeadingIntSnoc(digits[..n], digits[n], 0);
      WrapStep(Value(digits[..n]), Digit(digits[n]));
      assert digits == digits[..n] + [digits[n]];
    }
  }

  lemma LeadingIntOfField(part: string, digits: string, rest: string)
    requires part == digits + rest && AllDigits(digits) && (rest == "" || !('0' <= rest[0] <= '9'))
    ensures LeadingInt(part, 0) == Wrap(Value(digits))
  {
    LeadingIntOfDigits(digits);
    if rest == "" {
      assert part == digits;
    } else {
      LeadingIntStops(digits, rest, 0);
    }
  }

  lemma {:induction false} DigitRun(part: string) returns (digits: string, rest: string)
    ensures part == digits + rest && AllDigits(digits) && (rest == "" || !('0' <= rest[0] <= '9'))
  {
    digits, rest := "", part;
    if part != "" && '0' <= part[0] <= '9' {
      var more, end := DigitRun(part[1..]);
      digits, rest := [part[0]] + more, end;
    }
  }

  lemma NumberIff(part: string, n: int)
    ensures LeadingInt(part, 0) == n <==> IsNumberOf(part, n)
  {
    var digits, rest := DigitRun(part);
    LeadingIntOfField(part, digits, rest);
    WrapIsInt64(Value(digits));
    forall digits, rest | part == digits + rest && AllDigits(digits) && IsInt64(n, Value(digits))
                          && (rest == "" || !('0' <= rest[0] <= '9'))
      ensures LeadingInt(part, 0) == n
    {
      LeadingIntOfField(part, digits, rest);
      WrapIsInt64(Value(digits));
      Int64Unique(n, Wrap(Value(digits)), Value(digits));
    }
  }

  predicate NoDot(s: string) {
    forall i :: 0 <= i < |s| ==> s[i] != '.'
  }

  /** The text between the blanks, after a leading "v", splits at its first two dots. */
  ghost predicate HasFields(raw: string, fields: seq<string>) {
    exists pre, text, post, body ::
      && IsPadded(raw, pre, text, post) && HasNoMargin(text)
      && (text == "v" + body || (text == body && (body == "" || body[0] != 'v')))
      && SplitsInto(body, fields)
  }

  predicate SplitsInto(body: string, fields: seq<string>) {
    || (|fields| == 1 && body == fields[0] && NoDot(fields[0]))
    || (|fields| == 2 && body == fields[0] + "." + fields[1] && NoDot(fields[0]) && NoDot(fields[1]))
    || (|fields| == 3 && body == fields[0] + "." + fields[1] + "." + fields[2] && NoDot(fields[0]) && NoDot(fields[1]))
  }

  lemma DotAfter(a: string, rest: string)
    requires NoDot(a)
    ensures DotAt(a) == |a| && DotAt(a + "." + rest) == |a|
  {
    var s := a + "." + rest;
    assert s[|a|] == '.';
    assert forall i :: 0 <= i < |a| ==> s[i] == a[i];
  }

  lemma SplitHead(a: string, rest: string, n: nat)
    requires NoDot(a) && n > 1
    ensures SplitN(a + "." + rest, n) == [a] + SplitN(rest, n - 1)
  {
    DotAfter(a, rest);
    assert (a + "." + rest)[..|a|] == a && (a + "." + rest)[|a| + 1..] == rest;
  }

  lemma SplitOne(body: string, n: nat)
    requires n > 0 && NoDot(body)
    ensures SplitN(body, n) == [body]
  {
    DotAfter(body, "");
  }

  lemma SplitBody(body: string, fields: seq<string>)
    requires SplitsInto(body, fields)
    ensures SplitN(body, 3) == fields
  {
    if |fields| == 1 {
      SplitOne(body, 3);
    } else if |fields| == 2 {
      SplitHead(fields[0], fields[1], 3);
      SplitOne(fields[1], 2);
    } else {
      SplitLong(body, fields[0], fields[1], fields[2]);
    }
  }

  lemma SplitLong(body: string, a: string, b: string, c: string)
    requires body == a + "." + b + "." + c && NoDot(a) && NoDot(b)
    ensures SplitN(body, 3) == [a, b, c]
  {
    assert body == a + "." + (b + "." + c);
    SplitHead(a, b + "." + c, 3);
    SplitHead(b, c, 2);
  }

  lemma CutAtDot(s: string) returns (a: string, b: string)
    requires !NoDot(s)
    ensures s == a + "." + b && NoDot(a)
  {
    var k := DotAt(s);
    a, b := s[..k], s[k + 1..];
  }

  lemma ThreeFields(body: string, a: string, b: string, c: string)
    requires body == a + "." + (b + "." + c) && NoDot(a) && NoDot(b)
    ensures SplitsInto(body, [a, b, c])
  {
    assert body == a + "." + b + "." + c;
  }

  lemma BodySplits(body: string) returns (fields: seq<string>)
    ensures SplitsInto(body, fields)
  {
    if NoDot(body) {
      fields := [body];
    } else {
      var a, tail := CutAtDot(body);
      if NoDot(tail) {
        fields := [a, tail];
      } else {
        var b, c := CutAtDot(tail);
        ThreeFields(body, a, b, c);
        fields := [a, b, c];
      }
    }
  }

  /** Every text has such fields. */
  lemma EveryTextHasFields(raw: string) returns (fields: seq<string>)
    ensures HasFields(raw, fields)
  {
    var pre, post := TrimPads(raw);
    var body := TrimV(Trim(raw));
    fields := BodySplits(body);
    assert Trim(raw) == "v" + body || (Trim(raw) == body && (body == "" || body[0] != 'v'));
  }

  lemma FieldsAreSplit(raw: string, fields: seq<string>)
    requires HasFields(raw, fields)
    ensures SplitN(TrimV(Trim(raw)), 3) == fields
  {
    var pre, text, post, body :|
      && IsPadded(raw, pre, text, post) && HasNoMargin(text)
      && (text == "v" + body || (text == body && (body == "" || body[0] != 'v')))
      && SplitsInto(body, fields);
    TrimIff(raw, text);
    assert TrimV(text) == body;
    SplitBody(body, fields);
  }

  /** What any text is read as: the numbers its first three dot-separated fields start with, modulo 2^64, and zero for
      a missing field. */
  lemma PartsIff(raw: string, fields: seq<string>, out: seq<int>)
    requires HasFields(raw, fields)
    ensures VersionParts(raw) == out <==>
            |out| == 3 && forall k :: 0 <= k < 3 ==> if k < |fields| then IsNumberOf(fields[k], out[k]) else out[k] == 0
  {
    FieldsAreSplit(raw, fields);
    var parts := VersionParts(raw);
    forall k | 0 <= k < |fields| && |out| == 3 ensures LeadingInt(fields[k], 0) == out[k] <==> IsNumberOf(fields[k], out[k]) {
      NumberIff(fields[k], out[k]);
    }
    if |out| == 3 && forall k :: 0 <= k < 3 ==> parts[k] == out[k] {
      assert parts == out;
    }
  }

  // ---- Section 11 of Semantic Versioning 2.0.0 -------------------------------------------

  /** One dot-separated identifier of a pre-release: a number, or a text with something other than a digit. */
  datatype Identifier = Numeric(n: nat) | Alphanumeric(text: string)

  /** A version: a release when `pre` is empty. Its build metadata has no precedence. */
  datatype Version = Version(core: Triple, pre: seq<Identifier>, build: string)

  predicate IsWordChar(c: char) {
    IsDigit(c) || 'a' <= c <= 'z' || 'A' <= c <= 'Z' || c == '-'
  }

  predicate IsIdentifier(x: Identifier) {
    x.Alphanumeric? ==>
      && (forall i :: 0 <= i < |x.text| ==> IsWordChar(x.text[i]))
      && exists i :: 0 <= i < |x.text| && !IsDigit(x.text[i])
  }

  predicate IsVersion(v: Version) {
    && (forall i :: 0 <= i < |v.pre| ==> IsIdentifier(v.pre[i]))
    && (forall i :: 0 <= i < |v.build| ==> IsWordChar(v.build[i]) || v.build[i] == '.')
  }

  function IdentifierText(x: Identifier): string {
    if x.Numeric? then Decimal(x.n) else x.text
  }

  function PreText(pre: seq<Identifier>): string {
    if pre == [] then "" else PreText(pre[..|pre| - 1]) + (if |pre| == 1 then "-" else ".") + IdentifierText(pre[|pre| - 1])
  }

  function VersionText(v: Version, leadingV: bool): string {
    Print(v.core, leadingV, PreText(v.pre) + if v.build == "" then "" else "+" + v.build)
  }

  /** Numbers compare numerically and stand before texts, texts compare character by character. */
  predicate IdentifierPrecedes(a: Identifier, b: Identifier) {
    match (a, b)
    case (Numeric(m), Numeric(n)) => m < n
    case (Alphanumeric(s), Alphanumeric(t)) => KeySort.Less(s, t)
    case _ => a.Numeric?
  }

  /** The first difference decides; a list stands before its extensions. */
  predicate IdentifiersPrecede(a: seq<Identifier>, b: seq<Identifier>) {
    b != [] && (a == [] || IdentifierPrecedes(a[0], b[0]) || (a[0] == b[0] && IdentifiersPrecede(a[1..], b[1..])))
  }

  /** A pre-release stands before its release. */
  predicate VersionPrecedes(a: Version, b: Version) {
    || Precedes(a.core, b.core)
    || (a.core == b.core && a.pre != [] && (b.pre == [] || IdentifiersPrecede(a.pre, b.pre)))
  }

  lemma {:induction false} IdentifiersTotal(a: seq<Identifier>, b: seq<Identifier>)
    ensures IdentifiersPrecede(a, b) || IdentifiersPrecede(b, a) || a == b
    ensures !(IdentifiersPrecede(a, b) && IdentifiersPrecede(b, a)) && !IdentifiersPrecede(a, a)
  {
    if a != [] {
      IdentifiersTotal(a[1..], a[1..]);
      IdentifierTotal(a[0], a[0]);
    }
    if a != [] && b != [] {
      IdentifierTotal(a[0], b[0]);
      if a[0] == b[0] {
        IdentifiersTotal(a[1..], b[1..]);
        assert a == [a[0]] + a[1..] && b == [b[0]] + b[1..];
      }
    }
  }

  lemma IdentifierTotal(a: Identifier, b: Identifier)
    ensures IdentifierPrecedes(a, b) || IdentifierPrecedes(b, a) || a == b
    ensures !(IdentifierPrecedes(a, b) && IdentifierPrecedes(b, a)) && !IdentifierPrecedes(a, a)
  {
    if a.Alphanumeric? {
      KeySort.LessTotal(a.text, a.text);
    }
    if a.Alphanumeric? && b.Alphanumeric? {
      KeySort.LessTotal(a.text, b.text);
    }
  }

  /** Section 11 leaves exactly the versions that differ in build metadata only without an order. */
  lemma VersionTotal(a: Version, b: Version)
    ensures VersionPrecedes(a, b) || VersionPrecedes(b, a) <==> a.core != b.core || a.pre != b.pre
    ensures !(VersionPrecedes(a, b) && VersionPrecedes(b, a))
  {
    IdentifiersTotal(a.pre, b.pre);
  }

  /** What follows the numbers starts with no digit and ends with no blank. */
  lemma VersionSuffix(v: Version)
    requires IsVersion(v)
    ensures IsSuffix(PreText(v.pre) + if v.build == "" then "" else "+" + v.build)
  {
    PreIsSuffix(v.pre);
    if v.build != "" {
      var text := PreText(v.pre) + ("+" + v.build);
      assert text[|text| - 1] == v.build[|v.build| - 1];
      assert text[0] == if v.pre == [] then '+' else PreText(v.pre)[0];
    } else {
      assert PreText(v.pre) + "" == PreText(v.pre);
    }
  }

  lemma {:induction false} PreIsSuffix(pre: seq<Identifier>)
    requires forall i :: 0 <= i < |pre| ==> IsIdentifier(pre[i])
    ensures IsSuffix(PreText(pre)) && (PreText(pre) == "" <==> pre == [])
  {
    if pre != [] {
      var last := pre[|pre| - 1];
      PreIsSuffix(pre[..|pre| - 1]);
      assert IsIdentifier(last);
      assert PreText(pre)[|PreText(pre)| - 1] == IdentifierText(last)[|IdentifierText(last)| - 1];
      if |pre| > 1 {
        assert PreText(pre)[0] == PreText(pre[..|pre| - 1])[0];
      }
    }
  }

  /** The order places two versions as section 11 does exactly unless they have the same numbers and different
      pre-releases: those it takes for equal, where section 11 always puts one first. */
  lemma AgreesWithSection11Iff(a: Version, b: Version, va: bool, vb: bool)
    requires IsVersion(a) && IsVersion(b) && InRange(a.core) && InRange(b.core)
    ensures var s, t := VersionText(a, va), VersionText(b, vb);
            (Less(s, t) <==> VersionPrecedes(a, b)) && (Less(t, s) <==> VersionPrecedes(b, a)) <==>
            !(a.core == b.core && a.pre != b.pre)
  {
    VersionSuffix(a);
    VersionSuffix(b);
    var sa := PreText(a.pre) + if a.build == "" then "" else "+" + a.build;
    var sb := PreText(b.pre) + if b.build == "" then "" else "+" + b.build;
    SuffixedOrder(a.core, b.core, va, vb, sa, sb);
    SuffixedOrder(b.core, a.core, vb, va, sb, sa);
    VersionTotal(a, b);
  }
}
