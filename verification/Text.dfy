/**
  Text primitives shared by the model: trimming and lower-casing, the stable-identifier pattern,
  decimal numerals, and joining strings with a separator.

  A string is a sequence of Unicode scalar values, so a rune count is a length and every string
  is valid UTF-8.
 */
module Text {

  datatype Option<+T> = None | Some(value: T)

  // ----- White space ------------------------------------------------------------------------

  predicate IsSpace(c: char) {
    || '\t' <= c <= '\r' || c == ' '
    || c == '\U{85}' || c == '\U{A0}' || c == '\U{1680}'
    || '\U{2000}' <= c <= '\U{200A}'
    || c == '\U{2028}' || c == '\U{2029}' || c == '\U{202F}' || c == '\U{205F}' || c == '\U{3000}'
  }

  /** No white space at either end. */
  predicate Trimmed(s: string) {
    s != [] ==> !IsSpace(s[0]) && !IsSpace(s[|s| - 1])
  }

  function TrimLeft(s: string): (r: string)
    ensures |r| <= |s| && r == s[|s| - |r|..]
    ensures forall i :: 0 <= i < |s| - |r| ==> IsSpace(s[i])
    ensures r != [] ==> !IsSpace(r[0])
  {
    if s != [] && IsSpace(s[0]) then
      var r := TrimLeft(s[1..]);
      assert r == s[1..][|s| - 1 - |r|..] == s[|s| - |r|..];
      assert forall i :: 1 <= i < |s| - |r| ==> s[i] == s[1..][i - 1];
      r
    else
      s
  }

  function TrimRight(s: string): (r: string)
    ensures |r| <= |s| && r == s[..|r|]
    ensures forall i :: |r| <= i < |s| ==> IsSpace(s[i])
    ensures r != [] ==> !IsSpace(r[|r| - 1])
  {
    if s != [] && IsSpace(s[|s| - 1]) then TrimRight(s[..|s| - 1]) else s
  }

  function Trim(s: string): (r: string)
    ensures Trimmed(r)
  {
    TrimRight(TrimLeft(s))
  }

  lemma TrimFixed(s: string)
    requires Trimmed(s)
    ensures Trim(s) == s
  {
  }

  /** Trimming takes white space away at the ends, and nothing else. */
  lemma TrimCuts(s: string) returns (i: nat, j: nat)
    ensures i <= j <= |s| && Trim(s) == s[i..j]
    ensures forall k :: 0 <= k < i || j <= k < |s| ==> IsSpace(s[k])
  {
    var left := TrimLeft(s);
    i, j := |s| - |left|, |s| - |left| + |TrimRight(left)|;
    CutTwice(s, i, j, left, TrimRight(left));
  }

  lemma CutTwice(s: string, i: nat, j: nat, left: string, both: string)
    requires i <= j <= |s| && left == s[i..] && |both| == j - i && both == left[..|both|]
    requires forall k :: |both| <= k < |left| ==> IsSpace(left[k])
    ensures both == s[i..j] && forall k :: j <= k < |s| ==> IsSpace(s[k])
  {
    forall k | j <= k < |s| ensures IsSpace(s[k]) {
      assert s[k] == left[k - i];
    }
  }

  /** And there is only one way to do that, leaving no white space at the ends. */
  lemma TrimExactly(s: string, i: nat, j: nat)
    requires i <= j <= |s| && Trimmed(s[i..j])
    requires forall k :: 0 <= k < i || j <= k < |s| ==> IsSpace(s[k])
    ensures Trim(s) == s[i..j]
  {
    var a, b := TrimCuts(s);
    if i < j {
      assert s[i..j][0] == s[i] && s[i..j][j - i - 1] == s[j - 1];
    }
    if a < b {
      assert s[a..b][0] == s[a] && s[a..b][b - a - 1] == s[b - 1];
    }
  }

  // ----- Lower case -------------------------------------------------------------------------

  /**
    What is used of a table of lower-case letters: it is idempotent, it keeps white space apart
    from other characters, and it has the usual ASCII letters.
   */
  ghost predicate CaseTable(lower: char -> char) {
    && (forall c {:trigger lower(c)} :: lower(lower(c)) == lower(c))
    && (forall c {:trigger lower(c)} :: IsSpace(lower(c)) <==> IsSpace(c))
    && (forall c {:trigger lower(c)} :: lower(c) == LowerAscii(c) || c >= '\U{80}')
  }

  function LowerAscii(c: char): char {
    if 'A' <= c <= 'Z' then ((c as int) + 32) as char else c
  }

  /** There is such a table. */
  lemma AsciiCaseTable()
    ensures CaseTable((c: char) => LowerAscii(c))
  {
  }

  function Lower(lower: char -> char, s: string): (r: string)
    ensures |r| == |s|
    ensures forall i :: 0 <= i < |s| ==> r[i] == lower(s[i])
  {
    seq(|s|, i requires 0 <= i < |s| => lower(s[i]))
  }

  function LowerTrim(lower: char -> char, s: string): string {
    Lower(lower, Trim(s))
  }

  lemma LowerTrimmed(lower: char -> char, s: string)
    requires CaseTable(lower)
    ensures Trimmed(LowerTrim(lower, s))
    ensures forall i :: 0 <= i < |LowerTrim(lower, s)| ==> lower(LowerTrim(lower, s)[i]) == LowerTrim(lower, s)[i]
  {
    var t := Trim(s);
    var r := Lower(lower, t);
    assert r != [] ==> r[0] == lower(t[0]) && r[|r| - 1] == lower(t[|t| - 1]);
  }

  lemma LowerTrimFixed(lower: char -> char, s: string)
    requires Trimmed(s)
    requires forall i :: 0 <= i < |s| ==> lower(s[i]) == s[i]
    ensures LowerTrim(lower, s) == s
  {
    TrimFixed(s);
  }

  /** Lowering and trimming twice is doing so once. */
  lemma LowerTrimTwice(lower: char -> char, s: string)
    requires CaseTable(lower)
    ensures LowerTrim(lower, LowerTrim(lower, s)) == LowerTrim(lower, s)
  {
    LowerTrimmed(lower, s);
    LowerTrimFixed(lower, LowerTrim(lower, s));
  }

  // ----- Bytes ------------------------------------------------------------------------------

  function Utf8Bytes(c: char): nat {
    if c < '\U{80}' then 1 else if c < '\U{800}' then 2 else if c < '\U{10000}' then 3 else 4
  }

  /** The length of a string in UTF-8. */
  function ByteLength(s: string): nat {
    if s == "" then 0 else Utf8Bytes(s[0]) + ByteLength(s[1..])
  }

  // ----- Patterns ---------------------------------------------------------------------------

  predicate IsLetterOrDigit(c: char) {
    'A' <= c <= 'Z' || 'a' <= c <= 'z' || '0' <= c <= '9'
  }

  predicate IsStableChar(c: char) {
    IsLetterOrDigit(c) || c == '.' || c == '_' || c == ':' || c == '-'
  }

  /** The identifier pattern `^[A-Za-z0-9][A-Za-z0-9._:-]{0,127}$`. */
  predicate StableId(s: string) {
    && 1 <= |s| <= 128
    && IsLetterOrDigit(s[0])
    && forall i :: 0 <= i < |s| ==> IsStableChar(s[i])
  }

  lemma StableIdTrimmed(s: string)
    requires StableId(s)
    ensures Trim(s) == s && s != ""
  {
    TrimFixed(s);
  }

  // ----- Decimal numerals -------------------------------------------------------------------

  predicate IsDigit(c: char) {
    '0' <= c <= '9'
  }

  function DigitChar(d: nat): (c: char)
    requires d < 10
    ensures IsDigit(c) && DigitValue(c) == d
  {
    ('0' as int + d) as char
  }

  function DigitValue(c: char): (d: nat)
    requires IsDigit(c)
    ensures d < 10
  {
    c as int - '0' as int
  }

  predicate AllDigits(s: string) {
    forall i :: 0 <= i < |s| ==> IsDigit(s[i])
  }

  /** The shortest decimal numeral of n. */
  function Decimal(n: nat): (s: string)
    ensures |s| >= 1 && AllDigits(s)
  {
    if n < 10 then [DigitChar(n)] else Decimal(n / 10) + [DigitChar(n % 10)]
  }

  function NumeralValue(s: string): nat
    requires AllDigits(s)
  {
    if s == [] then 0 else 10 * NumeralValue(s[..|s| - 1]) + DigitValue(s[|s| - 1])
  }

  lemma {:induction false} DecimalRoundTrip(n: nat)
    ensures NumeralValue(Decimal(n)) == n
  {
    if n >= 10 {
      DecimalRoundTrip(n / 10);
      var s := Decimal(n);
      assert s[..|s| - 1] == Decimal(n / 10);
    }
  }

  lemma DecimalInjective(m: nat, n: nat)
    requires Decimal(m) == Decimal(n)
    ensures m == n
  {
    DecimalRoundTrip(m);
    DecimalRoundTrip(n);
  }

  function Power10(k: nat): nat {
    if k == 0 then 1 else 10 * Power10(k - 1)
  }

  lemma {:induction false} DecimalWidth(n: nat, k: nat)
    requires k >= 1
    ensures |Decimal(n)| <= k <==> n < Power10(k)
  {
    if n < 10 {
      PowerAtLeastTen(k);
    } else if k == 1 {
      assert Power10(1) == 10 * Power10(0) == 10;
    } else {
      DecimalWidth(n / 10, k - 1);
    }
  }

  lemma {:induction false} PowerAtLeastTen(k: nat)
    requires k >= 1
    ensures Power10(k) >= 10
  {
    if k > 1 {
      PowerAtLeastTen(k - 1);
    } else {
      assert Power10(1) == 10 * Power10(0);
    }
  }

  // ----- Integers as text -------------------------------------------------------------------

  const MAX_INT64: int := 0x7fff_ffff_ffff_ffff
  const MIN_INT64: int := -0x8000_0000_0000_0000

  function FormatInt(n: int): string {
    if n < 0 then "-" + Decimal(-n) else Decimal(n)
  }

  function ParseDigits(s: string): Option<nat> {
    if s == "" || !AllDigits(s) then None else Some(NumeralValue(s))
  }

  /** A decimal integer with an optional sign that fits in 64 bits. */
  function ParseInt(s: string): Option<int> {
    var negative := s != "" && s[0] == '-';
    var signed := negative || (s != "" && s[0] == '+');
    match ParseDigits(if signed then s[1..] else s)
    case None => None
    case Some(n) =>
      var value := if negative then 0 - n else n;
      if MIN_INT64 <= value <= MAX_INT64 then Some(value) else None
  }

  lemma ParseFormat(n: int)
    requires MIN_INT64 <= n <= MAX_INT64
    ensures ParseInt(FormatInt(n)) == Some(n)
  {
    var m: nat := if n < 0 then -n else n;
    var digits := Decimal(m);
    DecimalRoundTrip(m);
    assert IsDigit(digits[0]);
    if n < 0 {
      assert FormatInt(n)[1..] == digits;
    }
  }

  // ----- Joining ----------------------------------------------------------------------------

  predicate Free(s: string, sep: char) {
    forall i :: 0 <= i < |s| ==> s[i] != sep
  }

  function Join(parts: seq<string>, sep: char): string {
    if |parts| == 0 then ""
    else if |parts| == 1 then parts[0]
    else parts[0] + [sep] + Join(parts[1..], sep)
  }

  /** The length of the longest prefix of s without sep. */
  function FreePrefix(s: string, sep: char): (n: nat)
    ensures n <= |s|
    ensures forall i :: 0 <= i < n ==> s[i] != sep
    ensures n < |s| ==> s[n] == sep
  {
    if s == [] || s[0] == sep then 0
    else
      var n := 1 + FreePrefix(s[1..], sep);
      assert forall i :: 1 <= i < n ==> s[i] == s[1..][i - 1];
      n
  }

  function Split(s: string, sep: char): (parts: seq<string>)
    ensures |parts| >= 1
    decreases |s|
  {
    var n := FreePrefix(s, sep);
    if n == |s| then [s] else [s[..n]] + Split(s[n + 1..], sep)
  }

  lemma {:induction false} SplitJoin(parts: seq<string>, sep: char)
    requires parts != []
    requires forall i :: 0 <= i < |parts| ==> Free(parts[i], sep)
    ensures Split(Join(parts, sep), sep) == parts
  {
    if |parts| == 1 {
      NothingSplit(parts[0], sep);
    } else {
      var rest := parts[1..];
      SplitFirst(parts[0], sep, Join(rest, sep));
      SplitJoin(rest, sep);
      assert parts == [parts[0]] + rest;
    }
  }

  lemma NothingSplit(part: string, sep: char)
    requires Free(part, sep)
    ensures Split(part, sep) == [part]
  {
  }

  lemma SplitFirst(part: string, sep: char, rest: string)
    requires Free(part, sep)
    ensures Split(part + [sep] + rest, sep) == [part] + Split(rest, sep)
  {
    var s := part + [sep] + rest;
    FreeUpTo(s, part, sep);
    assert s[..|part|] == part && s[|part| + 1..] == rest;
  }

  lemma FreeUpTo(s: string, part: string, sep: char)
    requires |part| < |s| && s[..|part|] == part && s[|part|] == sep && Free(part, sep)
    ensures FreePrefix(s, sep) == |part|
  {
    assert forall i :: 0 <= i < |part| ==> s[i] == part[i];
  }

  /** Joining separator-free parts loses nothing. */
  lemma JoinInjective(a: seq<string>, b: seq<string>, sep: char)
    requires a != [] && b != []
    requires forall i :: 0 <= i < |a| ==> Free(a[i], sep)
    requires forall i :: 0 <= i < |b| ==> Free(b[i], sep)
    requires Join(a, sep) == Join(b, sep)
    ensures a == b
  {
    SplitJoin(a, sep);
    SplitJoin(b, sep);
  }
}
