/** The JavaScript string operations the conversion scripts and the app rely on, written out over
    `seq<char>`: the white-space class of `\s` and `trim`, `indexOf`, `split` with a string
    separator, `parseInt`, number-to-string conversion and `padStart(2, '0')`. */
module Text {
  import opened Wrappers

  // ---------------------------------------------------------------- character classes

  /** The characters that `\s` matches and that `String.prototype.trim` removes. */
  predicate IsSpace(c: char) {
    || c == ' ' || c == '\t' || c == '\n' || c == '\r' || c == '\U{000B}' || c == '\U{000C}'
    || c == '\U{00A0}' || c == '\U{1680}' || ('\U{2000}' <= c <= '\U{200A}')
    || c == '\U{2028}' || c == '\U{2029}' || c == '\U{202F}' || c == '\U{205F}'
    || c == '\U{3000}' || c == '\U{FEFF}'
  }

  /** `\d`: ASCII digits only. */
  predicate IsDigit(c: char) {
    '0' <= c <= '9'
  }

  /** `\w`: ASCII letters, digits and the underscore. */
  predicate IsWordChar(c: char) {
    ('a' <= c <= 'z') || ('A' <= c <= 'Z') || IsDigit(c) || c == '_'
  }

  predicate AllSpaces(s: string) {
    forall k :: 0 <= k < |s| ==> IsSpace(s[k])
  }

  predicate AllDigits(s: string) {
    forall k :: 0 <= k < |s| ==> IsDigit(s[k])
  }

  /** A string with no white space at either end. */
  predicate IsTrimmed(s: string) {
    |s| == 0 || (!IsSpace(s[0]) && !IsSpace(s[|s| - 1]))
  }

  /** ASCII lower-casing, which is what `toLowerCase` does to the ASCII letters. */
  function LowerChar(c: char): char {
    if 'A' <= c <= 'Z' then (c as int + 32) as char else c
  }

  function ToLowerAscii(s: string): (r: string)
    ensures |r| == |s|
    ensures forall k :: 0 <= k < |s| ==> r[k] == LowerChar(s[k])
  {
    seq(|s|, k requires 0 <= k < |s| => LowerChar(s[k]))
  }

  // ---------------------------------------------------------------- runs

  /** End of the run of white space that starts at `i`. */
  function SkipSpaces(s: string, i: nat): (j: nat)
    requires i <= |s|
    ensures i <= j <= |s|
    ensures AllSpaces(s[i..j])
    ensures j == |s| || !IsSpace(s[j])
    decreases |s| - i
  {
    if i == |s| || !IsSpace(s[i]) then i else SkipSpaces(s, i + 1)
  }

  /** End of the run of digits that starts at `i`. */
  function DigitRunEnd(s: string, i: nat): (j: nat)
    requires i <= |s|
    ensures i <= j <= |s|
    ensures AllDigits(s[i..j])
    ensures j == |s| || !IsDigit(s[j])
    decreases |s| - i
  {
    if i == |s| || !IsDigit(s[i]) then i else DigitRunEnd(s, i + 1)
  }

  /** Start of the run of white space that ends at `j`. */
  function SpacesBefore(s: string, j: nat): (i: nat)
    requires j <= |s|
    ensures i <= j
    ensures forall k :: i <= k < j ==> IsSpace(s[k])
    ensures i == 0 || !IsSpace(s[i - 1])
  {
    if j == 0 || !IsSpace(s[j - 1]) then j else SpacesBefore(s, j - 1)
  }

  // ---------------------------------------------------------------- trim

  function TrimEnd(s: string): (b: nat)
    ensures b <= |s|
  {
    SpacesBefore(s, |s|)
  }

  function TrimStart(s: string): (a: nat)
    ensures a <= TrimEnd(s)
  {
    SkipSpaces(s[..TrimEnd(s)], 0)
  }

  /** `String.prototype.trim`: the slice between the surrounding runs of white space. */
  function Trim(s: string): (r: string)
    ensures r == s[TrimStart(s)..TrimEnd(s)]
    ensures IsTrimmed(r)
    ensures AllSpaces(s[..TrimStart(s)]) && AllSpaces(s[TrimEnd(s)..])
  {
    s[TrimStart(s)..TrimEnd(s)]
  }

  /** Trimming a string that is already trimmed changes nothing. */
  lemma TrimOfTrimmed(s: string)
    requires IsTrimmed(s)
    ensures Trim(s) == s
  {
    assert TrimEnd(s) == |s|;
    assert s[..|s|] == s;
  }

  // ---------------------------------------------------------------- search

  /** `pat` occurs in `s` at position `i`. */
  predicate OccursAt(s: string, pat: string, i: nat) {
    i + |pat| <= |s| && s[i..i + |pat|] == pat
  }

  ghost predicate Contains(s: string, pat: string) {
    exists i: nat :: OccursAt(s, pat, i)
  }

  /** `s.indexOf(pat, from)`, with `None` for -1. */
  function IndexOf(s: string, pat: string, from: nat): (r: Option<nat>)
    requires |pat| > 0
    ensures r.Some? ==> from <= r.value && OccursAt(s, pat, r.value)
    ensures forall i: nat :: from <= i && (r.None? || i < r.value) ==> !OccursAt(s, pat, i)
    decreases |s| - from
  {
    if from + |pat| > |s| then None
    else if OccursAt(s, pat, from) then Some(from)
    else IndexOf(s, pat, from + 1)
  }

  lemma IndexOfNoneIffAbsent(s: string, pat: string)
    requires |pat| > 0
    ensures IndexOf(s, pat, 0).None? <==> !Contains(s, pat)
  {
    if IndexOf(s, pat, 0).Some? {
      assert OccursAt(s, pat, IndexOf(s, pat, 0).value);
    }
  }

  /** Nothing found before `i` means nothing found in the prefix of length `i`. */
  lemma NoOccurrenceInPrefix(s: string, pat: string, i: nat)
    requires |pat| > 0 && i <= |s|
    requires forall j: nat :: j < i ==> !OccursAt(s, pat, j)
    ensures !Contains(s[..i], pat)
  {
    forall j: nat | OccursAt(s[..i], pat, j)
      ensures false
    {
      assert j < i;
      assert s[..i][j..j + |pat|] == s[j..j + |pat|];
      assert OccursAt(s, pat, j);
    }
  }

  // ---------------------------------------------------------------- split and join

  /** `s.split(sep)` for a non-empty string separator: the pieces between the occurrences of
      `sep`, found left to right without overlapping. */
  function Split(s: string, sep: string): (parts: seq<string>)
    requires |sep| > 0
    ensures |parts| >= 1
    decreases |s|
  {
    match IndexOf(s, sep, 0)
    case None => [s]
    case Some(i) => [s[..i]] + Split(s[i + |sep|..], sep)
  }

  /** No string of `parts` holds `pat`. */
  ghost predicate NoneContain(parts: seq<string>, pat: string) {
    forall k :: 0 <= k < |parts| ==> !Contains(parts[k], pat)
  }

  lemma NoneContainCons(x: string, xs: seq<string>, pat: string)
    requires !Contains(x, pat) && NoneContain(xs, pat)
    ensures NoneContain([x] + xs, pat)
  {
    forall k | 0 <= k < |[x] + xs|
      ensures !Contains(([x] + xs)[k], pat)
    {
      if k > 0 {
        assert ([x] + xs)[k] == xs[k - 1];
      }
    }
  }

  /** No piece holds the separator. */
  lemma {:induction false} SplitPartsLackSeparator(s: string, sep: string)
    requires |sep| > 0
    ensures NoneContain(Split(s, sep), sep)
    decreases |s|
  {
    match IndexOf(s, sep, 0)
    case None =>
      IndexOfNoneIffAbsent(s, sep);
    case Some(i) =>
      NoOccurrenceInPrefix(s, sep, i);
      var rest := s[i + |sep|..];
      SplitPartsLackSeparator(rest, sep);
      SplitAt(s, sep, i);
      NoneContainCons(s[..i], Split(rest, sep), sep);
  }

  /** `parts.join(sep)`. */
  function Join(parts: seq<string>, sep: string): string
    requires |parts| >= 1
  {
    if |parts| == 1 then parts[0] else parts[0] + sep + Join(parts[1..], sep)
  }

  /** Joining the pieces with the separator gives back the text: `split` loses nothing but the
      separators. */
  lemma {:induction false} SplitJoin(s: string, sep: string)
    requires |sep| > 0
    ensures Join(Split(s, sep), sep) == s
    decreases |s|
  {
    match IndexOf(s, sep, 0)
    case None =>
    case Some(i) =>
      var rest := s[i + |sep|..];
      SplitJoin(rest, sep);
      var tail := Split(rest, sep);
      SplitAt(s, sep, i);
      JoinCons(s[..i], tail, sep);
      CutAround(s, sep, i);
  }

  /** A text is what comes before an occurrence, the occurrence and what comes after. */
  lemma CutAround(s: string, pat: string, i: nat)
    requires OccursAt(s, pat, i)
    ensures s == s[..i] + pat + s[i + |pat|..]
  {
    assert s == s[..i] + s[i..i + |pat|] + s[i + |pat|..];
  }

  /** Where the first separator is, `split` cuts. */
  lemma SplitAt(s: string, sep: string, i: nat)
    requires |sep| > 0 && IndexOf(s, sep, 0) == Some(i)
    ensures Split(s, sep) == [s[..i]] + Split(s[i + |sep|..], sep)
  {
  }

  lemma JoinCons(p: string, ps: seq<string>, sep: string)
    requires |ps| >= 1
    ensures Join([p] + ps, sep) == p + sep + Join(ps, sep)
  {
    assert ([p] + ps)[1..] == ps;
  }

  /** Without the separator the text is one piece. */
  lemma SplitAbsent(s: string, sep: string)
    requires |sep| > 0 && !Contains(s, sep)
    ensures Split(s, sep) == [s]
  {
    IndexOfNoneIffAbsent(s, sep);
  }

  /** `t` is a suffix of `s`. */
  predicate IsSuffix(t: string, s: string) {
    |t| <= |s| && t == s[|s| - |t|..]
  }

  /** A suffix of a suffix is a suffix. */
  lemma SuffixOfCut(t: string, s: string, a: nat)
    requires a <= |s| && IsSuffix(t, s[a..])
    ensures IsSuffix(t, s)
  {
    assert s[a..][|s| - a - |t|..] == s[|s| - |t|..];
  }

  /** The last element of a non-empty sequence of strings. */
  function Last(parts: seq<string>): string
    requires |parts| >= 1
  {
    parts[|parts| - 1]
  }

  lemma LastCons(x: string, xs: seq<string>)
    requires |xs| >= 1
    ensures Last([x] + xs) == Last(xs)
  {
  }

  /** The last piece is a suffix of the text. */
  lemma {:induction false} SplitLastIsSuffix(s: string, sep: string)
    requires |sep| > 0
    ensures IsSuffix(Last(Split(s, sep)), s)
    decreases |s|
  {
    match IndexOf(s, sep, 0)
    case None =>
    case Some(i) =>
      assert OccursAt(s, sep, i);
      var rest := s[i + |sep|..];
      SplitLastIsSuffix(rest, sep);
      var tail := Split(rest, sep);
      SplitAt(s, sep, i);
      LastCons(s[..i], tail);
      SuffixOfCut(Last(tail), s, i + |sep|);
  }

  // ---------------------------------------------------------------- other replacements

  /** `s.replace(/\r\n/g, '\n')`. */
  function NormalizeNewlines(s: string): (r: string)
    ensures |r| <= |s|
    decreases |s|
  {
    if |s| < 2 then s
    else if s[0] == '\r' && s[1] == '\n' then "\n" + NormalizeNewlines(s[2..])
    else [s[0]] + NormalizeNewlines(s[1..])
  }

  /** `s.replace(/\s+/g, ' ')`: every run of white space becomes one space. */
  function CollapseSpaces(s: string): (r: string)
    ensures forall k :: 0 <= k < |r| && IsSpace(r[k]) ==> r[k] == ' '
    ensures forall k :: 0 <= k < |r| - 1 ==> !(IsSpace(r[k]) && IsSpace(r[k + 1]))
    ensures |s| > 0 ==> |r| > 0 && (IsSpace(r[0]) <==> IsSpace(s[0]))
    decreases |s|
  {
    if |s| == 0 then ""
    else if IsSpace(s[0]) then
      var j := SkipSpaces(s, 0);
      " " + CollapseSpaces(s[j..])
    else [s[0]] + CollapseSpaces(s[1..])
  }

  /** `s.replace(c, d)` with one-character strings: only the first occurrence is replaced. */
  function ReplaceFirst(s: string, c: char, d: char): (r: string)
    ensures |r| == |s|
    decreases |s|
  {
    if |s| == 0 then ""
    else if s[0] == c then [d] + s[1..]
    else [s[0]] + ReplaceFirst(s[1..], c, d)
  }

  /** `s.replace(new RegExp('^' + p), '')` for a `p` without special characters. */
  function StripPrefix(s: string, p: string): (r: string)
    ensures |r| <= |s|
  {
    if |p| <= |s| && s[..|p|] == p then s[|p|..] else s
  }

  // ---------------------------------------------------------------- numbers as text

  function DigitValue(c: char): nat
    requires IsDigit(c)
  {
    c as int - '0' as int
  }

  function DigitChar(d: nat): (c: char)
    requires d < 10
    ensures IsDigit(c) && DigitValue(c) == d
  {
    ('0' as int + d) as char
  }

  /** The value of a string of decimal digits. */
  function DecimalValue(s: string): nat
    requires AllDigits(s)
  {
    if |s| == 0 then 0 else DecimalValue(s[..|s| - 1]) * 10 + DigitValue(s[|s| - 1])
  }

  /** `n.toString()` for a non-negative integer: digits only, no leading zero, and it reads back
      as `n`. */
  function NatStr(n: nat): (r: string)
    ensures |r| >= 1 && AllDigits(r)
    ensures DecimalValue(r) == n
    ensures (n < 10) == (|r| == 1)
    ensures n < 100 ==> |r| <= 2
    decreases n
  {
    if n < 10 then [DigitChar(n)]
    else
      var r := NatStr(n / 10) + [DigitChar(n % 10)];
      assert r[..|r| - 1] == NatStr(n / 10);
      r
  }

  /** `x.toString()` for an integer. */
  function IntStr(x: int): (r: string)
    ensures x >= 0 ==> r == NatStr(x)
  {
    if x < 0 then "-" + NatStr(-x) else NatStr(x)
  }

  /** `str.padStart(2, '0')`. */
  function PadStart2(str: string): (r: string)
    ensures |r| == if |str| >= 2 then |str| else 2
  {
    if |str| >= 2 then str else if |str| == 1 then "0" + str else "00"
  }

  /** A leading zero does not change a decimal value. */
  lemma {:induction false} LeadingZero(s: string)
    requires AllDigits(s)
    ensures AllDigits("0" + s) && DecimalValue("0" + s) == DecimalValue(s)
    decreases |s|
  {
    if |s| > 0 {
      var t := "0" + s;
      assert t[..|t| - 1] == "0" + s[..|s| - 1];
      LeadingZero(s[..|s| - 1]);
    }
  }

  /** A number below 100 written with `padStart(2, '0')` has exactly two digits and reads back
      as the number. */
  lemma Pad2Digits(n: nat)
    requires n < 100
    ensures var r := PadStart2(NatStr(n)); |r| == 2 && AllDigits(r) && DecimalValue(r) == n
  {
    if n < 10 {
      LeadingZero(NatStr(n));
    }
  }

  /** The value of a hexadecimal digit, or `None`. */
  function HexDigitValue(c: char): Option<nat> {
    if IsDigit(c) then Some(DigitValue(c))
    else if 'a' <= c <= 'f' then Some(c as int - 'a' as int + 10)
    else if 'A' <= c <= 'F' then Some(c as int - 'A' as int + 10)
    else None
  }

  /** The value of the longest run of hexadecimal digits at the start of `s`, and its length. */
  function HexPrefix(s: string, acc: nat, len: nat): (r: (nat, nat))
    requires len <= |s|
    decreases |s| - len
  {
    if len < |s| && HexDigitValue(s[len]).Some? then
      HexPrefix(s, acc * 16 + HexDigitValue(s[len]).value, len + 1)
    else (acc, len)
  }

  /** `parseInt(s)` with no radix: leading white space, an optional sign, a `0x` prefix for
      hexadecimal, then the longest run of digits; `None` stands for NaN. */
  function ParseInt(s: string): (r: Option<int>)
    ensures AllDigits(s) && |s| > 0 ==> r == Some(DecimalValue(s))
  {
    var t := s[SkipSpaces(s, 0)..];
    assert AllDigits(s) && |s| > 0 ==> t == s;
    var negative := |t| > 0 && t[0] == '-';
    var u := if |t| > 0 && (t[0] == '-' || t[0] == '+') then t[1..] else t;
    if |u| >= 2 && u[0] == '0' && (u[1] == 'x' || u[1] == 'X') then
      var (value, len) := HexPrefix(u[2..], 0, 0);
      var v: int := if negative then 0 - value as int else value;
      if len == 0 then None else Some(v)
    else
      var d := DigitRunEnd(u, 0);
      assert AllDigits(s) && |s| > 0 ==> d == |s| && u[..d] == s;
      var v: int := if negative then 0 - DecimalValue(u[..d]) as int else DecimalValue(u[..d]);
      if d == 0 then None else Some(v)
  }

  /** JavaScript's `%` on integers: the remainder takes the sign of the dividend. */
  function JsRem(a: int, b: int): (r: int)
    requires b > 0
    ensures a >= 0 ==> r == a % b
  {
    if a >= 0 then a % b else -((-a) % b)
  }
}
