/** The regular expressions of the two conversion scripts, each written out as a scanner that
    decides whether its pattern matches at the start of a string, plus the leftmost search that
    `exec`, `search` and `match` perform and the sequence of matches a global `exec` loop visits.

    For every pattern here the match at a given start position is unique: each greedy run is
    followed by a character its class does not contain, so backtracking to a shorter run cannot
    succeed. The one lazy quantifier that can choose among several ends, in `PassageHeader`,
    takes the first position where the rest of the pattern matches, as the regex engine does. */
module Scan {
  import opened Wrappers
  import opened Text

  /** A match at the start of a string: the number of characters consumed and the groups. */
  datatype Hit = Hit(len: nat, groups: seq<string>)

  /** A match inside a whole string: its extent and its capture groups. */
  datatype Match = Match(start: nat, end: nat, groups: seq<string>)

  datatype Pattern =
    | ReadingAnswerPair      // (\d+)\.\s*\(([A-D])\)
    | ReadingTestHeader      // (Test\s+\d+)\s+(?:Reading Test)?
    | QuestionLabel          // \n\s*(\d{3})\.
    | OptionSegment          // \(([A-D])\)\s*([\s\S]*?)(?=\([A-D]\)|$)
    | PassageHeader          // ((?:Part \d+[\s\S]*?)?Questions\s+(\d+)-(\d+)\s+refer\s+to\s+the\s+following\s+[\w\s]+(?:\.|:))  with /i
    | AnswerBookTestHeader   // ^Test\s+(\d+)  with /i, tried at the start of a line only
    | ListeningTestHeader    // Test\s+(\d+)
    | ListeningAnswerPair    // (\d+)\.\s*[（(]([A-D])[）)]
    | TranscriptStart        // 1\s*[（(]A[）)]
    | QuestionNumber(n: nat) // \n<n>(?=[^0-9])

  // ---------------------------------------------------------------- building blocks

  predicate StartsWith(t: string, lit: string) {
    |lit| <= |t| && t[..|lit|] == lit
  }

  /** `t` begins with `lit` when ASCII letters are compared without case; `lit` is lower case.
      This is what the `/i` flag does without the `u` flag: no non-ASCII character is equal to
      an ASCII letter. */
  predicate StartsWithCI(t: string, lit: string)
    decreases |lit|
  {
    |lit| <= |t| && (|lit| == 0 || (LowerChar(t[0]) == lit[0] && StartsWithCI(t[1..], lit[1..])))
  }

  /** The half-width and full-width brackets the listening patterns accept. */
  predicate IsOpen(c: char) {
    c == '(' || c == '\U{FF08}'
  }

  predicate IsClose(c: char) {
    c == ')' || c == '\U{FF09}'
  }

  predicate IsWordOrSpace(c: char) {
    IsWordChar(c) || IsSpace(c)
  }

  /** End of the run of `[\w\s]` characters that starts at `i`. */
  function WordOrSpaceRunEnd(s: string, i: nat): (j: nat)
    requires i <= |s|
    ensures i <= j <= |s|
    ensures forall k :: i <= k < j ==> IsWordOrSpace(s[k])
    ensures j == |s| || !IsWordOrSpace(s[j])
    decreases |s| - i
  {
    if i == |s| || !IsWordOrSpace(s[i]) then i else WordOrSpaceRunEnd(s, i + 1)
  }

  /** `\(([A-D])\)`: the option marker of the reading book. */
  predicate ReadingMarkerAt(s: string, k: nat) {
    k + 3 <= |s| && s[k] == '(' && 'A' <= s[k + 1] <= 'D' && s[k + 2] == ')'
  }

  /** The first reading option marker at or after `j`, or the end of the text. */
  function NextReadingMarker(s: string, j: nat): (p: nat)
    requires j <= |s|
    ensures j <= p <= |s|
    ensures p < |s| ==> ReadingMarkerAt(s, p)
    ensures forall k :: j <= k < p ==> !ReadingMarkerAt(s, k)
    decreases |s| - j
  {
    if j == |s| || ReadingMarkerAt(s, j) then j else NextReadingMarker(s, j + 1)
  }

  // ---------------------------------------------------------------- one scanner per pattern

  /** `(\d+)\.\s*\(([A-D])\)`, or with `wide` the listening form `(\d+)\.\s*[（(]([A-D])[）)]`. */
  function AnswerPairHere(t: string, wide: bool): (r: Option<Hit>)
    ensures r.Some? ==> 0 < r.value.len <= |t| && |r.value.groups| == 2
    ensures r.Some? ==> |r.value.groups[0]| > 0 && AllDigits(r.value.groups[0])
    ensures r.Some? ==> |r.value.groups[1]| == 1 && 'A' <= r.value.groups[1][0] <= 'D'
  {
    var d := DigitRunEnd(t, 0);
    if d == 0 || d == |t| || t[d] != '.' then None
    else
      var w := SkipSpaces(t, d + 1);
      if w + 3 <= |t| && 'A' <= t[w + 1] <= 'D'
         && (if wide then IsOpen(t[w]) else t[w] == '(')
         && (if wide then IsClose(t[w + 2]) else t[w + 2] == ')')
      then Some(Hit(w + 3, [t[..d], t[w + 1..w + 2]]))
      else None
  }

  /** `(Test\s+\d+)\s+(?:Reading Test)?`: the group is the header up to its last digit. */
  function ReadingTestHeaderHere(t: string): (r: Option<Hit>)
    ensures r.Some? ==> 0 < r.value.len <= |t| && |r.value.groups| == 1
  {
    if !StartsWith(t, "Test") then None
    else
      var a := SkipSpaces(t, 4);
      var d := DigitRunEnd(t, a);
      if a == 4 || d == a then None
      else
        var b := SkipSpaces(t, d);
        if b == d then None
        else Some(Hit(if StartsWith(t[b..], "Reading Test") then b + 12 else b, [t[..d]]))
  }

  /** `Test\s+(\d+)`, case-sensitive, or with `ci` the `/i` form; the group is the number. */
  function TestNumberHere(t: string, ci: bool): (r: Option<Hit>)
    ensures r.Some? ==> 0 < r.value.len <= |t| && |r.value.groups| == 1
    ensures r.Some? ==> |r.value.groups[0]| > 0 && AllDigits(r.value.groups[0])
  {
    if !(if ci then StartsWithCI(t, "test") else StartsWith(t, "Test")) then None
    else
      var a := SkipSpaces(t, 4);
      var d := DigitRunEnd(t, a);
      if a == 4 || d == a then None else Some(Hit(d, [t[a..d]]))
  }

  /** `\n\s*(\d{3})\.`: the group is the three digits. */
  function QuestionLabelHere(t: string): (r: Option<Hit>)
    ensures r.Some? ==> 0 < r.value.len <= |t| && |r.value.groups| == 1
    ensures r.Some? ==> |r.value.groups[0]| == 3 && AllDigits(r.value.groups[0])
  {
    if |t| == 0 || t[0] != '\n' then None
    else
      var w := SkipSpaces(t, 1);
      if w + 4 <= |t| && IsDigit(t[w]) && IsDigit(t[w + 1]) && IsDigit(t[w + 2]) && t[w + 3] == '.'
      then Some(Hit(w + 4, [t[w..w + 3]]))
      else None
  }

  /** `\(([A-D])\)\s*([\s\S]*?)(?=\([A-D]\)|$)`: a marker, the white space after it, and the text
      up to the next marker or the end; the groups are the letter and that text. */
  function OptionSegmentHere(t: string): (r: Option<Hit>)
    ensures r.Some? ==> 0 < r.value.len <= |t| && |r.value.groups| == 2
    ensures r.Some? ==> ReadingMarkerAt(t, 0)
    ensures r.Some? ==> r.value.len == |t| || ReadingMarkerAt(t, r.value.len)
    ensures r.Some? ==> forall k :: 1 <= k < r.value.len ==> !ReadingMarkerAt(t, k)
    ensures r.Some? ==> exists w :: 3 <= w <= r.value.len && r.value.groups[1] == t[w..r.value.len]
  {
    if !ReadingMarkerAt(t, 0) then None
    else
      var w := SkipSpaces(t, 3);
      var p := NextReadingMarker(t, w);
      Some(Hit(p, [t[1..2], t[w..p]]))
  }

  /** White space then `word` (lower case, compared without case) from `j`: the end of the word. */
  function SpacedWordCI(t: string, j: nat, word: string): (r: Option<nat>)
    requires j <= |t|
    ensures r.Some? ==> j < r.value <= |t|
  {
    var a := SkipSpaces(t, j);
    if a > j && |word| > 0 && StartsWithCI(t[a..], word) then Some(a + |word|) else None
  }

  /** `\s+refer\s+to\s+the\s+following` from `j`: the end of "following". */
  function ReferClauseEnd(t: string, j: nat): (r: Option<nat>)
    requires j <= |t|
    ensures r.Some? ==> j < r.value <= |t|
  {
    match SpacedWordCI(t, j, "refer")
    case None => None
    case Some(e1) =>
      match SpacedWordCI(t, e1, "to")
      case None => None
      case Some(e2) =>
        match SpacedWordCI(t, e2, "the")
        case None => None
        case Some(e3) => SpacedWordCI(t, e3, "following")
  }

  /** `(\d+)-(\d+)` from `a`: the two numbers and the end of the second. */
  function NumberRange(t: string, a: nat): (r: Option<(string, string, nat)>)
    requires a <= |t|
    ensures r.Some? ==> a < r.value.2 <= |t|
    ensures r.Some? ==> |r.value.0| > 0 && AllDigits(r.value.0) && |r.value.1| > 0 && AllDigits(r.value.1)
  {
    var b := DigitRunEnd(t, a);
    if b == a || b == |t| || t[b] != '-' then None
    else
      var c := DigitRunEnd(t, b + 1);
      if c == b + 1 then None else Some((t[a..b], t[b + 1..c], c))
  }

  /** `Questions\s+(\d+)-(\d+)` without case: the two numbers and the end of the second. */
  function QuestionRange(t: string): (r: Option<(string, string, nat)>)
    ensures r.Some? ==> 0 < r.value.2 <= |t|
    ensures r.Some? ==> |r.value.0| > 0 && AllDigits(r.value.0) && |r.value.1| > 0 && AllDigits(r.value.1)
  {
    if !StartsWithCI(t, "questions") then None
    else
      var a := SkipSpaces(t, 9);
      if a == 9 then None else NumberRange(t, a)
  }

  /** `\s+[\w\s]+(?:\.|:)` from `f`: the end of the period or colon. This needs a run of at least
      two `[\w\s]` characters, the first of them white space, followed by a period or a colon. */
  function SentenceEnd(t: string, f: nat): (r: Option<nat>)
    requires f <= |t|
    ensures r.Some? ==> f < r.value <= |t|
  {
    var w := WordOrSpaceRunEnd(t, f);
    if f < |t| && IsSpace(t[f]) && w >= f + 2 && w < |t| && (t[w] == '.' || t[w] == ':')
    then Some(w + 1)
    else None
  }

  /** `Questions\s+(\d+)-(\d+)\s+refer\s+to\s+the\s+following\s+[\w\s]+(?:\.|:)` without case. */
  function PassageTailHere(t: string): (r: Option<Hit>)
    ensures r.Some? ==> 0 < r.value.len <= |t| && |r.value.groups| == 2
    ensures r.Some? ==> |r.value.groups[0]| > 0 && AllDigits(r.value.groups[0])
    ensures r.Some? ==> |r.value.groups[1]| > 0 && AllDigits(r.value.groups[1])
  {
    var range := QuestionRange(t);
    if range.None? then None
    else
      var (first, last, c) := range.value;
      var following := ReferClauseEnd(t, c);
      if following.None? then None
      else
        var end := SentenceEnd(t, following.value);
        if end.None? then None else Some(Hit(end.value, [first, last]))
  }

  /** The first position at or after `j` where `PassageTailHere` matches, with its hit: the lazy
      `[\s\S]*?` after "Part N". */
  function FirstTail(t: string, j: nat): (r: Option<(nat, Hit)>)
    requires j <= |t|
    ensures r.Some? ==> j <= r.value.0 < |t| && PassageTailHere(t[r.value.0..]) == Some(r.value.1)
    decreases |t| - j
  {
    if j == |t| then None
    else
      match PassageTailHere(t[j..])
      case Some(h) => Some((j, h))
      case None => FirstTail(t, j + 1)
  }

  /** The passage header: "Part N" and anything up to the first tail, or the tail alone. The
      groups are the whole header, the first question number and the last. */
  function PassageHeaderHere(t: string): (r: Option<Hit>)
    ensures r.Some? ==> 0 < r.value.len <= |t| && |r.value.groups| == 3
    ensures r.Some? ==> r.value.groups[0] == t[..r.value.len]
    ensures r.Some? ==> |r.value.groups[1]| > 0 && AllDigits(r.value.groups[1])
    ensures r.Some? ==> |r.value.groups[2]| > 0 && AllDigits(r.value.groups[2])
  {
    var part :=
      if StartsWithCI(t, "part ") && 5 < |t| && IsDigit(t[5]) then FirstTail(t, DigitRunEnd(t, 5))
      else None;
    match part
    case Some((p, h)) =>
      assert p + h.len <= |t|;
      Some(Hit(p + h.len, [t[..p + h.len], h.groups[0], h.groups[1]]))
    case None =>
      match PassageTailHere(t)
      case Some(h) => Some(Hit(h.len, [t[..h.len], h.groups[0], h.groups[1]]))
      case None => None
  }

  /** `1\s*[（(]A[）)]`. */
  function TranscriptStartHere(t: string): (r: Option<Hit>)
    ensures r.Some? ==> 0 < r.value.len <= |t| && |r.value.groups| == 0
  {
    if |t| == 0 || t[0] != '1' then None
    else
      var w := SkipSpaces(t, 1);
      if w + 3 <= |t| && IsOpen(t[w]) && t[w + 1] == 'A' && IsClose(t[w + 2])
      then Some(Hit(w + 3, []))
      else None
  }

  /** `\n<n>(?=[^0-9])`: a newline, the decimal numeral of `n`, and then a character that is not
      a digit (which the match does not consume). */
  function QuestionNumberHere(t: string, n: nat): (r: Option<Hit>)
    ensures r.Some? ==> 0 < r.value.len < |t| && |r.value.groups| == 0
    ensures r.Some? ==> t[0] == '\n' && r.value.len == 1 + |NatStr(n)|
  {
    var num := NatStr(n);
    if 1 + |num| < |t| && t[0] == '\n' && t[1..1 + |num|] == num && !IsDigit(t[1 + |num|])
    then Some(Hit(1 + |num|, []))
    else None
  }

  /** The number of capture groups of each pattern (the whole match is not counted). */
  function GroupCount(p: Pattern): nat {
    match p
    case ReadingAnswerPair => 2
    case ReadingTestHeader => 1
    case QuestionLabel => 1
    case OptionSegment => 2
    case PassageHeader => 3
    case AnswerBookTestHeader => 1
    case ListeningTestHeader => 1
    case ListeningAnswerPair => 2
    case TranscriptStart => 0
    case QuestionNumber(_) => 0
  }

  /** Whether and how `p` matches at the start of `t`. */
  function MatchHere(p: Pattern, t: string): (r: Option<Hit>)
    ensures r.Some? ==> 0 < r.value.len <= |t| && |r.value.groups| == GroupCount(p)
  {
    match p
    case ReadingAnswerPair => AnswerPairHere(t, false)
    case ReadingTestHeader => ReadingTestHeaderHere(t)
    case QuestionLabel => QuestionLabelHere(t)
    case OptionSegment => OptionSegmentHere(t)
    case PassageHeader => PassageHeaderHere(t)
    case AnswerBookTestHeader => TestNumberHere(t, true)
    case ListeningTestHeader => TestNumberHere(t, false)
    case ListeningAnswerPair => AnswerPairHere(t, true)
    case TranscriptStart => TranscriptStartHere(t)
    case QuestionNumber(n) => QuestionNumberHere(t, n)
  }

  // ---------------------------------------------------------------- searching

  /** The match of `p` that starts at position `i` of `s`, if any. */
  function MatchAt(p: Pattern, s: string, i: nat): (r: Option<Match>)
    ensures r.Some? ==> r.value.start == i < r.value.end <= |s| && |r.value.groups| == GroupCount(p)
  {
    if i > |s| then None
    else
      match MatchHere(p, s[i..])
      case None => None
      case Some(h) => Some(Match(i, i + h.len, h.groups))
  }

  /** No match of `p` starts anywhere in `[lo, hi)`. */
  ghost predicate NoMatchIn(p: Pattern, s: string, lo: nat, hi: nat) {
    forall i: nat :: lo <= i < hi ==> MatchAt(p, s, i).None?
  }

  /** The leftmost match at or after `from`: what `exec` finds with `lastIndex == from`, and what
      `search` finds in `s.slice(from)` (none of the patterns looks behind its start). Lemma
      `SearchLeftmost` states that it is a match and the leftmost one. */
  function Search(p: Pattern, s: string, from: nat): (r: Option<Match>)
    ensures r.Some? ==> from <= r.value.start < r.value.end <= |s| && |r.value.groups| == GroupCount(p)
    decreases |s| - from
  {
    if from >= |s| then None
    else
      match MatchAt(p, s, from)
      case Some(m) => Some(m)
      case None => Search(p, s, from + 1)
  }

  lemma NoMatchExtend(p: Pattern, s: string, from: nat, hi: nat)
    requires MatchAt(p, s, from).None? && NoMatchIn(p, s, from + 1, hi)
    ensures NoMatchIn(p, s, from, hi)
  {
    forall i: nat | from <= i < hi
      ensures MatchAt(p, s, i).None?
    {
      if i > from {
        assert from + 1 <= i < hi;
      }
    }
  }

  /** `Search` finds a match, and no match starts between `from` and it (or the end of `s`). */
  lemma {:induction false} SearchLeftmost(p: Pattern, s: string, from: nat)
    ensures var r := Search(p, s, from);
      && (r.Some? ==> MatchAt(p, s, r.value.start) == r)
      && NoMatchIn(p, s, from, if r.Some? then r.value.start else |s|)
    decreases |s| - from
  {
    if from < |s| && MatchAt(p, s, from).None? {
      SearchLeftmost(p, s, from + 1);
      var r := Search(p, s, from + 1);
      NoMatchExtend(p, s, from, if r.Some? then r.value.start else |s|);
    }
  }

  /** Each of `ms` is a match of `p` in `s` starting at or after `from`. */
  ghost predicate AllMatchAt(p: Pattern, s: string, from: nat, ms: seq<Match>) {
    forall k :: 0 <= k < |ms| ==> from <= ms[k].start && MatchAt(p, s, ms[k].start) == Some(ms[k])
  }

  /** No match of `p` starts before the first of `ms`, between two of them, or after the last. */
  ghost predicate NoneBetween(p: Pattern, s: string, from: nat, ms: seq<Match>) {
    && (|ms| > 0 ==> NoMatchIn(p, s, from, ms[0].start))
    && (forall k :: 0 <= k < |ms| - 1 ==> NoMatchIn(p, s, ms[k].end, ms[k + 1].start))
    && NoMatchIn(p, s, if |ms| > 0 then ms[|ms| - 1].end else from, |s|)
  }

  /** `ms` are the matches of `p` in `s` from `from` on, as a global `exec` loop visits them:
      with no other match starting before, between or after them. */
  ghost predicate Scanned(p: Pattern, s: string, from: nat, ms: seq<Match>) {
    AllMatchAt(p, s, from, ms) && NoneBetween(p, s, from, ms)
  }

  /** The matches a global `exec` loop visits from `from`: each search resumes where the previous
      match ended. Lemma `AllMatchesScanned` states what they are. */
  function AllMatches(p: Pattern, s: string, from: nat): (ms: seq<Match>)
    ensures forall k :: 0 <= k < |ms| ==>
      from <= ms[k].start < ms[k].end <= |s| && |ms[k].groups| == GroupCount(p)
    ensures forall k :: 0 <= k < |ms| - 1 ==> ms[k].end <= ms[k + 1].start
    decreases |s| - from
  {
    match Search(p, s, from)
    case None => []
    case Some(m) =>
      var rest := AllMatches(p, s, m.end);
      assert forall k :: 1 <= k < |[m] + rest| ==> ([m] + rest)[k] == rest[k - 1];
      [m] + rest
  }

  lemma AllMatchAtCons(p: Pattern, s: string, from: nat, m: Match, rest: seq<Match>)
    requires from <= m.start < m.end && MatchAt(p, s, m.start) == Some(m) && AllMatchAt(p, s, m.end, rest)
    ensures AllMatchAt(p, s, from, [m] + rest)
  {
    var ms := [m] + rest;
    forall k | 0 <= k < |ms|
      ensures from <= ms[k].start && MatchAt(p, s, ms[k].start) == Some(ms[k])
    {
      if k > 0 {
        assert ms[k] == rest[k - 1];
      }
    }
  }

  lemma NoneBetweenCons(p: Pattern, s: string, from: nat, m: Match, rest: seq<Match>)
    requires NoMatchIn(p, s, from, m.start) && NoneBetween(p, s, m.end, rest)
    ensures NoneBetween(p, s, from, [m] + rest)
  {
    var ms := [m] + rest;
    forall k | 0 <= k < |ms| - 1
      ensures NoMatchIn(p, s, ms[k].end, ms[k + 1].start)
    {
      assert ms[k + 1] == rest[k];
      if k > 0 {
        assert ms[k] == rest[k - 1];
      }
    }
    if |rest| > 0 {
      assert ms[|ms| - 1] == rest[|rest| - 1];
    }
  }

  lemma ScannedCons(p: Pattern, s: string, from: nat, m: Match, rest: seq<Match>)
    requires Search(p, s, from) == Some(m) && Scanned(p, s, m.end, rest)
    ensures Scanned(p, s, from, [m] + rest)
  {
    SearchLeftmost(p, s, from);
    AllMatchAtCons(p, s, from, m, rest);
    NoneBetweenCons(p, s, from, m, rest);
  }

  lemma {:induction false} AllMatchesScanned(p: Pattern, s: string, from: nat)
    ensures Scanned(p, s, from, AllMatches(p, s, from))
    decreases |s| - from
  {
    SearchLeftmost(p, s, from);
    match Search(p, s, from)
    case None =>
    case Some(m) =>
      AllMatchesScanned(p, s, m.end);
      ScannedCons(p, s, from, m, AllMatches(p, s, m.end));
  }

  /** Each match the `exec` loop visits is a match of `p` where it starts. */
  lemma AllMatchesMatch(p: Pattern, s: string, from: nat, k: nat)
    requires k < |AllMatches(p, s, from)|
    ensures var m := AllMatches(p, s, from)[k]; MatchAt(p, s, m.start) == Some(m)
  {
    AllMatchesScanned(p, s, from);
  }

  // ---------------------------------------------------------------- the passage header is found
  // in any text that extends the text it was found in

  lemma SliceOfAppend(x: string, y: string, j: nat)
    requires j <= |x|
    ensures (x + y)[j..] == x[j..] + y
  {
  }

  lemma SkipSpacesExtend(x: string, y: string, j: nat)
    requires j <= |x| && SkipSpaces(x, j) < |x|
    ensures SkipSpaces(x + y, j) == SkipSpaces(x, j)
    decreases |x| - j
  {
    if IsSpace(x[j]) {
      SkipSpacesExtend(x, y, j + 1);
    }
  }

  lemma DigitRunExtend(x: string, y: string, j: nat)
    requires j <= |x| && DigitRunEnd(x, j) < |x|
    ensures DigitRunEnd(x + y, j) == DigitRunEnd(x, j)
    decreases |x| - j
  {
    if IsDigit(x[j]) {
      DigitRunExtend(x, y, j + 1);
    }
  }

  lemma WordOrSpaceRunExtend(x: string, y: string, j: nat)
    requires j <= |x| && WordOrSpaceRunEnd(x, j) < |x|
    ensures WordOrSpaceRunEnd(x + y, j) == WordOrSpaceRunEnd(x, j)
    decreases |x| - j
  {
    if IsWordOrSpace(x[j]) {
      WordOrSpaceRunExtend(x, y, j + 1);
    }
  }

  lemma {:induction false} StartsWithCIExtend(x: string, y: string, a: nat, w: string)
    requires a <= |x| && StartsWithCI(x[a..], w)
    ensures StartsWithCI((x + y)[a..], w)
    decreases |w|
  {
    if |w| > 0 {
      assert x[a..][1..] == x[a + 1..] && (x + y)[a..][1..] == (x + y)[a + 1..];
      StartsWithCIExtend(x, y, a + 1, w[1..]);
    }
  }

  lemma SpacedWordExtend(x: string, y: string, j: nat, w: string)
    requires j <= |x| && SpacedWordCI(x, j, w).Some?
    ensures SpacedWordCI(x + y, j, w) == SpacedWordCI(x, j, w)
  {
    var a := SkipSpaces(x, j);
    assert a < |x|;
    SkipSpacesExtend(x, y, j);
    StartsWithCIExtend(x, y, a, w);
  }

  lemma ReferClauseExtend(x: string, y: string, j: nat)
    requires j <= |x| && ReferClauseEnd(x, j).Some?
    ensures ReferClauseEnd(x + y, j) == ReferClauseEnd(x, j)
  {
    var e1 := SpacedWordCI(x, j, "refer").value;
    SpacedWordExtend(x, y, j, "refer");
    var e2 := SpacedWordCI(x, e1, "to").value;
    SpacedWordExtend(x, y, e1, "to");
    var e3 := SpacedWordCI(x, e2, "the").value;
    SpacedWordExtend(x, y, e2, "the");
    SpacedWordExtend(x, y, e3, "following");
  }

  lemma NumberRangeExtend(x: string, y: string, a: nat)
    requires a <= |x| && NumberRange(x, a).Some? && NumberRange(x, a).value.2 < |x|
    ensures NumberRange(x + y, a) == NumberRange(x, a)
  {
    var t := x + y;
    var b := DigitRunEnd(x, a);
    DigitRunExtend(x, y, a);
    DigitRunExtend(x, y, b + 1);
    var c := DigitRunEnd(x, b + 1);
    assert t[a..b] == x[a..b] && t[b + 1..c] == x[b + 1..c];
  }

  lemma QuestionRangeExtend(x: string, y: string)
    requires QuestionRange(x).Some? && QuestionRange(x).value.2 < |x|
    ensures QuestionRange(x + y) == QuestionRange(x)
  {
    var t := x + y;
    StartsWithCIExtend(x, y, 0, "questions");
    assert x[0..] == x && t[0..] == t;
    SkipSpacesExtend(x, y, 9);
    NumberRangeExtend(x, y, SkipSpaces(x, 9));
  }

  lemma SentenceEndExtend(x: string, y: string, f: nat)
    requires f <= |x| && SentenceEnd(x, f).Some?
    ensures SentenceEnd(x + y, f) == SentenceEnd(x, f)
  {
    var w := WordOrSpaceRunEnd(x, f);
    WordOrSpaceRunExtend(x, y, f);
    assert (x + y)[f] == x[f] && (x + y)[w] == x[w];
  }

  lemma PassageTailExtend(x: string, y: string)
    requires PassageTailHere(x).Some?
    ensures PassageTailHere(x + y) == PassageTailHere(x)
  {
    var c := QuestionRange(x).value.2;
    var f := ReferClauseEnd(x, c).value;
    QuestionRangeExtend(x, y);
    ReferClauseExtend(x, y, c);
    SentenceEndExtend(x, y, f);
  }

  /** A tail at `p` in `x` is a tail at `p` in `x + y`, so the first tail of `x + y` at or after
      `j` exists too (perhaps earlier). */
  lemma {:induction false} FirstTailExtend(x: string, y: string, j: nat)
    requires j <= |x| && FirstTail(x, j).Some?
    ensures FirstTail(x + y, j).Some?
    decreases |x| - j
  {
    var t := x + y;
    assert j < |x|;
    SliceOfAppend(x, y, j);
    if PassageTailHere(x[j..]).Some? {
      PassageTailExtend(x[j..], y);
    } else if PassageTailHere(t[j..]).None? {
      FirstTailExtend(x, y, j + 1);
    }
  }

  lemma PassageHeaderExtend(x: string, y: string)
    requires PassageHeaderHere(x).Some?
    ensures PassageHeaderHere(x + y).Some?
  {
    var t := x + y;
    if StartsWithCI(x, "part ") && 5 < |x| && IsDigit(x[5]) && FirstTail(x, DigitRunEnd(x, 5)).Some? {
      StartsWithCIExtend(x, y, 0, "part ");
      assert x[0..] == x && t[0..] == t;
      var d := DigitRunEnd(x, 5);
      assert d < |x|;
      DigitRunExtend(x, y, 5);
      FirstTailExtend(x, y, d);
    } else {
      PassageTailExtend(x, y);
      if StartsWithCI(t, "part ") && 5 < |t| && IsDigit(t[5]) {
        if FirstTail(t, DigitRunEnd(t, 5)).None? {
        }
      }
    }
  }

  /** A passage header found in a slice `s[a..b]` is found at the same place in `s`. */
  lemma PassageHeaderInSlice(s: string, a: nat, b: nat, j: nat)
    requires a <= b <= |s| && MatchAt(PassageHeader, s[a..b], j).Some?
    ensures MatchAt(PassageHeader, s, a + j).Some?
  {
    var x := s[a..b];
    assert j < |x| && PassageHeaderHere(x[j..]).Some?;
    PassageHeaderExtend(x[j..], s[b..]);
    SliceOfSlice(s, a, b, j);
  }

  lemma SliceOfSlice(s: string, a: nat, b: nat, j: nat)
    requires a <= b <= |s| && j <= b - a
    ensures s[a..b][j..] + s[b..] == s[a + j..]
  {
  }

  /** A text with no passage header starting before `c` has none in any slice `s[a..b]` with
      `b <= c`. */
  lemma NoPassageHeaderInSlice(s: string, a: nat, b: nat, c: nat)
    requires a <= b <= c <= |s| && NoMatchIn(PassageHeader, s, 0, c)
    ensures Search(PassageHeader, s[a..b], 0).None?
  {
    var r := Search(PassageHeader, s[a..b], 0);
    SearchLeftmost(PassageHeader, s[a..b], 0);
    if r.Some? {
      PassageHeaderInSlice(s, a, b, r.value.start);
      assert false;
    }
  }
}
