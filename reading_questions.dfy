/** The question book of the reading exam (scripts/convert_data.js, `parseQuestions`,
    `extractTestQuestions` and `processRawQuestion`): the book is cut at its test headers, every
    long enough test is cut at its question labels, and each question is split at its first "(A)"
    into the stem and the options. */
module ReadingQuestions {
  import opened Wrappers
  import opened Text
  import opened Scan
  import opened Segments
  import opened Tables
  import opened Questions

  // ---------------------------------------------------------------- one question

  /** The trimmed option texts of `s` from `from` on, one per option segment. */
  function OptionTexts(s: string, from: nat): seq<string>
    decreases |s| - from
  {
    match Search(OptionSegment, s, from)
    case None => []
    case Some(m) => [Trim(m.groups[1])] + OptionTexts(s, m.end)
  }

  /** What `processRawQuestion` returns for question `id` with text `raw`. */
  function RawQuestionOf(id: string, raw: string): Question {
    match IndexOf(raw, "(A)", 0)
    case None => Question(id, raw, [], None, None, None)
    case Some(a) => Question(id, Trim(raw[..a]), OptionTexts(raw[a..], 0), None, None, None)
  }

  /** The `exec` loop of `processRawQuestion` over the option segments of the options text. */
  method ParseOptions(optionsText: string) returns (parsed: seq<string>)
    ensures parsed == OptionTexts(optionsText, 0)
  {
    parsed := [];
    var pos: nat := 0;
    while true
      invariant pos <= |optionsText|
      invariant parsed + OptionTexts(optionsText, pos) == OptionTexts(optionsText, 0)
      decreases |optionsText| - pos
    {
      var m := Search(OptionSegment, optionsText, pos);
      if m.None? {
        break;
      }
      parsed := parsed + [Trim(m.value.groups[1])];
      pos := m.value.end;
    }
  }

  /** `processRawQuestion`. */
  method ProcessRawQuestion(id: string, raw: string) returns (q: Question)
    ensures q == RawQuestionOf(id, raw)
  {
    var indexA := IndexOf(raw, "(A)", 0);
    if indexA.None? {
      return Question(id, raw, [], None, None, None);
    }
    var questionText := Trim(raw[..indexA.value]);
    var parsed := ParseOptions(raw[indexA.value..]);
    q := Question(id, questionText, parsed, None, None, None);
  }

  /** The number of option markers `(A)`..`(D)` starting at or after `i`. */
  function MarkersFrom(s: string, i: nat): nat
    decreases |s| - i
  {
    if i >= |s| then 0 else (if ReadingMarkerAt(s, i) then 1 else 0) + MarkersFrom(s, i + 1)
  }

  lemma MarkerShift(s: string, i: nat, k: nat)
    requires i <= |s|
    ensures ReadingMarkerAt(s[i..], k) <==> ReadingMarkerAt(s, i + k)
  {
  }

  /** An option segment starts exactly at each marker and runs to the next marker or the end of
      the text; its text lies after the marker. */
  lemma OptionSegmentAt(s: string, i: nat)
    ensures MatchAt(OptionSegment, s, i).Some? <==> ReadingMarkerAt(s, i)
    ensures match MatchAt(OptionSegment, s, i)
      case None => true
      case Some(m) =>
        && (m.end == |s| || ReadingMarkerAt(s, m.end))
        && (forall k :: i < k < m.end ==> !ReadingMarkerAt(s, k))
        && (exists w :: i + 3 <= w <= m.end && m.groups[1] == s[w..m.end])
  {
    if i <= |s| {
      var t := s[i..];
      MarkerShift(s, i, 0);
      match OptionSegmentHere(t)
      case None =>
      case Some(h) =>
        MarkerShift(s, i, h.len);
        forall k | i < k < i + h.len
          ensures !ReadingMarkerAt(s, k)
        {
          MarkerShift(s, i, k - i);
        }
        var w :| 3 <= w <= h.len && h.groups[1] == t[w..h.len];
        assert t[w..h.len] == s[i + w..i + h.len];
    }
  }

  lemma {:induction false} NoMarkersSkip(s: string, lo: nat, hi: nat)
    requires lo <= hi && forall k :: lo <= k < hi ==> !ReadingMarkerAt(s, k)
    ensures MarkersFrom(s, lo) == MarkersFrom(s, hi)
    decreases hi - lo
  {
    if lo < hi {
      NoMarkersSkip(s, lo + 1, hi);
    }
  }

  /** The first option segment from `from` on starts at the first marker and is followed by no
      other marker before its end: it accounts for exactly one marker. */
  lemma OptionCountStep(s: string, from: nat)
    ensures match Search(OptionSegment, s, from)
      case None => MarkersFrom(s, from) == 0
      case Some(m) => MarkersFrom(s, from) == 1 + MarkersFrom(s, m.end)
  {
    SearchLeftmost(OptionSegment, s, from);
    var r := Search(OptionSegment, s, from);
    var stop := if r.Some? then r.value.start else |s|;
    forall k | from <= k < stop
      ensures !ReadingMarkerAt(s, k)
    {
      OptionSegmentAt(s, k);
    }
    if from <= stop {
      NoMarkersSkip(s, from, stop);
    }
    if r.Some? {
      OptionSegmentAt(s, stop);
      NoMarkersSkip(s, stop + 1, r.value.end);
    }
  }

  /** The options text yields one option per marker `(A)`..`(D)` in it. */
  lemma {:induction false} OptionPerMarker(s: string, from: nat)
    ensures |OptionTexts(s, from)| == MarkersFrom(s, from)
    decreases |s| - from
  {
    OptionCountStep(s, from);
    match Search(OptionSegment, s, from)
    case None =>
    case Some(m) =>
      OptionPerMarker(s, m.end);
  }

  /** A marker inside a slice is a marker of the whole text. */
  lemma MarkerInSlice(s: string, lo: nat, hi: nat, j: nat)
    requires lo <= hi <= |s| && ReadingMarkerAt(s[lo..hi], j)
    ensures lo + j + 3 <= hi && ReadingMarkerAt(s, lo + j)
  {
  }

  /** An option as stored: trimmed, with no marker inside. */
  predicate CleanOption(o: string) {
    IsTrimmed(o) && forall j: nat :: j < |o| ==> !ReadingMarkerAt(o, j)
  }

  /** A stretch of text with no marker starting in it holds no marker once trimmed. */
  lemma TrimmedStretchClean(s: string, w: nat, e: nat)
    requires w <= e <= |s| && forall k :: w <= k < e ==> !ReadingMarkerAt(s, k)
    ensures CleanOption(Trim(s[w..e]))
  {
    var g := s[w..e];
    forall j: nat | j < |Trim(g)| && ReadingMarkerAt(Trim(g), j)
      ensures false
    {
      MarkerInSlice(g, TrimStart(g), TrimEnd(g), j);
      MarkerInSlice(s, w, e, TrimStart(g) + j);
    }
  }

  predicate AllClean(os: seq<string>) {
    forall k :: 0 <= k < |os| ==> CleanOption(os[k])
  }

  /** The first option segment's text holds no marker once trimmed. */
  lemma FirstOptionClean(s: string, from: nat, m: Match)
    requires Search(OptionSegment, s, from) == Some(m)
    ensures CleanOption(Trim(m.groups[1]))
  {
    SearchLeftmost(OptionSegment, s, from);
    OptionSegmentAt(s, m.start);
    var w :| m.start + 3 <= w <= m.end && m.groups[1] == s[w..m.end];
    TrimmedStretchClean(s, w, m.end);
  }

  /** Every option is trimmed and holds no marker: each stops where the next marker begins. */
  lemma {:induction false} OptionsHoldNoMarker(s: string, from: nat)
    ensures AllClean(OptionTexts(s, from))
    decreases |s| - from
  {
    match Search(OptionSegment, s, from)
    case None =>
    case Some(m) =>
      FirstOptionClean(s, from, m);
      OptionsHoldNoMarker(s, m.end);
      var rest := OptionTexts(s, m.end);
      var r := [Trim(m.groups[1])] + rest;
      assert OptionTexts(s, from) == r;
      forall k | 0 <= k < |r|
        ensures CleanOption(r[k])
      {
        if k > 0 {
          assert r[k] == rest[k - 1];
        }
      }
  }

  /** Without "(A)" the whole text is the question and there are no options. */
  lemma NoOptionsWithoutMarkerA(id: string, raw: string)
    requires !Contains(raw, "(A)")
    ensures RawQuestionOf(id, raw) == Question(id, raw, [], None, None, None)
  {
    IndexOfNoneIffAbsent(raw, "(A)");
  }

  /** With "(A)" the question is the trimmed text before its first occurrence, and the options
      are one per marker from there on, trimmed and free of markers. */
  lemma SplitAtMarkerA(id: string, raw: string)
    requires Contains(raw, "(A)")
    ensures exists a :: (0 <= a <= |raw|
      && OccursAt(raw, "(A)", a) && !Contains(raw[..a], "(A)")
      && var q := RawQuestionOf(id, raw);
      && q.question == Trim(raw[..a])
      && |q.options| == MarkersFrom(raw[a..], 0)
      && AllClean(q.options))
  {
    IndexOfNoneIffAbsent(raw, "(A)");
    var a := IndexOf(raw, "(A)", 0).value;
    NoOccurrenceInPrefix(raw, "(A)", a);
    OptionPerMarker(raw[a..], 0);
    OptionsHoldNoMarker(raw[a..], 0);
  }

  // ---------------------------------------------------------------- one test

  /** Each piece's text trimmed. */
  function TrimPieces(ps: seq<(string, string)>): seq<(string, string)> {
    if |ps| == 0 then [] else [(ps[0].0, Trim(ps[0].1))] + TrimPieces(ps[1..])
  }

  lemma TrimPiecesCons(x: (string, string), rest: seq<(string, string)>)
    ensures TrimPieces([x] + rest) == [(x.0, Trim(x.1))] + TrimPieces(rest)
  {
    assert ([x] + rest)[1..] == rest;
  }

  lemma {:induction false} TrimPiecesIndex(ps: seq<(string, string)>)
    ensures var r := TrimPieces(ps);
      |r| == |ps| && forall k :: 0 <= k < |ps| ==> r[k] == (ps[k].0, Trim(ps[k].1))
  {
    if |ps| > 0 {
      TrimPiecesIndex(ps[1..]);
    }
  }

  /** The raw questions of a test: each question label's number with the trimmed text up to the
      next label or the end of the test. */
  function RawQuestions(text: string): seq<(string, string)> {
    TrimPieces(Pieces(QuestionLabel, text))
  }

  /** `processRawQuestion` on each raw question. */
  function ProcessAll(raws: seq<(string, string)>): (r: seq<Question>) {
    seq(|raws|, k requires 0 <= k < |raws| => RawQuestionOf(raws[k].0, raws[k].1))
  }

  /** What `extractTestQuestions` returns. */
  function TestQuestionsOf(text: string): seq<Question> {
    ProcessAll(RawQuestions(text))
  }

  /** The raw questions the `exec` loop of `extractTestQuestions` collects. */
  method CollectRawQuestions(text: string) returns (rawQuestions: seq<(string, string)>)
    ensures rawQuestions == RawQuestions(text)
  {
    var lastIndex: nat := 0;
    var lastQId: Option<string> := None;
    rawQuestions := [];
    while true
      invariant lastIndex <= |text|
      invariant lastQId.None? ==> lastIndex == 0 && rawQuestions == []
      invariant lastQId.Some? ==>
        rawQuestions + TrimPieces(PiecesFrom(QuestionLabel, text, lastQId.value, lastIndex)) == RawQuestions(text)
      decreases |text| - lastIndex, if lastQId.None? then 1 else 0
    {
      var m := Search(QuestionLabel, text, lastIndex);
      if m.None? {
        break;
      }
      ghost var rest := PiecesFrom(QuestionLabel, text, m.value.groups[0], m.value.end);
      if lastQId.Some? {
        var piece := (lastQId.value, text[lastIndex..m.value.start]);
        TrimPiecesCons(piece, rest);
        rawQuestions := rawQuestions + [(lastQId.value, Trim(text[lastIndex..m.value.start]))];
      } else {
        assert ([("", text[0..m.value.start])] + rest)[1..] == rest;
      }
      lastQId := Some(m.value.groups[0]);
      lastIndex := m.value.end;
    }
    if lastQId.Some? {
      TrimPiecesCons((lastQId.value, text[lastIndex..]), []);
      rawQuestions := rawQuestions + [(lastQId.value, Trim(text[lastIndex..]))];
    }
  }

  /** `extractTestQuestions`: the raw questions, then `processRawQuestion` on each. */
  method ExtractTestQuestions(text: string) returns (questions: seq<Question>)
    ensures questions == TestQuestionsOf(text)
  {
    var rawQuestions := CollectRawQuestions(text);
    questions := [];
    for k := 0 to |rawQuestions|
      invariant |questions| == k
      invariant forall j :: 0 <= j < k ==> questions[j] == RawQuestionOf(rawQuestions[j].0, rawQuestions[j].1)
    {
      var q := ProcessRawQuestion(rawQuestions[k].0, rawQuestions[k].1);
      questions := questions + [q];
    }
    ProcessedEach(rawQuestions, questions);
  }

  lemma ProcessedEach(raws: seq<(string, string)>, qs: seq<Question>)
    requires |qs| == |raws|
    requires forall j :: 0 <= j < |raws| ==> qs[j] == RawQuestionOf(raws[j].0, raws[j].1)
    ensures qs == ProcessAll(raws)
  {
  }

  lemma QuestionLabelGroup(s: string, i: nat)
    requires MatchAt(QuestionLabel, s, i).Some?
    ensures var g := MatchAt(QuestionLabel, s, i).value.groups[0]; |g| == 3 && AllDigits(g)
  {
  }

  lemma RawQuestionsFollowLabels(text: string)
    ensures var ms := AllMatches(QuestionLabel, text, 0); var raws := RawQuestions(text);
      && |raws| == |ms|
      && forall k :: 0 <= k < |ms| ==> raws[k] == (ms[k].groups[0], Trim(text[ms[k].end..PieceEnd(text, ms, k)]))
  {
    PiecesMatchHeaders(QuestionLabel, text);
    TrimPiecesIndex(Pieces(QuestionLabel, text));
  }

  lemma LabelsAreThreeDigits(text: string)
    ensures var ms := AllMatches(QuestionLabel, text, 0);
      forall k :: 0 <= k < |ms| ==> |ms[k].groups[0]| == 3 && AllDigits(ms[k].groups[0])
  {
    var ms := AllMatches(QuestionLabel, text, 0);
    AllMatchesScanned(QuestionLabel, text, 0);
    forall k | 0 <= k < |ms|
      ensures |ms[k].groups[0]| == 3 && AllDigits(ms[k].groups[0])
    {
      QuestionLabelGroup(text, ms[k].start);
    }
  }

  /** One question per question label, in order: the label's three digits are its id and its
      text is what lies between that label and the next one, or the end of the test. */
  lemma QuestionsFollowLabels(text: string)
    ensures var ms := AllMatches(QuestionLabel, text, 0); var qs := TestQuestionsOf(text);
      && |qs| == |ms|
      && forall k :: 0 <= k < |ms| ==>
        && |qs[k].id| == 3 && AllDigits(qs[k].id)
        && qs[k] == RawQuestionOf(ms[k].groups[0], Trim(text[ms[k].end..PieceEnd(text, ms, k)]))
  {
    RawQuestionsFollowLabels(text);
    LabelsAreThreeDigits(text);
  }

  // ---------------------------------------------------------------- the whole book

  /** The test books start at the question book's title page; without it the whole text is
      used (`substring(-1)` is `substring(0)`). */
  function QuestionContent(text: string): string {
    var normalized := NormalizeNewlines(text);
    match IndexOf(normalized, "试题册", 0)
    case None => normalized
    case Some(i) => normalized[i..]
  }

  /** Tests shorter than this are table-of-contents entries and are skipped. */
  const MinTestLength := 1000

  /** Each long enough piece, in order, stored under its name (a later one replaces an earlier
      one of the same name). */
  function KeepLong(tests: Table<seq<Question>>, ps: seq<(string, string)>): Table<seq<Question>>
    decreases |ps|
  {
    if |ps| == 0 then tests
    else
      var next := if |ps[0].1| > MinTestLength then Put(tests, ps[0].0, TestQuestionsOf(ps[0].1)) else tests;
      KeepLong(next, ps[1..])
  }

  /** What `parseQuestions` returns. */
  function QuestionTable(text: string): Table<seq<Question>> {
    KeepLong([], Pieces(ReadingTestHeader, QuestionContent(text)))
  }

  /** `parseQuestions`: an `exec` loop over the test headers. */
  method ParseQuestions(text: string) returns (tests: Table<seq<Question>>)
    ensures tests == QuestionTable(text)
  {
    var normalized := NormalizeNewlines(text);
    var questionBookStart := IndexOf(normalized, "试题册", 0);
    var content := if questionBookStart.None? then normalized else normalized[questionBookStart.value..];
    tests := [];
    var lastIndex: nat := 0;
    var lastTestId: Option<string> := None;
    while true
      invariant lastIndex <= |content|
      invariant lastTestId.None? ==> lastIndex == 0 && tests == []
      invariant lastTestId.Some? ==>
        KeepLong(tests, PiecesFrom(ReadingTestHeader, content, lastTestId.value, lastIndex)) == QuestionTable(text)
      decreases |content| - lastIndex, if lastTestId.None? then 1 else 0
    {
      var m := Search(ReadingTestHeader, content, lastIndex);
      if m.None? {
        break;
      }
      if lastTestId.Some? {
        var testContent := content[lastIndex..m.value.start];
        ghost var rest := PiecesFrom(ReadingTestHeader, content, m.value.groups[0], m.value.end);
        assert ([(lastTestId.value, testContent)] + rest)[1..] == rest;
        if |testContent| > MinTestLength {
          var qs := ExtractTestQuestions(testContent);
          tests := Put(tests, lastTestId.value, qs);
        }
      }
      lastTestId := Some(m.value.groups[0]);
      lastIndex := m.value.end;
    }
    if lastTestId.Some? {
      var testContent := content[lastIndex..];
      if |testContent| > MinTestLength {
        var qs := ExtractTestQuestions(testContent);
        tests := Put(tests, lastTestId.value, qs);
      }
    }
  }

  // ---------------------------------------------------------------- properties of the book

  /** Without the question book's title the whole (normalised) text is searched. */
  lemma WholeTextWithoutTitle(text: string)
    requires !Contains(NormalizeNewlines(text), "试题册")
    ensures QuestionContent(text) == NormalizeNewlines(text)
  {
    IndexOfNoneIffAbsent(NormalizeNewlines(text), "试题册");
  }

  /** Piece `i` of `ps` is named `name` and long enough to be kept. */
  predicate LongPiece(ps: seq<(string, string)>, i: int, name: string) {
    0 <= i < |ps| && ps[i].0 == name && |ps[i].1| > MinTestLength
  }

  /** The index of the last piece named `name` that is long enough to be kept, if any. */
  function LastLong(ps: seq<(string, string)>, name: string): (r: Option<nat>)
    ensures r.Some? ==>
      LongPiece(ps, r.value, name) && forall j :: r.value < j < |ps| ==> !LongPiece(ps, j, name)
    ensures r.None? ==> forall j :: 0 <= j < |ps| ==> !LongPiece(ps, j, name)
  {
    if |ps| == 0 then None
    else
      match LastLong(ps[1..], name)
      case Some(j) =>
        assert forall i :: 1 <= i < |ps| ==> (LongPiece(ps, i, name) <==> LongPiece(ps[1..], i - 1, name));
        Some(j + 1)
      case None =>
        assert forall i :: 1 <= i < |ps| ==> (LongPiece(ps, i, name) <==> LongPiece(ps[1..], i - 1, name));
        if LongPiece(ps, 0, name) then Some(0) else None
  }

  /** A test reads as the questions of the last long piece with its name, or as before when no
      long piece has that name: short pieces (table-of-contents entries) are never stored. */
  lemma {:induction false} KeepLongLastWins(tests: Table<seq<Question>>, ps: seq<(string, string)>, name: string)
    ensures Get(KeepLong(tests, ps), name)
         == match LastLong(ps, name)
            case Some(i) => Some(TestQuestionsOf(ps[i].1))
            case None => Get(tests, name)
    decreases |ps|
  {
    if |ps| > 0 {
      var next := if |ps[0].1| > MinTestLength then Put(tests, ps[0].0, TestQuestionsOf(ps[0].1)) else tests;
      if |ps[0].1| > MinTestLength {
        GetPut(tests, ps[0].0, TestQuestionsOf(ps[0].1), name);
      }
      KeepLongLastWins(next, ps[1..], name);
      match LastLong(ps[1..], name)
      case Some(j) =>
        assert ps[1..][j] == ps[j + 1];
      case None =>
    }
  }

  /** The book's tests: a test is present exactly when some test header of that name is followed
      by more than `MinTestLength` characters before the next header, and then it holds the
      questions of the last such piece. */
  lemma BookKeepsLongTests(text: string, name: string)
    ensures var ps := Pieces(ReadingTestHeader, QuestionContent(text));
      Get(QuestionTable(text), name)
        == match LastLong(ps, name)
           case Some(i) => Some(TestQuestionsOf(ps[i].1))
           case None => None
  {
    KeepLongLastWins([], Pieces(ReadingTestHeader, QuestionContent(text)), name);
  }
}
