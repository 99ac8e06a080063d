/** The listening conversion (scripts/convert_listening.js): the answer book is the text after the
    last "答案册"; it is cut into tests at each "Test <digits>"; in each test the answer pairs are
    collected, the transcript is cut into question chunks by a cursor looking for "\n<k>" before
    a non-digit, and each chunk is read into a stem, options and a script. */
module ConvertListening {
  import opened Wrappers
  import opened Text
  import opened Scan
  import opened Segments
  import opened Questions
  import opened AnswerKeys

  // ---------------------------------------------------------------- option chains

  /** The marker `[（(]X[）)]` of `parseQuestionChunk`'s regular expressions, compared without
      case as `/i` does, for the lower-case letter `x`, starting at `k`. */
  predicate LetterMarkerAt(s: string, k: nat, x: char) {
    k + 3 <= |s| && IsOpen(s[k]) && LowerChar(s[k + 1]) == x && IsClose(s[k + 2])
  }

  /** The first marker for `x` at or after `j`. */
  function NextLetterMarker(s: string, j: nat, x: char): (r: Option<nat>)
    ensures r.Some? ==> j <= r.value && LetterMarkerAt(s, r.value, x)
    ensures forall k: nat :: j <= k < (if r.Some? then r.value else |s|) ==> !LetterMarkerAt(s, k, x)
    decreases |s| - j
  {
    if j + 3 > |s| then None
    else if LetterMarkerAt(s, j, x) then Some(j)
    else NextLetterMarker(s, j + 1, x)
  }

  /** Where the lookahead `(?=$|[（(]A|\n\d)` (with `/i`) holds. */
  predicate StopAt(s: string, p: nat) {
    p == |s| || (p + 1 < |s| && ((IsOpen(s[p]) && LowerChar(s[p + 1]) == 'a') || (s[p] == '\n' && IsDigit(s[p + 1]))))
  }

  /** The first position at or after `j` where the lookahead holds (the end of `s` at the latest). */
  function NextStop(s: string, j: nat): (e: nat)
    requires j <= |s|
    ensures j <= e <= |s| && StopAt(s, e)
    ensures forall k: nat :: j <= k < e ==> !StopAt(s, k)
    decreases |s| - j
  {
    if StopAt(s, j) then j else NextStop(s, j + 1)
  }

  /** The lazy groups `([\s\S]*?)` that follow a marker, from `j` on: each runs to the first
      marker of the next letter, the last to the first position where the lookahead holds. */
  function GroupsFrom(s: string, j: nat, letters: string): Option<seq<string>>
    requires j <= |s|
    decreases |letters|
  {
    if |letters| == 0 then Some([s[j..NextStop(s, j)]])
    else
      match NextLetterMarker(s, j, letters[0])
      case None => None
      case Some(k) =>
        match GroupsFrom(s, k + 3, letters[1..])
        case None => None
        case Some(gs) => Some([s[j..k]] + gs)
  }

  /** `text.match` with the chain `[（(]A[）)]([\s\S]*?)[（(]B[）)]…` over `letters`: the groups, or
      `None` when there is no match. The chain is anchored at the first "A" marker. */
  function OptionChain(s: string, letters: string): Option<seq<string>>
    requires |letters| >= 1
  {
    match NextLetterMarker(s, 0, letters[0])
    case None => None
    case Some(a) => GroupsFrom(s, a + 3, letters[1..])
  }

  /** Markers for `letters`, in this order and without overlapping, from `j` on. */
  ghost predicate MarkersInOrder(s: string, j: nat, letters: string)
    decreases |letters|
  {
    |letters| == 0 || exists k: nat :: j <= k && LetterMarkerAt(s, k, letters[0]) && MarkersInOrder(s, k + 3, letters[1..])
  }

  /** One group per letter after the first, and one more for the tail. */
  lemma {:induction false} GroupsFromCount(s: string, j: nat, letters: string)
    requires j <= |s|
    ensures GroupsFrom(s, j, letters).Some? ==> |GroupsFrom(s, j, letters).value| == |letters| + 1
    decreases |letters|
  {
    if |letters| > 0 {
      match NextLetterMarker(s, j, letters[0])
      case None =>
      case Some(k) => GroupsFromCount(s, k + 3, letters[1..]);
    }
  }

  /** The lazy groups find a chain whenever there is one: taking the first marker of each letter
      never loses a match that a later marker would give, so backtracking cannot help. */
  lemma {:induction false} GroupsFromFound(s: string, j: nat, letters: string)
    requires j <= |s|
    ensures GroupsFrom(s, j, letters).Some? <==> MarkersInOrder(s, j, letters)
    decreases |letters|
  {
    if |letters| > 0 {
      match NextLetterMarker(s, j, letters[0])
      case None =>
      case Some(k) =>
        GroupsFromFound(s, k + 3, letters[1..]);
        if MarkersInOrder(s, j, letters) {
          var k' :| j <= k' && LetterMarkerAt(s, k', letters[0]) && MarkersInOrder(s, k' + 3, letters[1..]);
          MarkersLater(s, k + 3, k' + 3, letters[1..]);
        }
    }
  }

  lemma MarkersLater(s: string, i: nat, j: nat, letters: string)
    requires i <= j && MarkersInOrder(s, j, letters)
    ensures MarkersInOrder(s, i, letters)
  {
    if |letters| > 0 {
      var k :| j <= k && LetterMarkerAt(s, k, letters[0]) && MarkersInOrder(s, k + 3, letters[1..]);
      assert i <= k;
    }
  }

  /** A group holds no marker of the letter that closes it. */
  predicate HoldsNoMarker(g: string, x: char) {
    forall k: nat :: k < |g| ==> !LetterMarkerAt(g, k, x)
  }

  /** The tail group holds no position where the lookahead would have stopped it. */
  predicate HoldsNoStop(g: string) {
    forall k: nat :: k < |g| ==> !StopAt(g, k)
  }

  lemma MarkerInGroup(s: string, j: nat, e: nat, k: nat, x: char)
    requires j <= e <= |s| && LetterMarkerAt(s[j..e], k, x)
    ensures LetterMarkerAt(s, j + k, x) && j + k + 3 <= e
  {
    assert s[j..e][k] == s[j + k] && s[j..e][k + 1] == s[j + k + 1] && s[j..e][k + 2] == s[j + k + 2];
  }

  lemma StopInGroup(s: string, j: nat, e: nat, k: nat)
    requires j <= e <= |s| && k < e - j && StopAt(s[j..e], k)
    ensures StopAt(s, j + k)
  {
    assert s[j..e][k] == s[j + k] && s[j..e][k + 1] == s[j + k + 1];
  }

  /** A group that runs to the first marker of `x` holds none. */
  lemma GroupBeforeMarker(s: string, j: nat, x: char)
    requires j <= |s| && NextLetterMarker(s, j, x).Some?
    ensures HoldsNoMarker(s[j..NextLetterMarker(s, j, x).value], x)
  {
    var k := NextLetterMarker(s, j, x).value;
    forall t: nat | t < |s[j..k]|
      ensures !LetterMarkerAt(s[j..k], t, x)
    {
      if LetterMarkerAt(s[j..k], t, x) {
        MarkerInGroup(s, j, k, t, x);
      }
    }
  }

  /** A group that runs to the first stop holds none. */
  lemma GroupBeforeStop(s: string, j: nat)
    requires j <= |s|
    ensures HoldsNoStop(s[j..NextStop(s, j)])
  {
    var e := NextStop(s, j);
    forall k: nat | k < |s[j..e]|
      ensures !StopAt(s[j..e], k)
    {
      if StopAt(s[j..e], k) {
        StopInGroup(s, j, e, k);
      }
    }
  }

  /** Each group stops at the first marker of the next letter, and the last at the first end of
      text, "(A" or newline-and-digit: no group holds what would have ended it earlier. */
  lemma {:induction false} GroupsAreLazy(s: string, j: nat, letters: string)
    requires j <= |s| && GroupsFrom(s, j, letters).Some?
    ensures var gs := GroupsFrom(s, j, letters).value;
      && |gs| == |letters| + 1
      && (forall i :: 0 <= i < |letters| ==> HoldsNoMarker(gs[i], letters[i]))
      && HoldsNoStop(gs[|letters|])
    decreases |letters|
  {
    GroupsFromCount(s, j, letters);
    var gs := GroupsFrom(s, j, letters).value;
    if |letters| == 0 {
      GroupBeforeStop(s, j);
    } else {
      var k := NextLetterMarker(s, j, letters[0]).value;
      GroupsAreLazy(s, k + 3, letters[1..]);
      GroupBeforeMarker(s, j, letters[0]);
      var rest := GroupsFrom(s, k + 3, letters[1..]).value;
      assert gs == [s[j..k]] + rest;
      forall i | 1 <= i < |letters|
        ensures HoldsNoMarker(gs[i], letters[i])
      {
        assert gs[i] == rest[i - 1] && letters[i] == letters[1..][i - 1];
      }
      assert gs[|letters|] == rest[|letters[1..]|];
    }
  }

  // ---------------------------------------------------------------- parseQuestionChunk

  /** The stem given to questions 1-6, whose printed form is a photograph. */
  const DescribePicture := "Listen to the audio and choose the best description."

  /** What `parseQuestionChunk` returns. */
  datatype ChunkData = ChunkData(question: string, options: seq<string>, script: string)

  /** The letters of the option chain for a question number: three options for 7-31 (the
      question-response part), four otherwise. */
  function ChainLetters(qNum: nat): (r: string)
    ensures |r| == if 7 <= qNum <= 31 then 3 else 4
  {
    if 7 <= qNum <= 31 then "abc" else "abcd"
  }

  /** The options of a chain match, each trimmed; none without a match. */
  function ChainOptions(c: Option<seq<string>>): seq<string> {
    match c
    case None => []
    case Some(gs) => seq(|gs|, i requires 0 <= i < |gs| => Trim(gs[i]))
  }

  /** `o.replace(/\s+/g, ' ').trim()`. */
  function TidyOption(o: string): string {
    Trim(CollapseSpaces(o))
  }

  /** Every option tidied. */
  function TidyAll(os: seq<string>): (r: seq<string>)
    ensures |r| == |os|
  {
    seq(|os|, i requires 0 <= i < |os| => TidyOption(os[i]))
  }

  /** The text a chunk is read from: without its leading number, trimmed. */
  function ChunkText(chunk: string, qNum: nat): string {
    Trim(StripPrefix(chunk, NatStr(qNum)))
  }

  function ParseQuestionChunk(chunk: string, qNum: nat): ChunkData {
    var text := ChunkText(chunk, qNum);
    var (question, options) :=
      if qNum <= 6 then (DescribePicture, ChainOptions(OptionChain(text, ChainLetters(qNum))))
      else
        match NextLetterMarker(text, 0, 'a')
        case None => (text, [])
        case Some(a) => (Trim(text[..SpacesBefore(text, a)]), ChainOptions(OptionChain(text, ChainLetters(qNum))));
    ChunkData(question, TidyAll(options), text)
  }

  /** A chain gives one option per letter or none, and some exactly when its markers occur in
      order. */
  lemma ChainOptionsFound(text: string, letters: string)
    requires |letters| >= 1
    ensures var os := ChainOptions(OptionChain(text, letters));
      && (|os| == 0 || |os| == |letters|)
      && (|os| > 0 <==> MarkersInOrder(text, 0, letters))
  {
    match NextLetterMarker(text, 0, letters[0])
    case None =>
    case Some(a) =>
      GroupsFromCount(text, a + 3, letters[1..]);
      GroupsFromFound(text, a + 3, letters[1..]);
      if MarkersInOrder(text, 0, letters) {
        var k :| 0 <= k && LetterMarkerAt(text, k, letters[0]) && MarkersInOrder(text, k + 3, letters[1..]);
        MarkersLater(text, a + 3, k + 3, letters[1..]);
      }
  }

  /** Questions 1-6 have the fixed stem and four options or none; 7-31 three or none; 32 and
      later four or none. The options are there exactly when the markers of the chain occur in
      order, and the script is the chunk without its number, trimmed. */
  lemma ChunkOptionCount(chunk: string, qNum: nat)
    ensures var d := ParseQuestionChunk(chunk, qNum);
      && (qNum <= 6 ==> d.question == DescribePicture)
      && (|d.options| == 0 || |d.options| == |ChainLetters(qNum)|)
      && (|d.options| > 0 <==> MarkersInOrder(ChunkText(chunk, qNum), 0, ChainLetters(qNum)))
      && d.script == ChunkText(chunk, qNum)
  {
    var text := ChunkText(chunk, qNum);
    var letters := ChainLetters(qNum);
    ChainOptionsFound(text, letters);
    assert letters[0] == 'a';
  }

  /** From question 7 on, a chunk with no "(A)" gives its whole text as the stem and no options. */
  lemma NoMarkerWholeText(chunk: string, qNum: nat)
    requires 7 <= qNum
    requires forall k: nat :: !LetterMarkerAt(ChunkText(chunk, qNum), k, 'a')
    ensures ParseQuestionChunk(chunk, qNum) == ChunkData(ChunkText(chunk, qNum), [], ChunkText(chunk, qNum))
  {
    var text := ChunkText(chunk, qNum);
    assert NextLetterMarker(text, 0, 'a').None?;
  }

  /** A tidied option is trimmed, its only white space is single blanks. */
  predicate Tidy(o: string) {
    && IsTrimmed(o)
    && (forall k :: 0 <= k < |o| && IsSpace(o[k]) ==> o[k] == ' ')
    && (forall k :: 0 <= k < |o| - 1 ==> !(IsSpace(o[k]) && IsSpace(o[k + 1])))
  }

  lemma TidyOptionIsTidy(o: string)
    ensures Tidy(TidyOption(o))
  {
    var c := CollapseSpaces(o);
    var r := TidyOption(o);
    var a := TrimStart(c);
    assert r == c[a..TrimEnd(c)];
    forall k | 0 <= k < |r|
      ensures r[k] == c[a + k]
    {
    }
  }

  lemma TidyAllTidy(os: seq<string>)
    ensures forall i :: 0 <= i < |os| ==> Tidy(TidyAll(os)[i])
  {
    forall i | 0 <= i < |os|
      ensures Tidy(TidyAll(os)[i])
    {
      TidyOptionIsTidy(os[i]);
    }
  }

  /** Every option of a chunk is tidy. */
  lemma OptionsAreTidy(chunk: string, qNum: nat)
    ensures var os := ParseQuestionChunk(chunk, qNum).options;
      forall i :: 0 <= i < |os| ==> Tidy(os[i])
  {
    var text := ChunkText(chunk, qNum);
    if qNum <= 6 || NextLetterMarker(text, 0, 'a').Some? {
      TidyAllTidy(ChainOptions(OptionChain(text, ChainLetters(qNum))));
    }
  }

  // ---------------------------------------------------------------- processTest

  /** The answer key of a test: every `<n>. (X)` pair, half- or full-width brackets. */
  function ListeningKey(content: string): AnswerKey {
    RecordPairs(ListeningAnswerPair, map[], content, 0)
  }

  /** Every pair is recorded and a later pair with the same number overwrites an earlier one. */
  lemma ListeningKeyLastWins(content: string, q: string)
    ensures Lookup(ListeningKey(content), q) == LastAnswer(AllMatches(ListeningAnswerPair, content, 0), q)
  {
    RecordPairsLastWins(ListeningAnswerPair, map[], content, 0, q);
  }

  /** A question chunk: its number and where it runs in the transcript. */
  datatype Chunk = Chunk(number: nat, start: nat, end: nat)

  predicate ChunksIn(t: string, cs: seq<Chunk>) {
    forall i :: 0 <= i < |cs| ==> cs[i].start <= cs[i].end <= |t|
  }

  lemma ChunksInCons(t: string, c: Chunk, rest: seq<Chunk>)
    requires c.start <= c.end <= |t| && ChunksIn(t, rest)
    ensures ChunksIn(t, [c] + rest)
  {
    var cs := [c] + rest;
    forall i | 1 <= i < |cs|
      ensures cs[i] == rest[i - 1]
    {
    }
  }

  /** Where chunk `n` starts: just after the prepended newline for the first, otherwise after the
      newline of the first "\n<n>" before a non-digit from the cursor on. */
  function ChunkStart(t: string, n: nat, cur: nat): (r: Option<nat>)
    requires 1 <= |t| && cur <= |t|
    ensures r.Some? ==> 1 <= r.value <= |t|
    ensures r.Some? && n != 1 ==> cur < r.value
  {
    if n == 1 then Some(1)
    else
      match Search(QuestionNumber(n), t, cur)
      case None => None
      case Some(m) => Some(m.start + 1)
  }

  /** Where chunk `n` ends: at the first "\n<n+1>" before a non-digit after its start, or at the
      end of the transcript (always for chunk 100). */
  function ChunkEnd(t: string, n: nat, start: nat): (e: nat)
    requires start <= |t|
    ensures start <= e <= |t|
  {
    if n == 100 then |t|
    else
      match Search(QuestionNumber(n + 1), t, start)
      case None => |t|
      case Some(m) => m.start
  }

  /** The chunks the `for qNum` loop cuts, from number `n` and cursor `cur` on. */
  function ChunksFrom(t: string, n: nat, cur: nat): (cs: seq<Chunk>)
    requires 1 <= n && 1 <= |t| && cur <= |t|
    ensures ChunksIn(t, cs)
    decreases 101 - n
  {
    if n > 100 then []
    else
      match ChunkStart(t, n, cur)
      case None => []
      case Some(s) =>
        var e := ChunkEnd(t, n, s);
        var rest := ChunksFrom(t, n + 1, e);
        ChunksInCons(t, Chunk(n, s, e), rest);
        [Chunk(n, s, e)] + rest
  }

  /** The record pushed for a chunk. */
  function ChunkQuestion(t: string, key: AnswerKey, c: Chunk): Question
    requires c.start <= c.end <= |t|
  {
    var d := ParseQuestionChunk(t[c.start..c.end], c.number);
    Question(NatStr(c.number), d.question, d.options, KeyAnswer(key, NatStr(c.number)), None, Some(d.script))
  }

  function QuestionsOf(t: string, key: AnswerKey, cs: seq<Chunk>): (qs: seq<Question>)
    requires ChunksIn(t, cs)
    ensures |qs| == |cs|
  {
    if |cs| == 0 then []
    else
      var init := cs[..|cs| - 1];
      assert forall i :: 0 <= i < |init| ==> init[i] == cs[i];
      QuestionsOf(t, key, init) + [ChunkQuestion(t, key, cs[|cs| - 1])]
  }

  /** The questions of a transcript (with its prepended newline). */
  function TranscriptQuestions(t: string, key: AnswerKey): seq<Question>
    requires 1 <= |t|
  {
    QuestionsOf(t, key, ChunksFrom(t, 1, 0))
  }

  /** The transcript: from the first `1\s*[（(]A[）)]` on, after a newline. */
  function Transcript(content: string): Option<string> {
    match Search(TranscriptStart, content, 0)
    case None => None
    case Some(m) => Some("\n" + content[m.start..])
  }

  /** The file a test is written to: `OUTPUT_DIR` is `assets/data` of the repository. */
  function ListeningFileName(testId: string): string {
    "assets/data/listening_test_" + testId + ".json"
  }

  /** The file a test is written to and what it holds; `None` when the transcript is not found
      and nothing is written. */
  function ListeningTestOf(testId: string, content: string): Option<(string, ListeningTest)> {
    match Transcript(content)
    case None => None
    case Some(t) =>
      Some((ListeningFileName(testId),
            ListeningTest("listening_test_" + testId, "Listening Test " + testId,
                          TranscriptQuestions(t, ListeningKey(content)))))
  }

  lemma QuestionsOfSnoc(t: string, key: AnswerKey, cs: seq<Chunk>, c: Chunk)
    requires ChunksIn(t, cs) && c.start <= c.end <= |t|
    ensures ChunksIn(t, cs + [c])
    ensures QuestionsOf(t, key, cs + [c]) == QuestionsOf(t, key, cs) + [ChunkQuestion(t, key, c)]
  {
    var all := cs + [c];
    assert all[..|cs|] == cs;
    assert forall i :: 0 <= i < |cs| ==> all[i] == cs[i];
  }

  /** The search for the start of question `qNum` from the cursor: question 1 starts just after
      the prepended newline; a later question just after the first "\n<qNum>" before a non-digit
      from the cursor on, and when there is none the search reports it. */
  method FindStart(t: string, qNum: nat, currentIndex: nat) returns (startOfQ: Option<nat>)
    requires 1 <= |t| && currentIndex <= |t|
    ensures startOfQ == ChunkStart(t, qNum, currentIndex)
    ensures qNum == 1 ==> startOfQ == Some(1)
    ensures qNum != 1 ==> match startOfQ
      case None => NoMatchIn(QuestionNumber(qNum), t, currentIndex, |t|)
      case Some(s) => currentIndex < s && MatchAt(QuestionNumber(qNum), t, s - 1).Some?
                      && NoMatchIn(QuestionNumber(qNum), t, currentIndex, s - 1)
  {
    if qNum == 1 {
      return Some(1);
    }
    var relativeMatch := Search(QuestionNumber(qNum), t, currentIndex);
    SearchLeftmost(QuestionNumber(qNum), t, currentIndex);
    if relativeMatch.None? {
      return None;
    }
    startOfQ := Some(relativeMatch.value.start + 1);
  }

  /** The search for the start of question `qNum + 1`, which ends question `qNum`: the first
      "\n<qNum + 1>" before a non-digit after the start, or the end of the transcript when there
      is none or the question is the hundredth. */
  method FindEnd(t: string, qNum: nat, startOfQ: nat) returns (endOfQ: nat)
    requires startOfQ <= |t|
    ensures endOfQ == ChunkEnd(t, qNum, startOfQ)
    ensures startOfQ <= endOfQ <= |t|
    ensures qNum == 100 ==> endOfQ == |t|
    ensures qNum != 100 ==>
      && (endOfQ == |t| || MatchAt(QuestionNumber(qNum + 1), t, endOfQ).Some?)
      && NoMatchIn(QuestionNumber(qNum + 1), t, startOfQ, endOfQ)
  {
    if qNum == 100 {
      return |t|;
    }
    var relativeMatch := Search(QuestionNumber(qNum + 1), t, startOfQ);
    SearchLeftmost(QuestionNumber(qNum + 1), t, startOfQ);
    endOfQ := if relativeMatch.None? then |t| else relativeMatch.value.start;
  }

  lemma ChunkStep(t: string, n: nat, cur: nat, chunks: seq<Chunk>, c: Chunk)
    requires 1 <= n <= 100 && 1 <= |t| && cur <= |t|
    requires ChunkStart(t, n, cur) == Some(c.start) && c.end == ChunkEnd(t, n, c.start) && c.number == n
    ensures chunks + [c] + ChunksFrom(t, n + 1, c.end) == chunks + ChunksFrom(t, n, cur)
  {
    assert ChunksFrom(t, n, cur) == [c] + ChunksFrom(t, n + 1, c.end);
  }

  /** The `for qNum` loop of `processTest`, with its `currentIndex` cursor. */
  method SplitTranscript(t: string, key: AnswerKey) returns (questions: seq<Question>)
    requires 1 <= |t|
    ensures questions == TranscriptQuestions(t, key)
  {
    questions := [];
    ghost var chunks: seq<Chunk> := [];
    var currentIndex: nat := 0;
    var qNum: nat := 1;
    while qNum <= 100
      invariant 1 <= qNum <= 101 && currentIndex <= |t|
      invariant ChunksIn(t, chunks)
      invariant chunks + ChunksFrom(t, qNum, currentIndex) == ChunksFrom(t, 1, 0)
      invariant questions == QuestionsOf(t, key, chunks)
      decreases 101 - qNum
    {
      var found := FindStart(t, qNum, currentIndex);
      if found.None? {
        assert chunks == ChunksFrom(t, 1, 0);
        break;
      }
      var startOfQ := found.value;
      var endOfQ := FindEnd(t, qNum, startOfQ);
      var c := Chunk(qNum, startOfQ, endOfQ);
      ChunkStep(t, qNum, currentIndex, chunks, c);
      var qChunk := t[startOfQ..endOfQ];
      currentIndex := endOfQ;
      var qData := ParseQuestionChunk(qChunk, qNum);
      QuestionsOfSnoc(t, key, chunks, c);
      questions := questions + [Question(NatStr(qNum), qData.question, qData.options, KeyAnswer(key, NatStr(qNum)), None, Some(qData.script))];
      chunks := chunks + [c];
      qNum := qNum + 1;
    }
    if qNum > 100 {
      assert ChunksFrom(t, qNum, currentIndex) == [];
      assert chunks + [] == chunks;
    }
  }

  /** `processTest`: the answer key by a global `exec` loop, then the transcript, if found, cut
      into questions. */
  method ProcessTest(testId: string, content: string) returns (r: Option<(string, ListeningTest)>)
    ensures r == ListeningTestOf(testId, content)
  {
    var answerKey: AnswerKey := map[];
    var pos: nat := 0;
    while true
      invariant pos <= |content|
      invariant RecordPairs(ListeningAnswerPair, answerKey, content, pos) == ListeningKey(content)
      decreases |content| - pos
    {
      var keyMatch := Search(ListeningAnswerPair, content, pos);
      if keyMatch.None? {
        break;
      }
      answerKey := answerKey[keyMatch.value.groups[0] := keyMatch.value.groups[1]];
      pos := keyMatch.value.end;
    }
    var transcriptStart := Search(TranscriptStart, content, 0);
    if transcriptStart.None? {
      return None;
    }
    var transcriptContent := "\n" + content[transcriptStart.value.start..];
    var questions := SplitTranscript(transcriptContent, answerKey);
    r := Some((ListeningFileName(testId),
               ListeningTest("listening_test_" + testId, "Listening Test " + testId, questions)));
  }

  // ---------------------------------------------------------------- properties of the chunks

  /** The chunks are numbered `n`, `n + 1`, … without a gap. */
  predicate NumberedFrom(cs: seq<Chunk>, n: nat) {
    forall i :: 0 <= i < |cs| ==> cs[i].number == n + i
  }

  /** Each chunk starts after the previous one ends. */
  predicate Ascending(cs: seq<Chunk>) {
    forall i :: 0 <= i < |cs| - 1 ==> cs[i].end < cs[i + 1].start
  }

  lemma OrderedCons(c: Chunk, rest: seq<Chunk>)
    requires NumberedFrom(rest, c.number + 1) && Ascending(rest)
    requires |rest| > 0 ==> c.end < rest[0].start
    ensures NumberedFrom([c] + rest, c.number) && Ascending([c] + rest)
  {
    var cs := [c] + rest;
    forall i | 1 <= i < |cs|
      ensures cs[i] == rest[i - 1]
    {
    }
  }

  /** The chunks are numbered 1, 2, … without a gap, at most up to 100, and each starts after the
      previous one ends (so starts strictly increase and chunks never overlap). */
  lemma {:induction false} ChunksOrdered(t: string, n: nat, cur: nat)
    requires 1 <= n <= 101 && 1 <= |t| && cur <= |t|
    ensures var cs := ChunksFrom(t, n, cur);
      && n + |cs| <= 101
      && NumberedFrom(cs, n)
      && Ascending(cs)
      && (|cs| > 0 && n != 1 ==> cur < cs[0].start)
    decreases 101 - n
  {
    if n <= 100 {
      var r := ChunkStart(t, n, cur);
      if r.Some? {
        var s := r.value;
        var e := ChunkEnd(t, n, s);
        ChunksOrdered(t, n + 1, e);
        var rest := ChunksFrom(t, n + 1, e);
        assert ChunksFrom(t, n, cur) == [Chunk(n, s, e)] + rest;
        OrderedCons(Chunk(n, s, e), rest);
      }
    }
  }

  /** What a match of "\n<n>" before a non-digit is made of. */
  lemma NumberLabelAt(t: string, i: nat, n: nat)
    requires MatchAt(QuestionNumber(n), t, i).Some?
    ensures i + 1 + |NatStr(n)| < |t| && t[i] == '\n' && t[i + 1..i + 1 + |NatStr(n)|] == NatStr(n)
  {
    var u := t[i..];
    assert QuestionNumberHere(u, n).Some?;
    assert u[1..1 + |NatStr(n)|] == t[i + 1..i + 1 + |NatStr(n)|];
  }

  /** Chunk `n` (from 2 on) starts just after the first "\n<n>" before a non-digit from the
      cursor on; when there is none, the loop stops. */
  lemma ChunkStartIsLabel(t: string, n: nat, cur: nat)
    requires 2 <= n && 1 <= |t| && cur <= |t|
    ensures match ChunkStart(t, n, cur)
      case None => NoMatchIn(QuestionNumber(n), t, cur, |t|)
      case Some(s) => MatchAt(QuestionNumber(n), t, s - 1).Some? && NoMatchIn(QuestionNumber(n), t, cur, s - 1)
  {
    var r := Search(QuestionNumber(n), t, cur);
    SearchLeftmost(QuestionNumber(n), t, cur);
    if r.Some? {
      assert ChunkStart(t, n, cur) == Some(r.value.start + 1);
    } else {
      assert ChunkStart(t, n, cur).None?;
    }
  }

  /** Chunk `n` ends at the first "\n<n+1>" before a non-digit after its start, or at the end of
      the transcript when there is none; chunk 100 always runs to the end. */
  lemma ChunkEndIsNextLabel(t: string, n: nat, s: nat)
    requires s <= |t|
    ensures var e := ChunkEnd(t, n, s);
      && (n == 100 ==> e == |t|)
      && (n != 100 ==>
            && (e == |t| || MatchAt(QuestionNumber(n + 1), t, e).Some?)
            && NoMatchIn(QuestionNumber(n + 1), t, s, e))
  {
    if n != 100 {
      var r := Search(QuestionNumber(n + 1), t, s);
      SearchLeftmost(QuestionNumber(n + 1), t, s);
      if r.Some? {
        assert ChunkEnd(t, n, s) == r.value.start;
      } else {
        assert ChunkEnd(t, n, s) == |t|;
      }
    }
  }

  /** No "\n<m>" starts inside a run of digits. */
  lemma NoLabelAmongDigits(t: string, s: nat, num: string, e: nat, m: nat)
    requires s <= e < s + |num| <= |t| && t[s..s + |num|] == num && AllDigits(num)
    ensures MatchAt(QuestionNumber(m), t, e).None?
  {
    if MatchAt(QuestionNumber(m), t, e).Some? {
      assert t[e] == num[e - s];
      NumberLabelAt(t, e, m);
      assert false;
    }
  }

  /** A chunk that starts with its number runs at least past it. */
  lemma ChunkEndAfterNumber(t: string, n: nat, s: nat)
    requires s + |NatStr(n)| <= |t| && t[s..s + |NatStr(n)|] == NatStr(n)
    ensures s + |NatStr(n)| <= ChunkEnd(t, n, s)
  {
    var e := ChunkEnd(t, n, s);
    var num := NatStr(n);
    ChunkEndIsNextLabel(t, n, s);
    assert e == |t| || MatchAt(QuestionNumber(n + 1), t, e).Some?;
    if e < s + |num| {
      NoLabelAmongDigits(t, s, num, e, n + 1);
      assert false;
    }
  }

  /** A chunk begins with its own number (the first with the "1" of the transcript start). */
  lemma ChunkOpensWithNumber(t: string, n: nat, cur: nat)
    requires 1 <= n && 2 <= |t| && t[1] == '1' && cur <= |t| && ChunkStart(t, n, cur).Some?
    ensures var s := ChunkStart(t, n, cur).value;
      StartsWith(t[s..ChunkEnd(t, n, s)], NatStr(n))
  {
    var s := ChunkStart(t, n, cur).value;
    var num := NatStr(n);
    if n == 1 {
      assert num == "1";
    } else {
      ChunkStartIsLabel(t, n, cur);
      NumberLabelAt(t, s - 1, n);
    }
    assert s + |num| <= |t| && t[s..s + |num|] == num;
    ChunkEndAfterNumber(t, n, s);
    var e := ChunkEnd(t, n, s);
    assert t[s..e][..|num|] == t[s..s + |num|];
  }

  /** Each chunk's text begins with the chunk's number. */
  predicate OpenWithNumbers(t: string, cs: seq<Chunk>) {
    forall i :: 0 <= i < |cs| ==>
      cs[i].start <= cs[i].end <= |t| && StartsWith(t[cs[i].start..cs[i].end], NatStr(cs[i].number))
  }

  lemma OpenWithNumbersCons(t: string, c: Chunk, rest: seq<Chunk>)
    requires c.start <= c.end <= |t| && StartsWith(t[c.start..c.end], NatStr(c.number))
    requires OpenWithNumbers(t, rest)
    ensures OpenWithNumbers(t, [c] + rest)
  {
    var cs := [c] + rest;
    forall i | 1 <= i < |cs|
      ensures cs[i] == rest[i - 1]
    {
    }
  }

  lemma {:induction false} ChunksOpenWithNumbers(t: string, n: nat, cur: nat)
    requires 1 <= n && 2 <= |t| && t[1] == '1' && cur <= |t|
    ensures OpenWithNumbers(t, ChunksFrom(t, n, cur))
    decreases 101 - n
  {
    if n <= 100 {
      var r := ChunkStart(t, n, cur);
      if r.Some? {
        var s := r.value;
        var e := ChunkEnd(t, n, s);
        ChunkOpensWithNumber(t, n, cur);
        ChunksOpenWithNumbers(t, n + 1, e);
        OpenWithNumbersCons(t, Chunk(n, s, e), ChunksFrom(t, n + 1, e));
      }
    }
  }

  lemma QuestionsOfLast(t: string, key: AnswerKey, cs: seq<Chunk>)
    requires ChunksIn(t, cs) && |cs| > 0
    ensures QuestionsOf(t, key, cs)[|cs| - 1] == ChunkQuestion(t, key, cs[|cs| - 1])
  {
  }

  lemma QuestionsOfPrefix(t: string, key: AnswerKey, cs: seq<Chunk>, i: nat)
    requires ChunksIn(t, cs) && i < |cs| - 1
    ensures ChunksIn(t, cs[..|cs| - 1])
    ensures QuestionsOf(t, key, cs)[i] == QuestionsOf(t, key, cs[..|cs| - 1])[i]
  {
    assert ChunksIn(t, cs[..|cs| - 1]);
  }

  /** `QuestionsOf` by index: the question of each chunk. */
  lemma {:induction false} QuestionsOfIndex(t: string, key: AnswerKey, cs: seq<Chunk>, i: nat)
    requires ChunksIn(t, cs) && i < |cs|
    ensures QuestionsOf(t, key, cs)[i] == ChunkQuestion(t, key, cs[i])
    decreases |cs|
  {
    if i < |cs| - 1 {
      var init := cs[..|cs| - 1];
      QuestionsOfPrefix(t, key, cs, i);
      QuestionsOfIndex(t, key, init, i);
      assert init[i] == cs[i];
    } else {
      QuestionsOfLast(t, key, cs);
    }
  }

  /** The question pushed for chunk `c`: id and answer by its number, no passage, as script the
      chunk without its leading number, trimmed, and no options or one per letter of its range. */
  predicate QuestionShaped(t: string, key: AnswerKey, c: Chunk, q: Question)
    requires c.start <= c.end <= |t| && StartsWith(t[c.start..c.end], NatStr(c.number))
  {
    var num := NatStr(c.number);
    && q.id == num
    && q.answer == KeyAnswer(key, num)
    && q.passage.None?
    && q.script == Some(Trim(t[c.start..c.end][|num|..]))
    && (|q.options| == 0 || |q.options| == |ChainLetters(c.number)|)
  }

  lemma ChunkQuestionShape(t: string, key: AnswerKey, c: Chunk)
    requires c.start <= c.end <= |t| && StartsWith(t[c.start..c.end], NatStr(c.number))
    ensures QuestionShaped(t, key, c, ChunkQuestion(t, key, c))
  {
    ChunkOptionCount(t[c.start..c.end], c.number);
  }

  /** The questions of a transcript that starts "\n1": one per chunk, at most 100, numbered
      "1", "2", … in order, each shaped by its chunk. */
  lemma TranscriptQuestionsShape(t: string, key: AnswerKey)
    requires 2 <= |t| && t[1] == '1'
    ensures var cs := ChunksFrom(t, 1, 0); var qs := TranscriptQuestions(t, key);
      && |qs| == |cs| <= 100
      && OpenWithNumbers(t, cs)
      && forall i :: 0 <= i < |qs| ==> cs[i].number == i + 1 && QuestionShaped(t, key, cs[i], qs[i])
  {
    var cs := ChunksFrom(t, 1, 0);
    var qs := TranscriptQuestions(t, key);
    ChunksOrdered(t, 1, 0);
    ChunksOpenWithNumbers(t, 1, 0);
    forall i | 0 <= i < |qs|
      ensures cs[i].number == i + 1 && QuestionShaped(t, key, cs[i], qs[i])
    {
      QuestionsOfIndex(t, key, cs, i);
      ChunkQuestionShape(t, key, cs[i]);
    }
  }

  /** A test is skipped, with no file, exactly when no `1\s*[（(]A[）)]` occurs in it. */
  lemma NoTranscriptNoFile(testId: string, content: string)
    ensures ListeningTestOf(testId, content).None? <==> NoMatchIn(TranscriptStart, content, 0, |content|)
  {
    SearchLeftmost(TranscriptStart, content, 0);
  }

  /** The transcript starts with the prepended newline and the "1" of the first question. */
  lemma TranscriptOpensWithOne(content: string)
    requires Transcript(content).Some?
    ensures var t := Transcript(content).value; 2 <= |t| && t[0] == '\n' && t[1] == '1'
  {
    var m := Search(TranscriptStart, content, 0).value;
    SearchLeftmost(TranscriptStart, content, 0);
    assert TranscriptStartHere(content[m.start..]).Some?;
  }

  // ---------------------------------------------------------------- convertPdfToData

  /** The answer-book content: the part after the last "答案册" (the whole text without one). */
  function AnswerBookContent(fullText: string): string {
    Last(Split(fullText, "答案册"))
  }

  /** The answer-book content is a suffix of the text holding no "答案册", and the whole text
      when the marker is absent. */
  lemma AnswerBookIsLastPart(fullText: string)
    ensures var c := AnswerBookContent(fullText);
      && |c| <= |fullText| && c == fullText[|fullText| - |c|..]
      && !Contains(c, "答案册")
      && (!Contains(fullText, "答案册") ==> c == fullText)
  {
    SplitLastIsSuffix(fullText, "答案册");
    SplitPartsLackSeparator(fullText, "答案册");
    if !Contains(fullText, "答案册") {
      SplitAbsent(fullText, "答案册");
    }
  }

  /** The `{id, index}` records of the `Test\s+(\d+)` matches, in order. */
  function TestIndices(content: string): (ix: seq<(string, nat)>)
    ensures forall k :: 0 <= k < |ix| ==> ix[k].1 < |content|
    ensures forall k :: 0 <= k < |ix| - 1 ==> ix[k].1 < ix[k + 1].1
  {
    var ms := AllMatches(ListeningTestHeader, content, 0);
    seq(|ms|, k requires 0 <= k < |ms| => (ms[k].groups[0], ms[k].start))
  }

  /** Where test `k` stops: the next test's index, or the end of the content. */
  function SpanEnd(content: string, ix: seq<(string, nat)>, k: nat): nat
    requires k < |ix|
  {
    if k + 1 < |ix| then ix[k + 1].1 else |content|
  }

  /** Each test's id and content. */
  function TestSpans(content: string): (spans: seq<(string, string)>)
    ensures |spans| == |TestIndices(content)|
  {
    var ix := TestIndices(content);
    seq(|ix|, k requires 0 <= k < |ix| => (ix[k].0, content[ix[k].1..SpanEnd(content, ix, k)]))
  }

  /** The files written for the tests, in order; a test without a transcript writes none. */
  function WrittenTests(spans: seq<(string, string)>): (files: seq<(string, ListeningTest)>)
    ensures |files| <= |spans|
  {
    if |spans| == 0 then []
    else
      var last := spans[|spans| - 1];
      var files := WrittenTests(spans[..|spans| - 1]);
      match ListeningTestOf(last.0, last.1)
      case None => files
      case Some(f) => files + [f]
  }

  /** What `convertPdfToData` writes for the text of the PDF. */
  function ListeningOutput(fullText: string): seq<(string, ListeningTest)> {
    WrittenTests(TestSpans(AnswerBookContent(fullText)))
  }

  /** The `exec` loop that collects the test indices. */
  method FindTests(answerBookContent: string) returns (testIndices: seq<(string, nat)>)
    ensures testIndices == TestIndices(answerBookContent)
  {
    testIndices := [];
    ghost var done: seq<Match> := [];
    var pos: nat := 0;
    while true
      invariant pos <= |answerBookContent|
      invariant done + AllMatches(ListeningTestHeader, answerBookContent, pos) == AllMatches(ListeningTestHeader, answerBookContent, 0)
      invariant |testIndices| == |done|
      invariant forall k :: 0 <= k < |done| ==> |done[k].groups| == 1 && testIndices[k] == (done[k].groups[0], done[k].start)
      decreases |answerBookContent| - pos
    {
      var match_ := Search(ListeningTestHeader, answerBookContent, pos);
      if match_.None? {
        assert done + [] == done;
        break;
      }
      var m := match_.value;
      assert AllMatches(ListeningTestHeader, answerBookContent, pos) == [m] + AllMatches(ListeningTestHeader, answerBookContent, m.end);
      assert done + [m] + AllMatches(ListeningTestHeader, answerBookContent, m.end) == done + ([m] + AllMatches(ListeningTestHeader, answerBookContent, m.end));
      testIndices := testIndices + [(m.groups[0], m.start)];
      done := done + [m];
      pos := m.end;
    }
  }

  lemma WrittenTestsStep(spans: seq<(string, string)>, i: nat, r: Option<(string, ListeningTest)>)
    requires i < |spans| && r == ListeningTestOf(spans[i].0, spans[i].1)
    ensures WrittenTests(spans[..i + 1]) == WrittenTests(spans[..i]) + if r.Some? then [r.value] else []
  {
    assert spans[..i + 1][..i] == spans[..i];
  }

  /** The `for` loop over the tests: process each test's content and keep the files written. */
  method WriteTests(answerBookContent: string, testIndices: seq<(string, nat)>) returns (files: seq<(string, ListeningTest)>)
    requires testIndices == TestIndices(answerBookContent)
    ensures files == WrittenTests(TestSpans(answerBookContent))
  {
    ghost var spans := TestSpans(answerBookContent);
    files := [];
    for i := 0 to |testIndices|
      invariant files == WrittenTests(spans[..i])
    {
      var start := testIndices[i].1;
      var end := if i + 1 < |testIndices| then testIndices[i + 1].1 else |answerBookContent|;
      var testContent := answerBookContent[start..end];
      var testId := testIndices[i].0;
      assert spans[i] == (testId, testContent);
      var r := ProcessTest(testId, testContent);
      WrittenTestsStep(spans, i, r);
      if r.Some? {
        files := files + [r.value];
      }
    }
    assert spans[..|testIndices|] == spans;
  }

  /** `convertPdfToData`, with the files it writes returned instead. */
  method ConvertPdfToData(fullText: string) returns (files: seq<(string, ListeningTest)>)
    ensures files == ListeningOutput(fullText)
  {
    var parts := Split(fullText, "答案册");
    var answerBookContent := parts[|parts| - 1];
    if |parts| > 2 {
      answerBookContent := parts[|parts| - 1];
    }
    var testIndices := FindTests(answerBookContent);
    files := WriteTests(answerBookContent, testIndices);
  }

  // ---------------------------------------------------------------- properties of the test split

  function JoinSpans(spans: seq<(string, string)>): string {
    if |spans| == 0 then "" else spans[0].1 + JoinSpans(spans[1..])
  }

  /** Spans cut at increasing indices, each running to the next index or the end, put back
      together give the content from the first index on. */
  lemma {:induction false} JoinCuts(content: string, ix: seq<(string, nat)>, spans: seq<(string, string)>, k: nat)
    requires |spans| == |ix| && k < |ix|
    requires forall j :: 0 <= j < |ix| ==> ix[j].1 <= |content|
    requires forall j :: 0 <= j < |ix| - 1 ==> ix[j].1 <= ix[j + 1].1
    requires forall j :: 0 <= j < |ix| ==> spans[j].1 == content[ix[j].1..SpanEnd(content, ix, j)]
    ensures JoinSpans(spans[k..]) == content[ix[k].1..]
    decreases |ix| - k
  {
    var here := content[ix[k].1..SpanEnd(content, ix, k)];
    assert spans[k..][0] == spans[k];
    assert JoinSpans(spans[k..]) == here + JoinSpans(spans[k..][1..]);
    if k + 1 < |ix| {
      JoinCuts(content, ix, spans, k + 1);
      assert spans[k..][1..] == spans[k + 1..];
      assert here + content[ix[k + 1].1..] == content[ix[k].1..];
    } else {
      assert spans[k..][1..] == [];
      assert here == content[ix[k].1..];
    }
  }

  /** The tests tile the content from the first "Test" on: put back together they give it
      whole, each running from its header to the next header. */
  lemma SpansTile(content: string)
    requires |TestIndices(content)| > 0
    ensures JoinSpans(TestSpans(content)) == content[TestIndices(content)[0].1..]
  {
    var ix := TestIndices(content);
    var spans := TestSpans(content);
    assert spans[0..] == spans;
    JoinCuts(content, ix, spans, 0);
  }

  /** A `Test\s+(\d+)` match starts with "Test" and runs past it; its group is a digit run. */
  lemma TestHeaderAt(s: string, m: Match)
    requires MatchAt(ListeningTestHeader, s, m.start) == Some(m)
    ensures m.start + 4 < m.end <= |s| && s[m.start..m.start + 4] == "Test"
    ensures |m.groups[0]| > 0 && AllDigits(m.groups[0])
  {
    var u := s[m.start..];
    var h := TestNumberHere(u, false).value;
    assert u[..4] == s[m.start..m.start + 4];
    assert SkipSpaces(u, 4) > 4;
  }

  /** Each test starts with its header "Test" and is named by the header's digits. */
  lemma SpanOpensWithHeader(content: string, k: nat)
    requires k < |TestSpans(content)|
    ensures var span := TestSpans(content)[k];
      && StartsWith(span.1, "Test")
      && |span.0| > 0 && AllDigits(span.0)
  {
    var ms := AllMatches(ListeningTestHeader, content, 0);
    var ix := TestIndices(content);
    AllMatchesMatch(ListeningTestHeader, content, 0, k);
    var m := ms[k];
    TestHeaderAt(content, m);
    assert ix[k] == (m.groups[0], m.start);
    var e := SpanEnd(content, ix, k);
    if k + 1 < |ix| {
      assert ix[k + 1].1 == ms[k + 1].start;
    }
    assert m.start + 4 <= e;
    var span := content[m.start..e];
    assert TestSpans(content)[k] == (m.groups[0], span);
    assert span[..4] == content[m.start..m.start + 4];
  }
}
