/** The reading conversion (scripts/convert_data.js, `convertPdf` and `cleanData`): the PDF text
    is split at the answer book's title, the questions and the answers are parsed, every test's
    questions get their answers, passages that the text extraction left at the end of a last
    option are cut off and attached to the questions they cover, and one file per test is
    written. */
module ReadingConvert {
  import opened Wrappers
  import opened Text
  import opened Scan
  import opened Tables
  import opened Questions
  import opened AnswerKeys
  import opened ReadingAnswers
  import opened ReadingQuestions

  // ---------------------------------------------------------------- passages

  /** What the passage regular expression finds in a last option: the option text before the
      header, the passage (header, a line break and the trimmed rest) and the covered range,
      as `parseInt` reads its two numbers. */
  datatype PassageCut = PassageCut(option: string, passage: string, first: Option<int>, last: Option<int>)

  function CutPassage(option: string): Option<PassageCut> {
    match Search(PassageHeader, option, 0)
    case None => None
    case Some(m) =>
      Some(PassageCut(Trim(option[..m.start]), m.groups[0] + "\n" + Trim(option[m.end..]),
                      ParseInt(m.groups[1]), ParseInt(m.groups[2])))
  }

  /** The cut of a question's last option, if it has options and the header is found there. */
  function QuestionCut(q: Question): Option<PassageCut> {
    if |q.options| == 0 then None else CutPassage(q.options[|q.options| - 1])
  }

  /** The question with its last option replaced by the text before the header. */
  function CutQuestion(q: Question): Question {
    match QuestionCut(q)
    case None => q
    case Some(c) => q.(options := q.options[|q.options| - 1 := c.option])
  }

  /** The question numbers a cut covers: the `for` loop from the first number to the last, which
      runs no step when a number is NaN. */
  predicate Covers(c: Option<PassageCut>, id: int) {
    c.Some? && c.value.first.Some? && c.value.last.Some? && c.value.first.value <= id <= c.value.last.value
  }

  /** One passage under every number from `first` to `last`. */
  function RangeMap(first: int, last: int, passage: string): (r: map<int, string>)
    ensures forall id :: id in r <==> first <= id <= last
    ensures forall id :: id in r ==> r[id] == passage
    decreases last - first
  {
    if last < first then map[] else RangeMap(first, last - 1, passage)[last := passage]
  }

  /** The entries one cut writes into the context map. */
  function CutMap(c: Option<PassageCut>): (r: map<int, string>)
    ensures forall id :: id in r <==> Covers(c, id)
    ensures forall id :: id in r ==> c.Some? && r[id] == c.value.passage
  {
    if c.Some? && c.value.first.Some? && c.value.last.Some? then
      RangeMap(c.value.first.value, c.value.last.value, c.value.passage)
    else map[]
  }

  /** The cut of every question, in order. */
  function CutsOf(qs: seq<Question>): (r: seq<Option<PassageCut>>)
    ensures |r| == |qs|
  {
    seq(|qs|, i requires 0 <= i < |qs| => QuestionCut(qs[i]))
  }

  /** The context map after the cuts, in order (a later passage overwrites an earlier one). */
  function ContextOf(cuts: seq<Option<PassageCut>>): map<int, string> {
    if |cuts| == 0 then map[] else ContextOf(cuts[..|cuts| - 1]) + CutMap(cuts[|cuts| - 1])
  }

  /** The passage attached to a question: the context entry of `parseInt` of its id, if any. */
  function Attach(q: Question, ctx: map<int, string>): Question {
    match ParseInt(q.id)
    case Some(n) => if n in ctx && ctx[n] != "" then q.(passage := Some(ctx[n])) else q
    case None => q
  }

  /** Every question with its last option cut. */
  function CutAll(qs: seq<Question>): (r: seq<Question>)
    ensures |r| == |qs|
  {
    seq(|qs|, i requires 0 <= i < |qs| => CutQuestion(qs[i]))
  }

  /** Every question with its passage attached. */
  function AttachAll(qs: seq<Question>, ctx: map<int, string>): (r: seq<Question>)
    ensures |r| == |qs|
  {
    seq(|qs|, i requires 0 <= i < |qs| => Attach(qs[i], ctx))
  }

  /** What `cleanData` returns. */
  function Clean(qs: seq<Question>): seq<Question> {
    AttachAll(CutAll(qs), ContextOf(CutsOf(qs)))
  }

  /** The `for` loop that writes one passage under every number of its range. */
  method AssignRange(contextMap: map<int, string>, startId: int, endId: int, fullPassage: string)
    returns (result: map<int, string>)
    ensures result == contextMap + RangeMap(startId, endId, fullPassage)
  {
    result := contextMap;
    var id := startId;
    while id <= endId
      invariant id <= endId + 1 || id == startId
      invariant result == contextMap + RangeMap(startId, id - 1, fullPassage)
      decreases endId - id
    {
      result := result[id := fullPassage];
      id := id + 1;
    }
  }

  lemma ContextStep(qs: seq<Question>, i: nat)
    requires i < |qs|
    ensures ContextOf(CutsOf(qs[..i + 1])) == ContextOf(CutsOf(qs[..i])) + CutMap(QuestionCut(qs[i]))
  {
    var cuts := CutsOf(qs[..i + 1]);
    assert cuts[..i] == CutsOf(qs[..i]);
    assert cuts[i] == QuestionCut(qs[i]);
  }

  /** The passage regular expression applied to one option, with what `cleanData` takes from the
      match: nothing when no passage header occurs in the option; otherwise an option text that
      is trimmed and holds no passage header any more. */
  method FindPassage(lastOption: string) returns (c: Option<PassageCut>)
    ensures c == CutPassage(lastOption)
    ensures c.None? <==> NoMatchIn(PassageHeader, lastOption, 0, |lastOption|)
    ensures c.Some? ==> IsTrimmed(c.value.option) && CutPassage(c.value.option).None?
  {
    var found := Search(PassageHeader, lastOption, 0);
    SearchLeftmost(PassageHeader, lastOption, 0);
    if found.None? {
      return None;
    }
    CutOptionHasNoHeader(lastOption);
    var m := found.value;
    var realOptionContent := Trim(lastOption[..m.start]);
    var passageHeader := m.groups[0];
    var passageContent := Trim(lastOption[m.end..]);
    var fullPassage := passageHeader + "\n" + passageContent;
    c := Some(PassageCut(realOptionContent, fullPassage, ParseInt(m.groups[1]), ParseInt(m.groups[2])));
  }

  /** One pass of `cleanData`'s first loop: a question without options is skipped; otherwise, when
      the passage header is found in its last option, the option is cut and the passage written
      under every number of its range. */
  method CleanOne(q: Question, contextMap: map<int, string>) returns (cut: Question, next: map<int, string>)
    ensures cut == CutQuestion(q)
    ensures next == contextMap + CutMap(QuestionCut(q))
  {
    cut, next := q, contextMap;
    if |q.options| == 0 {
      return;
    }
    var lastOptionIdx := |q.options| - 1;
    var found := FindPassage(q.options[lastOptionIdx]);
    assert found == QuestionCut(q);
    if found.Some? {
      var c := found.value;
      cut := q.(options := q.options[lastOptionIdx := c.option]);
      if c.first.Some? && c.last.Some? {
        next := AssignRange(contextMap, c.first.value, c.last.value, c.passage);
        assert CutMap(found) == RangeMap(c.first.value, c.last.value, c.passage);
      } else {
        assert CutMap(found) == map[];
      }
    }
  }

  /** `cleanData`'s first loop: cut the last options in place and fill the context map. */
  method CutQuestions(questions: seq<Question>) returns (qs: seq<Question>, contextMap: map<int, string>)
    ensures qs == CutAll(questions)
    ensures contextMap == ContextOf(CutsOf(questions))
  {
    qs := questions;
    contextMap := map[];
    for i := 0 to |qs|
      invariant |qs| == |questions|
      invariant forall j :: 0 <= j < i ==> qs[j] == CutQuestion(questions[j])
      invariant forall j :: i <= j < |qs| ==> qs[j] == questions[j]
      invariant contextMap == ContextOf(CutsOf(questions[..i]))
    {
      ContextStep(questions, i);
      var cut;
      cut, contextMap := CleanOne(qs[i], contextMap);
      qs := qs[i := cut];
    }
    assert questions[..|qs|] == questions;
  }

  /** `cleanData`'s final `map`: attach to each question the passage under its number. */
  method AttachPassages(qs: seq<Question>, contextMap: map<int, string>) returns (result: seq<Question>)
    ensures result == AttachAll(qs, contextMap)
  {
    result := [];
    for i := 0 to |qs|
      invariant |result| == i
      invariant forall j :: 0 <= j < i ==> result[j] == Attach(qs[j], contextMap)
    {
      result := result + [Attach(qs[i], contextMap)];
    }
  }

  /** `cleanData`: a loop cutting the last options and filling the context map, then a `map`
      attaching the passages. */
  method CleanData(questions: seq<Question>) returns (result: seq<Question>)
    ensures result == Clean(questions)
  {
    var qs, contextMap := CutQuestions(questions);
    result := AttachPassages(qs, contextMap);
  }

  // ---------------------------------------------------------------- properties of `cleanData`

  /** The index of the last cut that covers `id`, if any. */
  function LastCover(cuts: seq<Option<PassageCut>>, id: int): (r: Option<nat>)
    ensures r.Some? ==>
      r.value < |cuts| && Covers(cuts[r.value], id) && forall j :: r.value < j < |cuts| ==> !Covers(cuts[j], id)
    ensures r.None? ==> forall j :: 0 <= j < |cuts| ==> !Covers(cuts[j], id)
  {
    if |cuts| == 0 then None
    else if Covers(cuts[|cuts| - 1], id) then Some(|cuts| - 1)
    else
      var init := cuts[..|cuts| - 1];
      assert forall j :: 0 <= j < |init| ==> init[j] == cuts[j];
      LastCover(init, id)
  }

  /** Number `id` reads, in the context map, as the passage of the last cut covering it, and is
      absent when no cut covers it. */
  lemma {:induction false} ContextLastWins(cuts: seq<Option<PassageCut>>, id: int)
    ensures id in ContextOf(cuts) <==> LastCover(cuts, id).Some?
    ensures id in ContextOf(cuts) ==> ContextOf(cuts)[id] == cuts[LastCover(cuts, id).value].value.passage
  {
    if |cuts| > 0 {
      var init := cuts[..|cuts| - 1];
      ContextLastWins(init, id);
      if !Covers(cuts[|cuts| - 1], id) {
        var r := LastCover(init, id);
        if r.Some? {
          assert init[r.value] == cuts[r.value];
        }
      }
    }
  }

  /** `cleanData` keeps the questions, their order and everything but the last option and the
      passage; the passage of a question is that of the last question whose range covers its
      number, or stays as it was when none does. */
  lemma CleanAttachesPassages(qs: seq<Question>, i: nat)
    requires i < |qs|
    ensures var r := Clean(qs)[i]; var q := qs[i]; var cuts := CutsOf(qs);
      && |Clean(qs)| == |qs|
      && r.id == q.id && r.question == q.question && r.answer == q.answer && r.script == q.script
      && r.options == CutQuestion(q).options
      && r.passage == match ParseInt(q.id)
           case Some(n) =>
             if LastCover(cuts, n).Some? then Some(cuts[LastCover(cuts, n).value].value.passage)
             else q.passage
           case None => q.passage
  {
    var cuts := CutsOf(qs);
    var c := CutQuestion(qs[i]);
    assert CutAll(qs)[i] == c;
    assert Clean(qs)[i] == Attach(c, ContextOf(cuts));
    assert c == qs[i].(options := c.options);
    match ParseInt(qs[i].id)
    case Some(n) => ContextLastWins(cuts, n);
    case None =>
  }

  /** Cutting leaves the options as they were, but for the last, which loses the passage header
      and what follows it; nothing is cut without a header. */
  lemma CutKeepsOtherOptions(q: Question)
    ensures var c := CutQuestion(q);
      && |c.options| == |q.options|
      && (forall k :: 0 <= k < |q.options| - 1 ==> c.options[k] == q.options[k])
      && (QuestionCut(q).None? ==> c == q)
  {
  }

  /** The text before the first passage header, trimmed, holds no passage header. */
  lemma TrimmedPrefixHasNoHeader(option: string, m: Match)
    requires Search(PassageHeader, option, 0) == Some(m)
    ensures Search(PassageHeader, Trim(option[..m.start]), 0).None?
  {
    SearchLeftmost(PassageHeader, option, 0);
    var x := option[..m.start];
    var a, b := TrimStart(x), TrimEnd(x);
    assert Trim(x) == option[a..b];
    NoPassageHeaderInSlice(option, a, b, m.start);
  }

  /** The option left after a cut holds no passage header. */
  lemma CutOptionHasNoHeader(option: string)
    requires CutPassage(option).Some?
    ensures CutPassage(CutPassage(option).value.option).None?
  {
    TrimmedPrefixHasNoHeader(option, Search(PassageHeader, option, 0).value);
  }

  /** A cut question has no passage header left in its last option. */
  lemma CutQuestionHasNoCut(q: Question)
    ensures QuestionCut(CutQuestion(q)).None?
  {
    if QuestionCut(q).Some? {
      CutOptionHasNoHeader(q.options[|q.options| - 1]);
    }
  }

  lemma {:induction false} ContextEmptyWithoutCuts(cuts: seq<Option<PassageCut>>)
    requires forall i :: 0 <= i < |cuts| ==> cuts[i].None?
    ensures ContextOf(cuts) == map[]
  {
    if |cuts| > 0 {
      ContextEmptyWithoutCuts(cuts[..|cuts| - 1]);
    }
  }

  /** Cleaning is idempotent: a second pass finds no header and changes nothing. */
  lemma CleanIdempotent(qs: seq<Question>)
    ensures Clean(Clean(qs)) == Clean(qs)
  {
    var once := Clean(qs);
    forall i | 0 <= i < |once|
      ensures QuestionCut(once[i]).None?
    {
      CleanAttachesPassages(qs, i);
      CutQuestionHasNoCut(qs[i]);
      assert QuestionCut(once[i]) == QuestionCut(CutQuestion(qs[i]));
    }
    ContextEmptyWithoutCuts(CutsOf(once));
    forall i | 0 <= i < |once|
      ensures Clean(once)[i] == once[i]
    {
      assert CutQuestion(once[i]) == once[i];
    }
  }

  // ---------------------------------------------------------------- merging and files

  /** `testAnswers[q.id] || null`. */
  function MergeAnswer(q: Question, key: AnswerKey): Question {
    q.(answer := KeyAnswer(key, q.id))
  }

  /** `answers[testId] || {}`. */
  function TestAnswers(answers: AnswerBook, testId: string): AnswerKey {
    if testId in answers then answers[testId] else map[]
  }

  function MergeAll(qs: seq<Question>, key: AnswerKey): (r: seq<Question>) {
    seq(|qs|, i requires 0 <= i < |qs| => MergeAnswer(qs[i], key))
  }

  /** The file a test is written to. */
  function ReadingFileName(testId: string): string {
    "assets/data/reading_" + ReplaceFirst(ToLowerAscii(testId), ' ', '_') + ".json"
  }

  /** The outcome of the conversion: too few parts to go on, or the files written, in order. */
  datatype ConvertResult = TooFewParts(count: nat) | Written(files: seq<(string, seq<Question>)>)

  /** The file written for one entry of the question table. */
  function TestFile(answers: AnswerBook, entry: (string, seq<Question>)): (string, seq<Question>) {
    (ReadingFileName(entry.0), Clean(MergeAll(entry.1, TestAnswers(answers, entry.0))))
  }

  /** The files written for the question table, in its order. */
  function TestFiles(answers: AnswerBook, tests: Table<seq<Question>>): (r: seq<(string, seq<Question>)>)
    ensures |r| == |tests|
  {
    seq(|tests|, k requires 0 <= k < |tests| => TestFile(answers, tests[k]))
  }

  /** What `convertPdf` does with the text of the PDF. */
  function ReadingOutput(fullText: string): ConvertResult {
    var parts := Split(fullText, "答案册");
    if |parts| < 3 then TooFewParts(|parts|)
    else Written(TestFiles(AnswerBookOf(parts[2]), QuestionTable(parts[1])))
  }

  /** The loop of `convertPdf` over the question table: merge, clean and write each test. */
  method WriteTests(answers: AnswerBook, tests: Table<seq<Question>>) returns (files: seq<(string, seq<Question>)>)
    ensures files == TestFiles(answers, tests)
  {
    files := [];
    for k := 0 to |tests|
      invariant |files| == k
      invariant forall j :: 0 <= j < k ==> files[j] == TestFile(answers, tests[j])
    {
      var (testId, questions) := tests[k];
      var testAnswers := TestAnswers(answers, testId);
      var mergedQuestions := MergeAll(questions, testAnswers);
      var cleanedQuestions := CleanData(mergedQuestions);
      files := files + [(ReadingFileName(testId), cleanedQuestions)];
    }
  }

  /** `convertPdf`, with the files it writes returned instead. */
  method ConvertPdf(fullText: string) returns (r: ConvertResult)
    ensures r == ReadingOutput(fullText)
  {
    var parts := Split(fullText, "答案册");
    if |parts| < 3 {
      return TooFewParts(|parts|);
    }
    var questionSection := parts[1];
    var answerSection := parts[2];
    var answers := ParseAnswers(answerSection);
    var tests := ParseQuestions(questionSection);
    var files := WriteTests(answers, tests);
    r := Written(files);
  }

  // ---------------------------------------------------------------- properties of `convertPdf`

  /** Without the answer book's title there is a single part and nothing is written. */
  lemma NoAnswerBookNothingWritten(fullText: string)
    requires !Contains(fullText, "答案册")
    ensures ReadingOutput(fullText) == TooFewParts(1)
  {
    SplitAbsent(fullText, "答案册");
  }

  /** One file per test of the question part, in the table's order, each holding that test's
      questions in order with the answer of the same number from the test of the same name in
      the answer part. */
  lemma FilesFollowTests(fullText: string)
    requires ReadingOutput(fullText).Written?
    ensures var parts := Split(fullText, "答案册");
      var tests := QuestionTable(parts[1]);
      var files := ReadingOutput(fullText).files;
      && |files| == |tests|
      && forall k :: 0 <= k < |tests| ==>
        && files[k].0 == ReadingFileName(tests[k].0)
        && |files[k].1| == |tests[k].1|
        && forall i :: 0 <= i < |tests[k].1| ==>
          && files[k].1[i].id == tests[k].1[i].id
          && files[k].1[i].answer == MergeAnswer(tests[k].1[i], TestAnswers(AnswerBookOf(parts[2]), tests[k].0)).answer
  {
    var parts := Split(fullText, "答案册");
    var tests := QuestionTable(parts[1]);
    var answers := AnswerBookOf(parts[2]);
    forall k, i | 0 <= k < |tests| && 0 <= i < |tests[k].1|
      ensures ReadingOutput(fullText).files[k].1[i].id == tests[k].1[i].id
      ensures ReadingOutput(fullText).files[k].1[i].answer
           == MergeAnswer(tests[k].1[i], TestAnswers(answers, tests[k].0)).answer
    {
      CleanAttachesPassages(MergeAll(tests[k].1, TestAnswers(answers, tests[k].0)), i);
    }
  }

  /** Only the first `c` is replaced. */
  lemma {:induction false} ReplaceFirstAt(p: string, rest: string, c: char, d: char)
    requires forall k :: 0 <= k < |p| ==> p[k] != c
    ensures ReplaceFirst(p + [c] + rest, c, d) == p + [d] + rest
  {
    if |p| == 0 {
      assert p + [c] + rest == [c] + rest;
    } else {
      assert (p + [c] + rest)[1..] == p[1..] + [c] + rest;
      ReplaceFirstAt(p[1..], rest, c, d);
      assert p + [d] + rest == [p[0]] + (p[1..] + [d] + rest);
    }
  }

  lemma LowerTestName(digits: string)
    requires AllDigits(digits)
    ensures ToLowerAscii("Test " + digits) == "test " + digits
  {
    var name := "Test " + digits;
    forall k | 0 <= k < |name|
      ensures LowerChar(name[k]) == ("test " + digits)[k]
    {
      if k >= 5 {
        assert name[k] == digits[k - 5] == ("test " + digits)[k];
      }
    }
  }

  /** A test named "Test <digits>" is written to "assets/data/reading_test_<digits>.json". */
  lemma FileNameOfTest(digits: string)
    requires AllDigits(digits)
    ensures ReadingFileName("Test " + digits) == "assets/data/reading_test_" + digits + ".json"
  {
    LowerTestName(digits);
    assert "test " + digits == "test" + [' '] + digits;
    ReplaceFirstAt("test", digits, ' ', '_');
    assert "test" + ['_'] + digits == "test_" + digits;
  }
}
