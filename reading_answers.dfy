/** The answer book of the reading exam (scripts/convert_data.js, `parseAnswers`): read line by
    line; a line that starts with "Test <digits>" opens that test's key afresh, and every
    "<digits>. (<A-D>)" pair on a later line is stored under the open test. */
module ReadingAnswers {
  import opened Wrappers
  import opened Text
  import opened Scan
  import opened AnswerKeys

  /** Answer keys by test name ("Test 01"). */
  type AnswerBook = map<string, AnswerKey>

  /** The loop's state: the open test, if any, and the keys so far. */
  datatype State = State(current: Option<string>, tests: AnswerBook)

  predicate Consistent(st: State) {
    st.current.Some? ==> st.current.value in st.tests
  }

  /** A line of the answer book, trimmed: either a test header, `/^Test\s+(\d+)/i`, with the
      name it opens ("Test <digits>"), or any other line. */
  datatype Line = Header(name: string) | Other(text: string)

  function Classify(line: string): Line {
    var trimmed := Trim(line);
    match TestNumberHere(trimmed, true)
    case Some(h) => Header("Test " + h.groups[0])
    case None => Other(trimmed)
  }

  function ClassifyAll(lines: seq<string>): (r: seq<Line>)
    ensures |r| == |lines| && forall k :: 0 <= k < |lines| ==> r[k] == Classify(lines[k])
  {
    seq(|lines|, k requires 0 <= k < |lines| => Classify(lines[k]))
  }

  /** One pass of the loop over a line: a header opens its test with an empty key and is not
      scanned; another line is ignored while no test is open, and otherwise its pairs are stored
      under the open test. */
  function Step(st: State, line: Line): (r: State)
    requires Consistent(st)
    ensures Consistent(r)
  {
    match line
    case Header(name) => State(Some(name), st.tests[name := map[]])
    case Other(text) =>
      match st.current
      case None => st
      case Some(test) => State(st.current, st.tests[test := RecordPairs(ReadingAnswerPair, st.tests[test], text, 0)])
  }

  /** The state after the given lines. */
  function ReadLines(lines: seq<Line>): (r: State)
    ensures Consistent(r)
  {
    if |lines| == 0 then State(None, map[])
    else Step(ReadLines(lines[..|lines| - 1]), lines[|lines| - 1])
  }

  /** The answer book of a text. */
  function AnswerBookOf(text: string): AnswerBook {
    ReadLines(ClassifyAll(Split(text, "\n"))).tests
  }

  /** `parseAnswers`: a loop over the lines with an inner `exec` loop over each line's pairs. */
  method ParseAnswers(text: string) returns (tests: AnswerBook)
    ensures tests == AnswerBookOf(text)
  {
    var lines := Split(text, "\n");
    ghost var classified := ClassifyAll(lines);
    var current: Option<string> := None;
    tests := map[];
    for n := 0 to |lines|
      invariant State(current, tests) == ReadLines(classified[..n])
    {
      assert classified[..n + 1][..n] == classified[..n];
      var trimmed := Trim(lines[n]);
      var header := TestNumberHere(trimmed, true);
      if header.Some? {
        current := Some("Test " + header.value.groups[0]);
        tests := tests[current.value := map[]];
        continue;
      }
      if current.None? {
        continue;
      }
      // the open test's key object, filled in place
      var test := current.value;
      var key := tests[test];
      var pos: nat := 0;
      while true
        invariant pos <= |trimmed|
        invariant RecordPairs(ReadingAnswerPair, key, trimmed, pos)
               == RecordPairs(ReadingAnswerPair, tests[test], trimmed, 0)
        decreases |trimmed| - pos
      {
        var m := Search(ReadingAnswerPair, trimmed, pos);
        if m.None? {
          break;
        }
        key := key[m.value.groups[0] := m.value.groups[1]];
        pos := m.value.end;
      }
      tests := tests[test := key];
    }
    assert classified[..|lines|] == classified;
  }

  // ---------------------------------------------------------------- properties

  /** Lines before the first header are ignored: no test is opened and nothing is stored. */
  lemma {:induction false} PreambleIgnored(lines: seq<Line>)
    requires forall k :: 0 <= k < |lines| ==> lines[k].Other?
    ensures ReadLines(lines) == State(None, map[])
  {
    if |lines| > 0 {
      PreambleIgnored(lines[..|lines| - 1]);
    }
  }

  /** The key a block of lines that are not headers builds, starting from an empty key. */
  function BlockKey(body: seq<Line>): AnswerKey {
    if |body| == 0 then map[]
    else
      var last := body[|body| - 1];
      var key := BlockKey(body[..|body| - 1]);
      if last.Other? then RecordPairs(ReadingAnswerPair, key, last.text, 0) else key
  }

  /** A header followed by lines that are not headers: the header's test is open, its key holds
      exactly the pairs of those following lines (the header line itself is not scanned and
      whatever the test held before is dropped), and every other test keeps its key. */
  lemma {:induction false} HeaderBlock(pre: seq<Line>, name: string, body: seq<Line>)
    requires forall k :: 0 <= k < |body| ==> body[k].Other?
    ensures ReadLines(pre + [Header(name)] + body) == State(Some(name), ReadLines(pre).tests[name := BlockKey(body)])
  {
    var lines := pre + [Header(name)] + body;
    if |body| == 0 {
      assert lines[..|lines| - 1] == pre;
    } else {
      var init := body[..|body| - 1];
      var last := body[|body| - 1];
      assert lines[..|lines| - 1] == pre + [Header(name)] + init;
      assert lines[|lines| - 1] == last;
      HeaderBlock(pre, name, init);
      var before := ReadLines(pre).tests;
      assert BlockKey(body) == RecordPairs(ReadingAnswerPair, BlockKey(init), last.text, 0);
      assert before[name := BlockKey(init)][name := BlockKey(body)] == before[name := BlockKey(body)];
    }
  }

  /** A repeated header starts its test afresh: whatever the test held is gone. */
  lemma RepeatedHeaderResets(pre: seq<Line>, name: string)
    ensures ReadLines(pre + [Header(name)]).tests[name] == map[]
  {
    HeaderBlock(pre, name, []);
    assert pre + [Header(name)] + [] == pre + [Header(name)];
  }
}
