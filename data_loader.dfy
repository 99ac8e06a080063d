/** The app's data access (services/DataLoader.ts), over the bundled tables passed in: the reading
    tests by name ("Test 01" → its questions), the listening tests by id ("listening_test_01" →
    the test) and the audio map (listening id → its audio asset, here the asset's file name). */
module DataLoader {
  import opened Wrappers
  import opened Text
  import opened Tables
  import opened Questions

  /** An entry of a test list. */
  datatype TestEntry = TestEntry(id: string, title: string)

  /** An entry of the listening-test list; `audioUri` is `None` where the audio map has no entry. */
  datatype ListeningEntry = ListeningEntry(id: string, title: string, audioUri: Option<string>)

  /** A listening test as `getListeningTestById` returns it: the stored test with `audioUri` added. */
  datatype LoadedTest = LoadedTest(testId: string, title: string, questions: seq<Question>, audioUri: Option<string>)

  // ---------------------------------------------------------------- getVocabularyTests

  function VocabularyEntries(ids: seq<string>): (r: seq<TestEntry>)
    ensures |r| == |ids|
    ensures forall i :: 0 <= i < |ids| ==> r[i] == TestEntry(ids[i], "Vocabulary " + ids[i])
  {
    if |ids| == 0 then [] else [TestEntry(ids[0], "Vocabulary " + ids[0])] + VocabularyEntries(ids[1..])
  }

  /** `getVocabularyTests`: one entry per reading test, in the table's order, titled by its name. */
  function GetVocabularyTests(tests: Table<seq<Question>>): (r: seq<TestEntry>)
    ensures |r| == |tests|
    ensures forall i :: 0 <= i < |tests| ==> r[i].id == tests[i].0 && r[i].title == "Vocabulary " + tests[i].0
  {
    VocabularyEntries(Keys(tests))
  }

  // ---------------------------------------------------------------- getTestQuestions

  /** The default `parts` argument. */
  const DefaultParts: seq<int> := [5, 6]

  /** The filter's test on a question id: part 5 is 101–130, part 6 is 131–146, part 7 is
      147–200. An id that does not parse is NaN, which fails every comparison. */
  predicate Included(id: string, parts: seq<int>) {
    match ParseInt(id)
    case None => false
    case Some(n) =>
      || (5 in parts && 101 <= n <= 130)
      || (6 in parts && 131 <= n <= 146)
      || (7 in parts && 147 <= n <= 200)
  }

  function SelectParts(qs: seq<Question>, parts: seq<int>): (r: seq<Question>)
    ensures |r| <= |qs|
  {
    if |qs| == 0 then []
    else (if Included(qs[0].id, parts) then [qs[0]] else []) + SelectParts(qs[1..], parts)
  }

  /** `getTestQuestions`: the questions of the named test that belong to the given parts, or
      none for an unknown test. */
  function GetTestQuestions(tests: Table<seq<Question>>, testId: string, parts: seq<int>): (r: seq<Question>)
    ensures Get(tests, testId).None? ==> r == []
  {
    match Get(tests, testId)
    case None => []
    case Some(qs) => SelectParts(qs, parts)
  }

  /** `r` is `qs` with some elements left out, the rest in their order (the greedy check). */
  predicate IsSubsequence(r: seq<Question>, qs: seq<Question>)
    decreases |qs|
  {
    if |r| == 0 then true
    else if |qs| == 0 then false
    else if r[0] == qs[0] then IsSubsequence(r[1..], qs[1..])
    else IsSubsequence(r, qs[1..])
  }

  lemma {:induction false} SelectIsSubsequence(qs: seq<Question>, parts: seq<int>)
    ensures IsSubsequence(SelectParts(qs, parts), qs)
  {
    if |qs| > 0 {
      SelectIsSubsequence(qs[1..], parts);
      var rest := SelectParts(qs[1..], parts);
      if Included(qs[0].id, parts) {
        assert SelectParts(qs, parts) == [qs[0]] + rest;
        assert ([qs[0]] + rest)[1..] == rest;
      } else {
        assert SelectParts(qs, parts) == rest;
        SubsequenceSkip(rest, qs);
      }
    }
  }

  /** Leaving out the head of `qs` keeps a subsequence of its tail a subsequence of `qs`. */
  lemma {:induction false} SubsequenceSkip(r: seq<Question>, qs: seq<Question>)
    requires |qs| > 0 && IsSubsequence(r, qs[1..])
    ensures IsSubsequence(r, qs)
    decreases |qs|, 0
  {
    if |r| > 0 && r[0] == qs[0] {
      // the greedy check matches the head here; what is left is a subsequence of the tail
      SubsequenceDrop(r, qs[1..]);
    }
  }

  /** A subsequence without its head is still a subsequence. */
  lemma {:induction false} SubsequenceDrop(r: seq<Question>, qs: seq<Question>)
    requires |r| > 0 && IsSubsequence(r, qs)
    ensures IsSubsequence(r[1..], qs)
    decreases |qs|, 1
  {
    if |qs| > 0 {
      if r[0] == qs[0] {
        if |r[1..]| > 0 {
          SubsequenceSkip(r[1..], qs);
        }
      } else {
        SubsequenceDrop(r, qs[1..]);
        if |r[1..]| > 0 {
          SubsequenceSkip(r[1..], qs);
        }
      }
    }
  }

  /** A question is returned exactly when it is one of the test's questions and its id belongs
      to one of the parts. */
  lemma {:induction false} SelectMembers(qs: seq<Question>, parts: seq<int>, q: Question)
    ensures q in SelectParts(qs, parts) <==> q in qs && Included(q.id, parts)
  {
    if |qs| > 0 {
      SelectMembers(qs[1..], parts, q);
      assert qs == [qs[0]] + qs[1..];
    }
  }

  /** Every copy of a question of the parts is kept, and no copy of another question. */
  lemma {:induction false} SelectCounts(qs: seq<Question>, parts: seq<int>, q: Question)
    ensures multiset(SelectParts(qs, parts))[q] == if Included(q.id, parts) then multiset(qs)[q] else 0
  {
    if |qs| > 0 {
      SelectCounts(qs[1..], parts, q);
      assert qs == [qs[0]] + qs[1..];
    }
  }

  /** The result of `getTestQuestions`, stated on the test's questions: an unknown test gives
      none; otherwise an order-keeping selection of exactly the questions of the parts, each as
      often as the test has it. */
  lemma TestQuestionsSelect(tests: Table<seq<Question>>, testId: string, parts: seq<int>, q: Question)
    ensures var r := GetTestQuestions(tests, testId, parts);
      match Get(tests, testId)
      case None => r == []
      case Some(qs) =>
        && IsSubsequence(r, qs)
        && (q in r <==> q in qs && Included(q.id, parts))
        && multiset(r)[q] == if Included(q.id, parts) then multiset(qs)[q] else 0
  {
    match Get(tests, testId)
    case None =>
    case Some(qs) =>
      SelectIsSubsequence(qs, parts);
      SelectMembers(qs, parts, q);
      SelectCounts(qs, parts, q);
  }

  /** No id outside 101–200 is returned, whatever the parts. */
  lemma IncludedRange(id: string, parts: seq<int>)
    requires Included(id, parts)
    ensures ParseInt(id).Some? && 101 <= ParseInt(id).value <= 200
  {
  }

  /** With the default parts, exactly the ids 101–146 are kept. */
  lemma DefaultPartsRange(id: string)
    ensures Included(id, DefaultParts) <==> ParseInt(id).Some? && 101 <= ParseInt(id).value <= 146
  {
    assert 5 in DefaultParts && 6 in DefaultParts && 7 !in DefaultParts;
  }

  /** Part 7 alone (the reading quiz) keeps exactly the ids 147–200. */
  lemma PartSevenRange(id: string)
    ensures Included(id, [7]) <==> ParseInt(id).Some? && 147 <= ParseInt(id).value <= 200
  {
    assert 5 !in [7] && 6 !in [7] && 7 in [7];
  }

  // ---------------------------------------------------------------- listening tests

  function ListeningEntries(listening: Table<ListeningTest>, audio: Table<string>): (r: seq<ListeningEntry>)
    ensures |r| == |listening|
    ensures forall i :: 0 <= i < |listening| ==>
      r[i] == ListeningEntry(listening[i].0, listening[i].1.title, Get(audio, listening[i].0))
  {
    if |listening| == 0 then []
    else
      var (id, test) := listening[0];
      [ListeningEntry(id, test.title, Get(audio, id))] + ListeningEntries(listening[1..], audio)
  }

  /** `getListeningTests`: one entry per listening test, in the table's order, with its title
      and its audio entry. */
  function GetListeningTests(listening: Table<ListeningTest>, audio: Table<string>): (r: seq<ListeningEntry>)
    ensures |r| == |listening|
    ensures forall i :: 0 <= i < |listening| ==>
      && r[i].id == listening[i].0
      && r[i].title == listening[i].1.title
      && r[i].audioUri == Get(audio, listening[i].0)
  {
    ListeningEntries(listening, audio)
  }

  /** `getListeningTestById`: `None` (null) for an unknown id; otherwise the stored test, every
      field unchanged, with the id's audio entry added. */
  function GetListeningTestById(listening: Table<ListeningTest>, audio: Table<string>, testId: string): (r: Option<LoadedTest>)
    ensures r.None? <==> testId !in Keys(listening)
    ensures r.Some? ==> exists i :: (0 <= i < |listening| && listening[i].0 == testId &&
      r.value.testId == listening[i].1.testId &&
      r.value.title == listening[i].1.title &&
      r.value.questions == listening[i].1.questions)
    ensures r.Some? ==> r.value.audioUri == Get(audio, testId)
  {
    match Get(listening, testId)
    case None => None
    case Some(test) => Some(LoadedTest(test.testId, test.title, test.questions, Get(audio, testId)))
  }

  /** Every test the list offers loads by its id, with the title and audio the list shows. */
  lemma ListedTestsLoad(listening: Table<ListeningTest>, audio: Table<string>, i: nat)
    requires KeysUnique(listening) && i < |listening|
    ensures var e := GetListeningTests(listening, audio)[i];
      var t := GetListeningTestById(listening, audio, e.id);
      t.Some? && t.value.title == e.title && t.value.audioUri == e.audioUri
  {
    assert Get(listening, listening[i].0) == Some(listening[i].1);
  }
}
