# TOEIC practice app: a verified model of its data pipeline and app logic

The app is a TOEIC practice app. Its questions come from two offline scripts that carve the
extracted text of an exam book into tests, questions, stems and options. The scripts join
these with the answer key and write one JSON file per test.

- **Reading conversion** (`scripts/convert_data.js`):
  - `convertPdf` splits the text on "答案册".
  - `parseAnswers` reads the answer book line by line.
  - `parseQuestions` and `extractTestQuestions` cut the question book at test headers and at
    three-digit question labels.
  - `processRawQuestion` splits a question into stem and options.
  - `cleanData` moves reading passages out of last options and attaches each one to the
    question numbers it covers.
- **Listening conversion** (`scripts/convert_listening.js`):
  - `convertPdfToData` takes the part after the last "答案册" and cuts it at `Test N`.
  - `processTest` builds the answer key. It then cuts the transcript into question chunks with
    a cursor, searching for "\n1", "\n2", … up to 100.
  - `parseQuestionChunk` reads the stem and the 3 or 4 options of a chunk, chosen by the
    question number.

The app side modelled here:

- `DataLoader`: tests by name and part filter.
- `UserProgressService`: the mistake list and statistics over key-value storage, modelled as
  fields of a class.
- The mock test's countdown (`TestTimer`): a class whose `Tick` is the interval's updater.
- The time and score displays of the results page and the audio player.

## How it is modelled

- **Strings** are `seq<char>`.
- **JavaScript string built-ins** are written out in module `Text`: `trim`, `split`, `join`,
  `indexOf`, `parseInt`, `toString`, `padStart`, `toLowerCase` and `%`.
- **JavaScript objects used as dictionaries** are insertion-ordered `Tables` when their key
  order shows in the output, and `map`s otherwise.
- **Regular expressions.** Each regular expression of the scripts is a hand-written scanner in
  module `Scan`. Its match at a position is unique, as the pattern's greedy and lazy parts
  determine. `Search` is the leftmost match from a position (`exec` with `lastIndex`, or
  `search` on a slice), and `AllMatches` is what a global `exec` loop visits.
- **Loops.** Every loop of the scripts is a `method` with its loop invariants, proved equal to
  a specification function. The properties are lemmas about those functions.
- **Timer and storage.** The timer and the progress service are classes whose methods change
  their fields.
- **Outputs.** File writes become returned values: the file name and what the file holds.

## Where the code and the documented design differ

The model follows the code in each of these cases:

- **Answer pairs.** The reading answer pairs accept only half-width parentheses
  (`scripts/convert_data.js:153`). Only the listening key also accepts full-width ones.
- **Listening option counts.** A listening question has 4, 3 or 4 options by range only when
  the option chain matches. Otherwise it has none (`ConvertListening.ChunkOptionCount`).
- **Questions 1–6.** They get a fixed stem sentence, not an empty one.
- **Listening script.** The `script` of a listening question is its chunk without the leading
  number, trimmed, not the raw span.
- **Reading option segments.** A reading option segment ends only at the next `(A)`–`(D)`
  marker or at the end of the text, not at a question label.
- **Overlapping passage ranges.** The last header wins (`ReadingConvert.ContextLastWins`).
- **Empty answers.** An answer key entry that is empty reads as `null`, since the code writes
  `|| null`.

## Model

| member | source | states |
|---|---|---|
| AnswerKeys.RecordPairsLastWins | scripts/convert_data.js:153-159 | after a global `exec` loop over number/letter pairs, a number reads as the letter of its last pair, and keeps its old entry when no pair has it |
| ReadingAnswers.Step | scripts/convert_data.js:139-159 | one line of the loop keeps the open test registered in the book |
| ReadingAnswers.ParseAnswers | scripts/convert_data.js:131-162 | the line loop with its inner pair loop computes the answer book of the text |
| ReadingAnswers.PreambleIgnored | scripts/convert_data.js:149 | lines before the first header open no test and store nothing |
| ReadingAnswers.HeaderBlock | scripts/convert_data.js:142-159 | after a header and non-header lines, that test is open and holds exactly the pairs of those lines; other tests are as before |
| ReadingAnswers.RepeatedHeaderResets | scripts/convert_data.js:143-146 | a header, repeated or not, leaves its test with an empty key |
| ReadingQuestions.ParseOptions | scripts/convert_data.js:280-289 | the option `exec` loop yields the trimmed text of every option segment in order |
| ReadingQuestions.ProcessRawQuestion | scripts/convert_data.js:255-296 | the method computes the question record of the raw text |
| ReadingQuestions.OptionSegmentAt | scripts/convert_data.js:281 | an option segment matches exactly at a marker `(A)`–`(D)` and runs to the next marker or the end, with no marker inside |
| ReadingQuestions.OptionPerMarker | scripts/convert_data.js:281-289 | the options text yields exactly one option per marker in it |
| ReadingQuestions.OptionsHoldNoMarker | scripts/convert_data.js:281-288 | every option is trimmed and contains no marker |
| ReadingQuestions.NoOptionsWithoutMarkerA | scripts/convert_data.js:272-275 | without "(A)" the question is the whole raw text and there are no options |
| ReadingQuestions.SplitAtMarkerA | scripts/convert_data.js:272-294 | with "(A)" the stem is the trimmed text before its first occurrence, with one clean option per marker from there on |
| ReadingQuestions.CollectRawQuestions | scripts/convert_data.js:224-247 | the label `exec` loop collects the raw questions of the test text |
| ReadingQuestions.ExtractTestQuestions | scripts/convert_data.js:214-253 | the method computes the questions of the test text |
| ReadingQuestions.RawQuestionsFollowLabels | scripts/convert_data.js:231-247 | one raw question per `\n\s*NNN.` label, in label order, each the trimmed text from the label's end to the next label or the end |
| ReadingQuestions.LabelsAreThreeDigits | scripts/convert_data.js:224 | every label's group is exactly three digits |
| ReadingQuestions.QuestionsFollowLabels | scripts/convert_data.js:224-252 | one question per label, id the label's digits, parsed from the text up to the next label; text before the first label is dropped |
| ReadingQuestions.ParseQuestions | scripts/convert_data.js:164-212 | the header `exec` loop computes the question table of the book |
| ReadingQuestions.WholeTextWithoutTitle | scripts/convert_data.js:178-179 | without "试题册" the whole normalised text is searched, since `substring(-1)` starts at 0 |
| ReadingQuestions.KeepLongLastWins | scripts/convert_data.js:188-209 | a test holds the questions of the last piece with its name longer than 1000 characters; shorter pieces are never stored |
| ReadingQuestions.BookKeepsLongTests | scripts/convert_data.js:182-209 | a test is in the table exactly when some header of its name is followed by a piece longer than 1000 characters |
| Segments.PiecesMatchHeaders | scripts/convert_data.js:188-201 | one piece per header, labelled by the header's group, running from the header's end to the next header's start or the end of the text |
| Segments.PiecesDisjoint | scripts/convert_data.js:231-240 | the pieces follow one another without overlapping and no header starts inside one |
| ReadingConvert.RangeMap | scripts/convert_data.js:115-117 | the `for` loop writes the passage under exactly the numbers from the first to the last, inclusive |
| ReadingConvert.CutMap | scripts/convert_data.js:92-117 | a cut writes its passage under exactly the numbers its header covers, and nothing without a header |
| ReadingConvert.AssignRange | scripts/convert_data.js:115-117 | the loop leaves the old map overridden by the passage on the whole range |
| ReadingConvert.FindPassage | scripts/convert_data.js:92-112 | nothing exactly when no passage header occurs anywhere in the last option; otherwise the option text kept is trimmed and holds no passage header any more |
| ReadingConvert.CleanOne | scripts/convert_data.js:84-118 | one pass of the loop cuts the last option and adds the cut's range to the context map |
| ReadingConvert.CutQuestions | scripts/convert_data.js:83-119 | the first loop cuts every last option and leaves the context map of all cuts in order |
| ReadingConvert.AttachPassages | scripts/convert_data.js:122-128 | the `map` attaches to each question the entry under its parsed number |
| ReadingConvert.CleanData | scripts/convert_data.js:74-129 | the method computes the cleaned questions |
| ReadingConvert.ContextLastWins | scripts/convert_data.js:115-117 | a number is in the context map exactly when some header covers it, and reads as the passage of the last such header |
| ReadingConvert.CleanAttachesPassages | scripts/convert_data.js:83-128 | cleaning keeps order and every field but the last option and the passage; a question's passage is that of the last header covering its number, else unchanged |
| ReadingConvert.CutKeepsOtherOptions | scripts/convert_data.js:85-102 | only the last option can change; the option count is kept; without a header nothing changes |
| ReadingConvert.TrimmedPrefixHasNoHeader | scripts/convert_data.js:96-97 | the trimmed text before the first header contains no header |
| ReadingConvert.CutOptionHasNoHeader | scripts/convert_data.js:92-102 | an option left after a cut has no header to cut |
| ReadingConvert.CutQuestionHasNoCut | scripts/convert_data.js:85-102 | a cut question has no header left in its last option |
| ReadingConvert.ContextEmptyWithoutCuts | scripts/convert_data.js:77-117 | with no header found the context map stays empty |
| ReadingConvert.CleanIdempotent | scripts/convert_data.js:74-129 | cleaning cleaned questions changes nothing |
| ReadingConvert.WriteTests | scripts/convert_data.js:56-71 | the merge loop yields one file per test in table order: file name, then answers merged and cleaned |
| ReadingConvert.ConvertPdf | scripts/convert_data.js:14-72 | fewer than three parts stop the run with nothing written; otherwise the files of part 1's tests with part 2's answers |
| ReadingConvert.NoAnswerBookNothingWritten | scripts/convert_data.js:24-38 | without "答案册" there is one part and nothing is written |
| ReadingConvert.FilesFollowTests | scripts/convert_data.js:44-68 | one file per test, named after it, holding its questions in order with each answer taken from the same test and number |
| ReadingConvert.ReplaceFirstAt | scripts/convert_data.js:68 | `replace(' ', '_')` replaces only the first space |
| ReadingConvert.FileNameOfTest | scripts/convert_data.js:68 | test "Test NN" is written to "assets/data/reading_test_NN.json" |
| ConvertListening.GroupsFromCount | scripts/convert_listening.js:189-211 | a matched option chain has one group per letter after the first, plus the tail |
| ConvertListening.GroupsFromFound | scripts/convert_listening.js:189-211 | the lazy chain matches exactly when markers for its letters occur in order |
| ConvertListening.GroupsAreLazy | scripts/convert_listening.js:189-211 | each group stops at the first marker of the next letter, and the last at the first lookahead stop |
| ConvertListening.ChainLetters | scripts/convert_listening.js:185-211 | questions 7–31 use a three-letter chain and all others a four-letter one |
| ConvertListening.ChainOptionsFound | scripts/convert_listening.js:189-211 | a chain yields one option per letter or none, and some exactly when its markers occur in order |
| ConvertListening.ChunkOptionCount | scripts/convert_listening.js:175-216 | questions 1–6 have the fixed stem; the options number 0 or 3 (7–31) or 4 (others); the script is the chunk without its number, trimmed |
| ConvertListening.NoMarkerWholeText | scripts/convert_listening.js:195-216 | from question 7 on, a chunk without "(A)" gives its whole text as stem and no options |
| ConvertListening.TidyOptionIsTidy | scripts/convert_listening.js:220 | a tidied option is trimmed and its only white space is single blanks |
| ConvertListening.TidyAllTidy | scripts/convert_listening.js:220 | every option of the mapped list is tidy |
| ConvertListening.OptionsAreTidy | scripts/convert_listening.js:220-226 | every option of every chunk is tidy |
| ConvertListening.ListeningKeyLastWins | scripts/convert_listening.js:75-80 | the key records every pair with half- or full-width brackets; a later pair with the same number wins |
| ConvertListening.ChunkStart | scripts/convert_listening.js:111-125 | a chunk starts inside the transcript and, from question 2 on, strictly after the cursor |
| ConvertListening.ChunkEnd | scripts/convert_listening.js:127-143 | a chunk ends between its start and the end of the transcript |
| ConvertListening.ChunksFrom | scripts/convert_listening.js:102-148 | the chunks of the `for qNum` loop lie within the transcript |
| ConvertListening.QuestionsOf | scripts/convert_listening.js:151-157 | one question per chunk |
| ConvertListening.FindStart | scripts/convert_listening.js:111-125 | question 1 starts at 1; any other question starts just after the first place, past the cursor, where its number label occurs, and has no start when the label occurs nowhere past the cursor |
| ConvertListening.FindEnd | scripts/convert_listening.js:127-143 | the chunk ends, not before its start, at the end of the text for question 100, and otherwise at the first label of the next question after the start, or at the end of the text when there is none |
| ConvertListening.SplitTranscript | scripts/convert_listening.js:100-159 | the cursor loop yields the questions of the transcript's chunks |
| ConvertListening.ProcessTest | scripts/convert_listening.js:73-170 | the method computes the test's file, or none when the transcript start is missing |
| ConvertListening.ChunksOrdered | scripts/convert_listening.js:102-148 | chunks are numbered 1, 2, … without a gap up to at most 100, and each starts after the previous one ends |
| ConvertListening.ChunkStartIsLabel | scripts/convert_listening.js:115-124 | chunk n starts just after the first "\n<n>" before a non-digit from the cursor on; if there is none, the loop stops |
| ConvertListening.ChunkEndIsNextLabel | scripts/convert_listening.js:128-143 | chunk n ends at the first "\n<n+1>" before a non-digit after its start, or at the end; chunk 100 always runs to the end |
| ConvertListening.ChunkOpensWithNumber | scripts/convert_listening.js:111-145 | each chunk begins with its own number |
| ConvertListening.ChunksOpenWithNumbers | scripts/convert_listening.js:102-148 | every chunk of the loop begins with its own number |
| ConvertListening.ChunkQuestionShape | scripts/convert_listening.js:151-157 | the pushed question has the number as id, the key's answer or null, no passage, the trimmed script, and 0 or 3/4 options |
| ConvertListening.TranscriptQuestionsShape | scripts/convert_listening.js:96-158 | the emitted ids are "1", "2", … in order, at most 100, one question per chunk |
| ConvertListening.NoTranscriptNoFile | scripts/convert_listening.js:88-93 | a test has no file exactly when `1\s*[（(]A[）)]` occurs nowhere in it |
| ConvertListening.TranscriptOpensWithOne | scripts/convert_listening.js:88-98 | the transcript is the prepended newline followed by the "1" of question 1 |
| ConvertListening.AnswerBookIsLastPart | scripts/convert_listening.js:29-41 | the answer-book content is a suffix of the text with no "答案册" in it, and is the whole text when the marker is absent |
| ConvertListening.TestIndices | scripts/convert_listening.js:44-53 | the test indices lie inside the content and strictly increase |
| ConvertListening.WrittenTests | scripts/convert_listening.js:55-66 | no more files than tests |
| ConvertListening.FindTests | scripts/convert_listening.js:44-53 | the `exec` loop collects the id and index of every `Test\s+(\d+)` match |
| ConvertListening.WriteTests | scripts/convert_listening.js:55-66 | the `for` loop writes the files of the tests in order, skipping tests without a transcript |
| ConvertListening.ConvertPdfToData | scripts/convert_listening.js:13-71 | the whole run yields the files of the answer-book content's tests |
| ConvertListening.SpansTile | scripts/convert_listening.js:55-62 | the test spans, put back together, give the content from the first "Test" on |
| ConvertListening.SpanOpensWithHeader | scripts/convert_listening.js:44-62 | each test span starts with "Test" and its id is a run of digits |
| DataLoader.GetVocabularyTests | services/DataLoader.ts:70-72 | one entry per reading test in table order, titled "Vocabulary <id>" |
| DataLoader.GetTestQuestions | services/DataLoader.ts:74-76 | an unknown test gives no questions |
| DataLoader.SelectIsSubsequence | services/DataLoader.ts:78-88 | the filter keeps questions in their original order |
| DataLoader.SelectMembers | services/DataLoader.ts:78-88 | a question is returned exactly when it is in the test and its id is in a selected part's range |
| DataLoader.TestQuestionsSelect | services/DataLoader.ts:74-89 | unknown test: none; otherwise an order-keeping selection of exactly the questions of the parts, each kept as many times as the test holds it |
| DataLoader.SelectCounts | services/DataLoader.ts:78-88 | `filter` keeps every copy of a question of the selected parts and no copy of any other question |
| DataLoader.IncludedRange | services/DataLoader.ts:79-87 | no id outside 101–200 is ever returned |
| DataLoader.DefaultPartsRange | services/DataLoader.ts:74-87 | with the default parts [5, 6], exactly ids 101–146 are kept |
| DataLoader.PartSevenRange | services/DataLoader.ts:84-87 | with parts [7], exactly ids 147–200 are kept |
| DataLoader.GetListeningTests | services/DataLoader.ts:91-97 | one entry per listening test in table order, with its title and its audio entry |
| DataLoader.GetListeningTestById | services/DataLoader.ts:99-107 | null exactly for an unknown id; otherwise the stored test's fields unchanged, plus its audio entry |
| DataLoader.ListedTestsLoad | services/DataLoader.ts:91-107 | every listed test loads by its id with the title and audio the list shows |
| UserProgress.FindById | services/UserProgressService.ts:37 | `find` gives none exactly when no entry has the id, else an entry with that id |
| UserProgress.Removed | services/UserProgressService.ts:59 | filtering never lengthens the list |
| UserProgress.SavedShape | services/UserProgressService.ts:35-40 | saving prepends the question exactly when its id is new, else changes nothing; the list grows by at most one |
| UserProgress.SavedKeepsIdsUnique | services/UserProgressService.ts:37-38 | saving keeps ids unique |
| UserProgress.RemovedMembers | services/UserProgressService.ts:59 | removal keeps exactly the entries with another id, unchanged |
| UserProgress.RemovedAppend | services/UserProgressService.ts:59 | removal keeps the relative order of what it keeps |
| UserProgress.RemovedAbsent | services/UserProgressService.ts:59 | removing an id nobody has changes nothing |
| UserProgress.RemovedKeepsIdsUnique | services/UserProgressService.ts:58-60 | after removal no entry has the id, and ids stay unique |
| UserProgress.SaveThenRemove | services/UserProgressService.ts:35-60 | removing a just-saved new question gives the old list back |
| UserProgress.StatsCounters | services/UserProgressService.ts:72-78 | the total rises by 1; correct answers and the answered section's score rise by 1 and 5 exactly on a correct answer; other sections are unchanged |
| UserProgress.StreakRule | services/UserProgressService.ts:81-93 | same day: streak kept; the day after the last answer: streak + 1; otherwise 1; the last day becomes today |
| UserProgress.DefaultConsistent | services/UserProgressService.ts:111-120 | the default statistics are consistent |
| UserProgress.StatsAfterConsistent | services/UserProgressService.ts:68-93 | an answer keeps correct ≤ total, scores summing to 5 × correct, and a streak of at least 1 with a date |
| UserProgress.ProgressService.constructor | services/UserProgressService.ts:24-28 | a service over empty storage |
| UserProgress.ProgressService.SaveWrongQuestion | services/UserProgressService.ts:33-44 | the stored list becomes the saved list, unwritten when the id is present; other keys untouched; ids stay unique |
| UserProgress.ProgressService.RemoveWrongQuestion | services/UserProgressService.ts:56-64 | the stored list becomes the old list without that id; other keys untouched |
| UserProgress.ProgressService.UpdateStats | services/UserProgressService.ts:68-99 | the stored statistics become the counted and streaked statistics; the statistics stay consistent |
| UserProgress.ProgressService.ClearAllData | services/UserProgressService.ts:124-130 | every key is removed, so the list reads empty and the statistics read as the defaults |
| Tables.Get | services/DataLoader.ts:75 | an object lookup of an own key is undefined exactly for a missing key, and otherwise the key's value (names inherited from `Object.prototype` are not modelled) |
| Tables.PutKeys | scripts/convert_data.js:194 | assigning a present key keeps its place; a new key goes last |
| Tables.GetPut | scripts/convert_data.js:194 | after assignment the key reads as the new value and every other key as before |
| Clock.FieldsMakeUp | components/ui/TestTimer.tsx:31-33 | hours, minutes below 60 and seconds below 60 make up the seconds: h·3600 + m·60 + s |
| TestTimer.TickStep | components/ui/TestTimer.tsx:17-23 | a tick never goes negative; with more than one second left it takes off exactly one, otherwise it gives 0 |
| TestTimer.TicksCount | components/ui/TestTimer.tsx:16-25 | n ticks leave max(prev − n, 0) |
| TestTimer.TimeUpOnLastTick | components/ui/TestTimer.tsx:18-21 | a timer of T seconds shows 1 after T − 1 ticks and 0 after T |
| TestTimer.Countdown.constructor | components/ui/TestTimer.tsx:11-14 | the time starts at `totalSeconds`, running unless paused |
| TestTimer.Countdown.SetPaused | components/ui/TestTimer.tsx:13-28 | a change of `isPaused` restarts or stops the interval; the remaining time never changes |
| TestTimer.Countdown.Tick | components/ui/TestTimer.tsx:16-25 | a running tick gives prev − 1, or 0 with one `onTimeUp` and a stop; a paused timer does not change |
| TestTimer.Countdown.Restart | components/ui/TestTimer.tsx:13-28 | a new `onTimeUp` re-runs the effect: an interval is set again unless paused, even after time-up; the time and the calls so far are unchanged |
| TestTimer.TimeUpAgainAfterRestart | components/ui/TestTimer.tsx:13-28 | a one-second countdown that fires, has its effect re-run and fires again calls `onTimeUp` twice |
| TestTimer.FormatTimeLayout | components/ui/TestTimer.tsx:30-39 | "h:mm:ss" exactly from one hour on, else "m:ss"; padded fields have exactly two digits that read as the field |
| TestTimer.FormatTimeReadsBack | components/ui/TestTimer.tsx:30-39 | reading the display back gives the remaining seconds |
| TestTimer.LowTimeUnderFiveMinutes | components/ui/TestTimer.tsx:41 | red exactly when the display shows no hours and fewer than 5 minutes |
| MockResults.DurationWords | app/mocktest/results.tsx:19-28 | the words name the fields that make up the time, hours only from 3600 on, without padding |
| MockResults.EstimateBounds | app/mocktest/results.tsx:31-34 | for 0 ≤ correct ≤ total the estimate is in 5–495, 5 for none and 495 for all |
| MockResults.EstimateMonotone | app/mocktest/results.tsx:32-33 | more correct answers never lower the estimate |
| MockResults.TotalEstimateBounds | app/mocktest/results.tsx:36-38 | the total lies in 10–990 |
| MockResults.PerformanceThresholds | app/mocktest/results.tsx:40-46 | each level is reached exactly from its threshold 60/70/80/90 on; the colour is jade exactly from 80 |
| MockResults.PerformanceMonotone | app/mocktest/results.tsx:40-46 | a higher percentage never gives a lower level |
| AudioPlayer.MillisFields | components/ui/AudioPlayer.tsx:107-111 | minutes·60 + seconds is the whole seconds, with seconds < 60 written as exactly two digits |
| AudioPlayer.MillisReadBack | components/ui/AudioPlayer.tsx:107-112 | reading the display back gives the whole seconds |
| AudioPlayer.SubSecondIgnored | components/ui/AudioPlayer.tsx:108 | the part below a second never shows |
| AudioPlayer.ResetShowsZero | components/ui/AudioPlayer.tsx:102-112 | a position reset to 0 shows "0:00" |

## Left out

- **PDF text extraction.** `pdf-parse` extraction and the `DOMMatrix` polyfill are left out. The extracted text is a parameter.
- **Output effects.** Directory creation, file writes, `JSON.stringify` formatting and `console` logging are left out. The files written are returned as values.
- **The listening run's `try`/`catch`.** The model raises no exceptions, so there is nothing to catch.
- **String lengths.** JavaScript strings count UTF-16 code units. The model counts characters, so the 1000-character threshold and all positions are in code points.
- **Regular expressions.**
  - There is no general regular expression engine; each pattern is its own scanner.
  - The `/i` flag is modelled for ASCII letters only.
  - `\s` is a fixed set of white-space characters.
  - The unused `optionRegex` (`scripts/convert_data.js:268`) is not modelled.
- **Storage.** AsyncStorage I/O, its asynchrony and its swallowed errors are left out. Storage is three optional fields that always hold what the service wrote, so stored JSON that does not parse is not modelled.
- **Dates.** `new Date()` and ISO date strings become a day number passed in. "Yesterday" is day − 1, and `''` is no date. An unparsable stored date is not modelled.
- **Timer effects.** `setInterval`, `clearInterval`, React effect scheduling and re-renders are left out.
  - A tick is a method call, and an `isPaused` change is `SetPaused`.
  - A new `onTimeUp` identity re-runs the effect, which is `Restart`. After time-up the new interval's first firing finds 0 left and calls `onTimeUp` again.
  - The interval's timing relative to the restart is not represented.
- **Audio playback.** Loading, playback, the progress bar and unmount races in `AudioPlayer` are not modelled; only `formatTime` is.
- **Floating point.**
  - The percentage shown on the results page comes from `toFixed(1)`; the model takes it as a given real number.
  - `estimateTOEICScore` is computed over exact rationals, not binary floating point.
  - The NaN cases (unparsable route parameters, a total of 0) are not modelled.
- **Table contents.** The test tables and the audio map (`assets/audio_map.ts`) are parameters. The audio entry is the asset's name, not a `require`d module.
- **All UI and presentation code, and configuration files.** Not modelled.
- Tables.Get, DataLoader.GetTestQuestions, DataLoader.GetListeningTestById: lookups of names inherited from `Object.prototype` ("constructor", "toString", "__proto__") are not modelled. For such a test id the source finds a function or an object: `getTestQuestions` then throws on `filter`, and `getListeningTestById` returns a non-null object. The model gives no questions and no test.
- ReadingConvert.AssignRange, ReadingConvert.RangeMap: the numbers from `parseInt` are exact unbounded integers. In the source they are doubles, so once the upper bound reaches 2^53 `id++` stops growing and the `for` loop never ends. This is not modelled.
- MockResults.EstimateScore: requires a positive total; with a total of 0 the source divides by zero and gets NaN or Infinity.
- TestTimer.FormatTimeLayout, TestTimer.FormatTimeReadsBack, MockResults.DurationWords, AudioPlayer.MillisFields and AudioPlayer.MillisReadBack: stated for non-negative times only. The timer never goes below 0, and positions and durations are non-negative.
- AudioPlayer.SubSecondIgnored: the remainder taken off is Dafny's, which is never negative. That matches `Math.floor` for negative times too. With JavaScript's `%` in its place the equation would fail for negative times, which do not occur.
