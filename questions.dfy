/** The records the conversion scripts write and the app reads. */
module Questions {
  import opened Wrappers

  /** A question. The reading scripts fill `passage`, the listening script fills `script`; an
      absent field is `None`, as is an `answer` of `null`. */
  datatype Question = Question(
    id: string,
    question: string,
    options: seq<string>,
    answer: Option<string>,
    passage: Option<string>,
    script: Option<string>)

  /** A listening test as its file stores it. */
  datatype ListeningTest = ListeningTest(testId: string, title: string, questions: seq<Question>)
}
