/** The learner's progress (services/UserProgressService.ts): the list of wrongly answered
    questions and the answer statistics, kept in the device's key-value storage. The storage is
    modelled as the fields of the service, one per storage key, `None` for a missing key. Dates
    are day numbers; the date `''` of a learner who never answered is `None`. */
module UserProgress {
  import opened Wrappers

  datatype Section = Listening | Reading | Vocabulary

  datatype WrongQuestion = WrongQuestion(
    id: string,
    testId: string,
    section: Section,
    question: string,
    userAnswer: string,
    correctAnswer: string,
    explanation: Option<string>,
    timestamp: int)

  datatype UserStats = UserStats(
    totalQuestionsAnswered: int,
    correctAnswers: int,
    listeningScore: int,
    readingScore: int,
    vocabularyScore: int,
    streakDays: int,
    lastActiveDate: Option<int>)

  /** What `getUserStats` returns when nothing is stored. */
  const DefaultStats := UserStats(0, 0, 0, 0, 0, 0, None)

  // ---------------------------------------------------------------- the mistake list

  /** `list.find(q => q.id === id)`. */
  function FindById(list: seq<WrongQuestion>, id: string): (r: Option<WrongQuestion>)
    ensures r.None? <==> forall i :: 0 <= i < |list| ==> list[i].id != id
    ensures r.Some? ==> r.value in list && r.value.id == id
  {
    if |list| == 0 then None
    else if list[0].id == id then Some(list[0])
    else FindById(list[1..], id)
  }

  predicate HasId(list: seq<WrongQuestion>, id: string) {
    exists i :: 0 <= i < |list| && list[i].id == id
  }

  predicate IdsUnique(list: seq<WrongQuestion>) {
    forall i, j :: 0 <= i < j < |list| ==> list[i].id != list[j].id
  }

  /** The list after `saveWrongQuestion(q)`: `q` first when its id is new, else as it was. */
  function Saved(list: seq<WrongQuestion>, q: WrongQuestion): seq<WrongQuestion> {
    if FindById(list, q.id).None? then [q] + list else list
  }

  /** The list after `removeWrongQuestion(id)`. */
  function Removed(list: seq<WrongQuestion>, id: string): (r: seq<WrongQuestion>)
    ensures |r| <= |list|
  {
    if |list| == 0 then []
    else (if list[0].id != id then [list[0]] else []) + Removed(list[1..], id)
  }

  /** Saving adds the question in front exactly when its id is new, and at most one entry. */
  lemma SavedShape(list: seq<WrongQuestion>, q: WrongQuestion)
    ensures Saved(list, q) == if HasId(list, q.id) then list else [q] + list
    ensures |list| <= |Saved(list, q)| <= |list| + 1
    ensures HasId(Saved(list, q), q.id)
  {
    if !HasId(list, q.id) {
      assert ([q] + list)[0].id == q.id;
    }
  }

  /** Saving never creates a second entry for an id. */
  lemma SavedKeepsIdsUnique(list: seq<WrongQuestion>, q: WrongQuestion)
    requires IdsUnique(list)
    ensures IdsUnique(Saved(list, q))
  {
    var r := Saved(list, q);
    if FindById(list, q.id).None? {
      forall i, j | 0 <= i < j < |r|
        ensures r[i].id != r[j].id
      {
        assert r[j] == list[j - 1];
        if i > 0 {
          assert r[i] == list[i - 1];
        }
      }
    }
  }

  /** Removing keeps exactly the entries with another id, unchanged. */
  lemma {:induction false} RemovedMembers(list: seq<WrongQuestion>, id: string, x: WrongQuestion)
    ensures x in Removed(list, id) <==> x in list && x.id != id
  {
    if |list| > 0 {
      RemovedMembers(list[1..], id, x);
      assert list == [list[0]] + list[1..];
    }
  }

  /** Removing keeps the order of what is kept: it distributes over concatenation. */
  lemma {:induction false} RemovedAppend(a: seq<WrongQuestion>, b: seq<WrongQuestion>, id: string)
    ensures Removed(a + b, id) == Removed(a, id) + Removed(b, id)
  {
    if |a| > 0 {
      RemovedAppend(a[1..], b, id);
      assert (a + b)[1..] == a[1..] + b;
    } else {
      assert a + b == b;
    }
  }

  /** Removing an id that no entry has changes nothing. */
  lemma {:induction false} RemovedAbsent(list: seq<WrongQuestion>, id: string)
    requires !HasId(list, id)
    ensures Removed(list, id) == list
  {
    if |list| > 0 {
      assert !HasId(list[1..], id) by {
        forall i | 0 <= i < |list[1..]|
          ensures list[1..][i].id != id
        {
          assert list[1..][i] == list[i + 1];
        }
      }
      RemovedAbsent(list[1..], id);
      assert list == [list[0]] + list[1..];
    }
  }

  /** After removing, no entry has the id, and ids stay unique. */
  lemma RemovedKeepsIdsUnique(list: seq<WrongQuestion>, id: string)
    requires IdsUnique(list)
    ensures IdsUnique(Removed(list, id))
    ensures !HasId(Removed(list, id), id)
  {
    var r := Removed(list, id);
    forall i | 0 <= i < |r|
      ensures r[i].id != id
    {
      RemovedMembers(list, id, r[i]);
    }
    RemovedUnique(list, id);
  }

  lemma {:induction false} RemovedUnique(list: seq<WrongQuestion>, id: string)
    requires IdsUnique(list)
    ensures IdsUnique(Removed(list, id))
  {
    if |list| > 0 {
      var tail := list[1..];
      assert IdsUnique(tail) by {
        forall i, j | 0 <= i < j < |tail|
          ensures tail[i].id != tail[j].id
        {
          assert tail[i] == list[i + 1] && tail[j] == list[j + 1];
        }
      }
      RemovedUnique(tail, id);
      var rest := Removed(tail, id);
      var r := Removed(list, id);
      if list[0].id != id {
        assert r == [list[0]] + rest;
        forall k | 0 <= k < |rest|
          ensures rest[k].id != list[0].id
        {
          RemovedMembers(tail, id, rest[k]);
          var j :| 0 <= j < |tail| && tail[j] == rest[k];
          assert list[j + 1] == rest[k];
        }
        forall i, j | 0 <= i < j < |r|
          ensures r[i].id != r[j].id
        {
          assert r[j] == rest[j - 1];
          if i > 0 {
            assert r[i] == rest[i - 1];
          }
        }
      } else {
        assert r == rest;
      }
    }
  }

  /** Removing a question just saved with a new id gives the list back. */
  lemma SaveThenRemove(list: seq<WrongQuestion>, q: WrongQuestion)
    requires !HasId(list, q.id)
    ensures Removed(Saved(list, q), q.id) == list
  {
    assert Saved(list, q) == [q] + list;
    RemovedAppend([q], list, q.id);
    RemovedAbsent(list, q.id);
  }

  // ---------------------------------------------------------------- the statistics

  /** The counters after an answer: one more answered, one more correct and 5 more points for
      the answered section when it is correct. */
  function Counted(s: UserStats, isCorrect: bool, section: Section): UserStats {
    var s := s.(totalQuestionsAnswered := s.totalQuestionsAnswered + 1);
    if !isCorrect then s
    else
      var s := s.(correctAnswers := s.correctAnswers + 1);
      match section
      case Listening => s.(listeningScore := s.listeningScore + 5)
      case Reading => s.(readingScore := s.readingScore + 5)
      case Vocabulary => s.(vocabularyScore := s.vocabularyScore + 5)
  }

  /** The streak after an answer on day `today`. */
  function Streaked(s: UserStats, today: int): UserStats {
    if s.lastActiveDate == Some(today) then s
    else if s.lastActiveDate == Some(today - 1) then s.(streakDays := s.streakDays + 1, lastActiveDate := Some(today))
    else s.(streakDays := 1, lastActiveDate := Some(today))
  }

  /** The statistics `updateStats` stores. */
  function StatsAfter(s: UserStats, isCorrect: bool, section: Section, today: int): UserStats {
    Streaked(Counted(s, isCorrect, section), today)
  }

  function Score(s: UserStats, section: Section): int {
    match section
    case Listening => s.listeningScore
    case Reading => s.readingScore
    case Vocabulary => s.vocabularyScore
  }

  /** The counters: total always up by one, correct up by one exactly on a correct answer, and
      only the answered section's score moves, by 5 and only when correct. */
  lemma StatsCounters(s: UserStats, isCorrect: bool, section: Section, today: int, other: Section)
    ensures var t := StatsAfter(s, isCorrect, section, today);
      && t.totalQuestionsAnswered == s.totalQuestionsAnswered + 1
      && t.correctAnswers == s.correctAnswers + (if isCorrect then 1 else 0)
      && Score(t, section) == Score(s, section) + (if isCorrect then 5 else 0)
      && (other != section ==> Score(t, other) == Score(s, other))
  {
  }

  /** The streak: kept on the same day, one longer the day after the last answer, otherwise
      restarted at 1 (also for the first answer ever); the last active day becomes today. */
  lemma StreakRule(s: UserStats, isCorrect: bool, section: Section, today: int)
    ensures var t := StatsAfter(s, isCorrect, section, today);
      && t.lastActiveDate == Some(today)
      && t.streakDays == (if s.lastActiveDate == Some(today) then s.streakDays
                          else if s.lastActiveDate == Some(today - 1) then s.streakDays + 1
                          else 1)
  {
  }

  /** The statistics hang together: no more correct than answered, the section scores add up
      to 5 per correct answer, and the streak is zero exactly while no day is recorded. */
  predicate Consistent(s: UserStats) {
    && 0 <= s.correctAnswers <= s.totalQuestionsAnswered
    && s.listeningScore >= 0 && s.readingScore >= 0 && s.vocabularyScore >= 0
    && s.listeningScore + s.readingScore + s.vocabularyScore == 5 * s.correctAnswers
    && s.streakDays >= 0
    && (s.streakDays == 0 <==> s.lastActiveDate.None?)
  }

  lemma DefaultConsistent()
    ensures Consistent(DefaultStats)
  {
  }

  /** An answer keeps the statistics consistent, and afterwards the streak is at least 1. */
  lemma StatsAfterConsistent(s: UserStats, isCorrect: bool, section: Section, today: int)
    requires Consistent(s)
    ensures Consistent(StatsAfter(s, isCorrect, section, today))
    ensures StatsAfter(s, isCorrect, section, today).streakDays >= 1
  {
  }

  // ---------------------------------------------------------------- the service and its storage

  class ProgressService {
    /** The three storage keys: the mistake list, the statistics and the (unused) test history. */
    var storedWrongQuestions: Option<seq<WrongQuestion>>
    var storedStats: Option<UserStats>
    var storedHistory: Option<string>

    /** The stored values are what this service wrote. */
    ghost predicate Valid()
      reads this
    {
      && IdsUnique(WrongQuestions())
      && Consistent(Stats())
    }

    /** A service over empty storage. */
    constructor ()
      ensures storedWrongQuestions.None? && storedStats.None? && storedHistory.None?
      ensures Valid()
    {
      storedWrongQuestions := None;
      storedStats := None;
      storedHistory := None;
    }

    /** `getWrongQuestions`: the stored list, or none when nothing is stored. */
    function WrongQuestions(): seq<WrongQuestion>
      reads this
    {
      if storedWrongQuestions.Some? then storedWrongQuestions.value else []
    }

    /** `getUserStats`: the stored statistics, or the defaults when nothing is stored. */
    function Stats(): UserStats
      reads this
    {
      if storedStats.Some? then storedStats.value else DefaultStats
    }

    /** `saveWrongQuestion`: stores the list with the question in front when its id is new,
        and writes nothing otherwise. */
    method SaveWrongQuestion(question: WrongQuestion)
      requires Valid()
      modifies this
      ensures WrongQuestions() == Saved(old(WrongQuestions()), question)
      ensures HasId(old(WrongQuestions()), question.id) ==> storedWrongQuestions == old(storedWrongQuestions)
      ensures storedStats == old(storedStats) && storedHistory == old(storedHistory)
      ensures Valid()
    {
      var existing := WrongQuestions();
      SavedShape(existing, question);
      SavedKeepsIdsUnique(existing, question);
      if FindById(existing, question.id).None? {
        var updated := [question] + existing;
        storedWrongQuestions := Some(updated);
      }
    }

    /** `removeWrongQuestion`: stores the list without the entries with that id. */
    method RemoveWrongQuestion(questionId: string)
      requires Valid()
      modifies this
      ensures storedWrongQuestions == Some(Removed(old(WrongQuestions()), questionId))
      ensures storedStats == old(storedStats) && storedHistory == old(storedHistory)
      ensures Valid()
    {
      var existing := WrongQuestions();
      RemovedKeepsIdsUnique(existing, questionId);
      var updated := Removed(existing, questionId);
      storedWrongQuestions := Some(updated);
    }

    /** `updateStats`, on day `today`: the counters, then the streak, then the write. */
    method UpdateStats(isCorrect: bool, section: Section, today: int)
      requires Valid()
      modifies this
      ensures storedStats == Some(StatsAfter(old(Stats()), isCorrect, section, today))
      ensures storedWrongQuestions == old(storedWrongQuestions) && storedHistory == old(storedHistory)
      ensures Valid()
    {
      ghost var before := Stats();
      StatsAfterConsistent(before, isCorrect, section, today);
      var stats := Stats();
      stats := stats.(totalQuestionsAnswered := stats.totalQuestionsAnswered + 1);
      if isCorrect {
        stats := stats.(correctAnswers := stats.correctAnswers + 1);
        if section == Listening {
          stats := stats.(listeningScore := stats.listeningScore + 5);
        }
        if section == Reading {
          stats := stats.(readingScore := stats.readingScore + 5);
        }
        if section == Vocabulary {
          stats := stats.(vocabularyScore := stats.vocabularyScore + 5);
        }
      }
      assert stats == Counted(before, isCorrect, section);
      if stats.lastActiveDate != Some(today) {
        if stats.lastActiveDate.Some? && stats.lastActiveDate.value == today - 1 {
          stats := stats.(streakDays := stats.streakDays + 1);
        } else {
          stats := stats.(streakDays := 1);
        }
        stats := stats.(lastActiveDate := Some(today));
      }
      assert stats == StatsAfter(before, isCorrect, section, today);
      storedStats := Some(stats);
    }

    /** `clearAllData`: removes every key, so the statistics read as the defaults and the
        mistake list as empty. */
    method ClearAllData()
      modifies this
      ensures storedWrongQuestions.None? && storedStats.None? && storedHistory.None?
      ensures WrongQuestions() == [] && Stats() == DefaultStats
      ensures Valid()
    {
      storedWrongQuestions := None;
      storedStats := None;
      storedHistory := None;
    }
  }
}
