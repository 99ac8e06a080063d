/** Answer keys: question number (as written in the book) to answer letter, filled by a global
    `exec` loop over number-and-letter pairs. Both conversion scripts build their keys this way
    (scripts/convert_data.js for each line of the reading answer book, scripts/convert_listening.js
    for a whole listening test). */
module AnswerKeys {
  import opened Wrappers
  import opened Scan

  type AnswerKey = map<string, string>

  /** `key[q]`, with `None` for `undefined`. */
  function Lookup(key: AnswerKey, q: string): (r: Option<string>)
    ensures r.Some? <==> q in key
    ensures r.Some? ==> r.value == key[q]
  {
    if q in key then Some(key[q]) else None
  }

  /** `key[q] || null`: the letter stored for `q`, or `None` when there is none or it is empty. */
  function KeyAnswer(key: AnswerKey, q: string): (r: Option<string>)
    ensures r.Some? <==> q in key && key[q] != ""
    ensures r.Some? ==> r.value == key[q]
  {
    if q in key && key[q] != "" then Some(key[q]) else None
  }

  /** The pair patterns: a number and a letter. */
  predicate IsPairPattern(p: Pattern) {
    p == ReadingAnswerPair || p == ListeningAnswerPair
  }

  /** The pairs of `s` from `from` on, stored into `key` in the order they are found. */
  function RecordPairs(p: Pattern, key: AnswerKey, s: string, from: nat): AnswerKey
    requires IsPairPattern(p)
    decreases |s| - from
  {
    match Search(p, s, from)
    case None => key
    case Some(m) => RecordPairs(p, key[m.groups[0] := m.groups[1]], s, m.end)
  }

  /** Reference reading of a list of pair matches: the letter of the last pair numbered `q`. */
  function LastAnswer(ms: seq<Match>, q: string): Option<string>
    requires forall k :: 0 <= k < |ms| ==> |ms[k].groups| == 2
  {
    if |ms| == 0 then None
    else if ms[|ms| - 1].groups[0] == q then Some(ms[|ms| - 1].groups[1])
    else LastAnswer(ms[..|ms| - 1], q)
  }

  lemma {:induction false} LastAnswerCons(m: Match, rest: seq<Match>, q: string)
    requires |m.groups| == 2 && forall k :: 0 <= k < |rest| ==> |rest[k].groups| == 2
    ensures LastAnswer([m] + rest, q)
         == if LastAnswer(rest, q).Some? then LastAnswer(rest, q)
            else if m.groups[0] == q then Some(m.groups[1]) else None
    decreases |rest|
  {
    var ms := [m] + rest;
    if |rest| > 0 {
      assert ms[..|ms| - 1] == [m] + rest[..|rest| - 1];
      LastAnswerCons(m, rest[..|rest| - 1], q);
    }
  }

  /** Every pair is recorded, and where a number occurs more than once the last pair wins: after
      the loop, number `q` reads as the letter of the last pair numbered `q`, or as before when
      no pair has that number. */
  lemma {:induction false} RecordPairsLastWins(p: Pattern, key: AnswerKey, s: string, from: nat, q: string)
    requires IsPairPattern(p)
    ensures var ms := AllMatches(p, s, from);
      Lookup(RecordPairs(p, key, s, from), q)
        == if LastAnswer(ms, q).Some? then LastAnswer(ms, q) else Lookup(key, q)
    decreases |s| - from
  {
    match Search(p, s, from)
    case None =>
    case Some(m) =>
      var rest := AllMatches(p, s, m.end);
      assert AllMatches(p, s, from) == [m] + rest;
      RecordPairsLastWins(p, key[m.groups[0] := m.groups[1]], s, m.end, q);
      LastAnswerCons(m, rest, q);
  }
}
