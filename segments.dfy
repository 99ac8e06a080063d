/** Cutting a text at the matches of a header pattern, as the `exec` loops of `parseQuestions` and
    `extractTestQuestions` in scripts/convert_data.js do: each header labels the text from its
    end to the start of the next header, or to the end of the text; text before the first header
    belongs to no piece. A piece is named by its header's first group. */
module Segments {
  import opened Scan

  /** Where the piece after match `k` stops: the start of the next match, or the end of `s`. */
  function PieceEnd(s: string, ms: seq<Match>, k: nat): nat
    requires k < |ms|
  {
    if k + 1 < |ms| then ms[k + 1].start else |s|
  }

  /** The pieces from `from` on, the open piece having label `name` and starting at `from`: the
      loop's view, with the previous header's name and end carried along. */
  function PiecesFrom(p: Pattern, s: string, name: string, from: nat): seq<(string, string)>
    requires GroupCount(p) >= 1 && from <= |s|
    decreases |s| - from
  {
    match Search(p, s, from)
    case None => [(name, s[from..])]
    case Some(m) => [(name, s[from..m.start])] + PiecesFrom(p, s, m.groups[0], m.end)
  }

  /** The labelled pieces of `s`: those after a header, the text before the first header (the
      open piece with no name) being dropped. */
  function Pieces(p: Pattern, s: string): seq<(string, string)>
    requires GroupCount(p) >= 1
  {
    PiecesFrom(p, s, "", 0)[1..]
  }

  /** The matches of a list cut `s` from `from` on, in order and without overlapping. */
  predicate Cuts(s: string, from: nat, ms: seq<Match>) {
    && (|ms| > 0 ==> from <= ms[0].start)
    && (forall k :: 0 <= k < |ms| ==> |ms[k].groups| >= 1 && ms[k].start <= ms[k].end <= |s|)
    && (forall k :: 0 <= k < |ms| - 1 ==> ms[k].end <= ms[k + 1].start)
  }

  /** The pieces a list of matches cuts from `s`, the open piece having label `name` and
      starting at `from`. */
  function PiecesOf(s: string, name: string, from: nat, ms: seq<Match>): seq<(string, string)>
    requires from <= |s| && Cuts(s, from, ms)
    decreases |ms|
  {
    if |ms| == 0 then [(name, s[from..])]
    else
      CutsTail(s, from, ms);
      [(name, s[from..ms[0].start])] + PiecesOf(s, ms[0].groups[0], ms[0].end, ms[1..])
  }

  lemma CutsTail(s: string, from: nat, ms: seq<Match>)
    requires |ms| > 0 && Cuts(s, from, ms)
    ensures ms[0].end <= |s| && Cuts(s, ms[0].end, ms[1..])
  {
    var rest := ms[1..];
    assert forall k :: 0 <= k < |rest| ==> rest[k] == ms[k + 1];
  }

  lemma PieceEndShift(s: string, ms: seq<Match>, k: nat)
    requires 0 < k < |ms|
    ensures PieceEnd(s, ms, k) == PieceEnd(s, ms[1..], k - 1)
  {
  }

  /** `PiecesFrom` is `PiecesOf` the list of matches. */
  lemma {:induction false} PiecesFromIsPiecesOf(p: Pattern, s: string, name: string, from: nat)
    requires GroupCount(p) >= 1 && from <= |s|
    ensures var ms := AllMatches(p, s, from);
      PiecesFrom(p, s, name, from) == PiecesOf(s, name, from, ms)
    decreases |s| - from
  {
    match Search(p, s, from)
    case None =>
    case Some(m) =>
      var rest := AllMatches(p, s, m.end);
      assert AllMatches(p, s, from) == [m] + rest;
      assert ([m] + rest)[1..] == rest;
      PiecesFromIsPiecesOf(p, s, m.groups[0], m.end);
  }

  /** `PiecesOf` by index: one piece for the open name, then one per match, each running from the
      match's end to the next match's start or the end of `s`. */
  lemma {:induction false} PiecesOfIndex(s: string, name: string, from: nat, ms: seq<Match>)
    requires from <= |s| && Cuts(s, from, ms)
    ensures var ps := PiecesOf(s, name, from, ms);
      && |ps| == |ms| + 1
      && ps[0] == (name, s[from..if |ms| > 0 then ms[0].start else |s|])
      && forall k :: 0 <= k < |ms| ==> ps[k + 1] == (ms[k].groups[0], s[ms[k].end..PieceEnd(s, ms, k)])
    decreases |ms|
  {
    if |ms| == 0 {
      assert s[from..] == s[from..|s|];
    } else {
      var rest := ms[1..];
      CutsTail(s, from, ms);
      PiecesOfIndex(s, ms[0].groups[0], ms[0].end, rest);
      var tail := PiecesOf(s, ms[0].groups[0], ms[0].end, rest);
      var ps := PiecesOf(s, name, from, ms);
      assert ps == [(name, s[from..ms[0].start])] + tail;
      forall k | 0 <= k < |ms|
        ensures ps[k + 1] == (ms[k].groups[0], s[ms[k].end..PieceEnd(s, ms, k)])
      {
        assert ps[k + 1] == tail[k];
        if k > 0 {
          assert ms[k] == rest[k - 1];
          PieceEndShift(s, ms, k);
        }
      }
    }
  }

  /** One piece per header, in header order, labelled by the header's group and running from the
      header's end to the next header's start or the end of the text. */
  lemma PiecesMatchHeaders(p: Pattern, s: string)
    requires GroupCount(p) >= 1
    ensures var ms := AllMatches(p, s, 0); var ps := Pieces(p, s);
      && |ps| == |ms|
      && forall k :: 0 <= k < |ms| ==> ps[k] == (ms[k].groups[0], s[ms[k].end..PieceEnd(s, ms, k)])
  {
    PiecesFromIsPiecesOf(p, s, "", 0);
    PiecesOfIndex(s, "", 0, AllMatches(p, s, 0));
  }

  /** No header starts inside a piece, and the pieces follow each other without overlapping. */
  lemma PiecesDisjoint(p: Pattern, s: string)
    requires GroupCount(p) >= 1
    ensures var ms := AllMatches(p, s, 0);
      && (forall k :: 0 <= k < |ms| ==> ms[k].end <= PieceEnd(s, ms, k) <= |s|)
      && (forall k :: 0 <= k < |ms| - 1 ==> PieceEnd(s, ms, k) < ms[k + 1].end)
      && (forall k :: 0 <= k < |ms| ==> NoMatchIn(p, s, ms[k].end, PieceEnd(s, ms, k)))
  {
    var ms := AllMatches(p, s, 0);
    AllMatchesScanned(p, s, 0);
    forall k | 0 <= k < |ms|
      ensures NoMatchIn(p, s, ms[k].end, PieceEnd(s, ms, k))
    {
      if k + 1 < |ms| {
        assert NoMatchIn(p, s, ms[k].end, ms[k + 1].start);
      } else {
        assert k == |ms| - 1;
      }
    }
  }
}
