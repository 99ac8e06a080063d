/** The mock test's results page (app/mocktest/results.tsx): the time taken in words, the
    estimated TOEIC section score and the performance level. The percentage shown and fed to the
    performance level comes from floating point and is taken here as a given number. */
module MockResults {
  import opened Text
  import opened Clock

  // ---------------------------------------------------------------- formatTime

  /** `formatTime`: "<h>小时 <m>分钟 <s>秒" with hours, "<m>分钟 <s>秒" without; no padding. */
  function FormatDuration(seconds: int): string {
    var (hours, minutes, secs) := ClockFields(seconds);
    if hours > 0 then IntStr(hours) + "小时 " + IntStr(minutes) + "分钟 " + IntStr(secs) + "秒"
    else IntStr(minutes) + "分钟 " + IntStr(secs) + "秒"
  }

  /** For a non-negative time the words name the hours (only from one hour on), the minutes
      below 60 and the seconds below 60 that make it up, each written without leading zeros. */
  lemma DurationWords(seconds: int)
    requires seconds >= 0
    ensures var (h, m, s) := ClockFields(seconds);
      && h * 3600 + m * 60 + s == seconds && 0 <= m < 60 && 0 <= s < 60
      && (h > 0 <==> seconds >= 3600)
      && FormatDuration(seconds)
         == (if h > 0 then NatStr(h) + "小时 " else "") + NatStr(m) + "分钟 " + NatStr(s) + "秒"
      && (m < 10 ==> |NatStr(m)| == 1) && (s < 10 ==> |NatStr(s)| == 1)
  {
    FieldsMakeUp(seconds);
  }

  // ---------------------------------------------------------------- estimateTOEICScore

  /** `Math.round`: the nearest integer, halves rounded up. */
  function Round(x: real): int {
    (x + 0.5).Floor
  }

  /** Rounding never moves down past a smaller number. */
  lemma RoundMonotone(x: real, y: real)
    requires x <= y
    ensures Round(x) <= Round(y)
  {
  }

  /** `estimateTOEICScore`: the share of correct answers scaled onto 5–495 and rounded. */
  function EstimateScore(correct: int, total: int): int
    requires total > 0
  {
    Round(5.0 + (correct as real / total as real) * 490.0)
  }

  /** The estimate lies in 5–495 whenever the correct answers are between none and all, reaching
      5 with none correct and 495 with all correct. */
  lemma EstimateBounds(correct: int, total: int)
    requires total > 0 && 0 <= correct <= total
    ensures 5 <= EstimateScore(correct, total) <= 495
    ensures correct == 0 ==> EstimateScore(correct, total) == 5
    ensures correct == total ==> EstimateScore(correct, total) == 495
  {
    var share := correct as real / total as real;
    assert 0.0 <= share <= 1.0 by {
      assert share * total as real == correct as real;
    }
    assert correct == total ==> share == 1.0;
    RoundMonotone(5.0, 5.0 + share * 490.0);
    RoundMonotone(5.0 + share * 490.0, 495.0);
  }

  /** More correct answers never lower the estimate. */
  lemma EstimateMonotone(c1: int, c2: int, total: int)
    requires total > 0 && c1 <= c2
    ensures EstimateScore(c1, total) <= EstimateScore(c2, total)
  {
    var s1 := c1 as real / total as real;
    var s2 := c2 as real / total as real;
    assert s1 <= s2 by {
      assert s2 - s1 == (c2 - c1) as real / total as real;
    }
    RoundMonotone(5.0 + s1 * 490.0, 5.0 + s2 * 490.0);
  }

  /** The page's total: the listening and the reading estimate, each out of 100 questions. */
  function TotalEstimate(listeningCorrect: int, readingCorrect: int): int {
    EstimateScore(listeningCorrect, 100) + EstimateScore(readingCorrect, 100)
  }

  /** The total lies in 10–990 ("预估总分 / 990") for section scores between 0 and 100. */
  lemma TotalEstimateBounds(listeningCorrect: int, readingCorrect: int)
    requires 0 <= listeningCorrect <= 100 && 0 <= readingCorrect <= 100
    ensures 10 <= TotalEstimate(listeningCorrect, readingCorrect) <= 990
  {
    EstimateBounds(listeningCorrect, 100);
    EstimateBounds(readingCorrect, 100);
  }

  // ---------------------------------------------------------------- getPerformanceLevel

  datatype Performance = Performance(level: string, color: string)

  /** `getPerformanceLevel`: the first threshold of 90, 80, 70 and 60 that the percentage
      reaches picks the level. */
  function PerformanceLevel(percentage: real): Performance {
    if percentage >= 90.0 then Performance("登峰造极", "text-jade")
    else if percentage >= 80.0 then Performance("出类拔萃", "text-jade")
    else if percentage >= 70.0 then Performance("渐入佳境", "text-ink")
    else if percentage >= 60.0 then Performance("初窥门径", "text-ink/60")
    else Performance("百废待兴", "text-cinnabar")
  }

  /** The levels from lowest (0) to highest (4). */
  function Rank(p: Performance): nat {
    if p.level == "登峰造极" then 4
    else if p.level == "出类拔萃" then 3
    else if p.level == "渐入佳境" then 2
    else if p.level == "初窥门径" then 1
    else 0
  }

  /** Each level is reached exactly from its threshold on, and green exactly from 80 on. */
  lemma PerformanceThresholds(percentage: real)
    ensures Rank(PerformanceLevel(percentage)) >= 4 <==> percentage >= 90.0
    ensures Rank(PerformanceLevel(percentage)) >= 3 <==> percentage >= 80.0
    ensures Rank(PerformanceLevel(percentage)) >= 2 <==> percentage >= 70.0
    ensures Rank(PerformanceLevel(percentage)) >= 1 <==> percentage >= 60.0
    ensures PerformanceLevel(percentage).color == "text-jade" <==> percentage >= 80.0
  {
  }

  /** A higher percentage never gives a lower level. */
  lemma PerformanceMonotone(p: real, q: real)
    requires p <= q
    ensures Rank(PerformanceLevel(p)) <= Rank(PerformanceLevel(q))
  {
    PerformanceThresholds(p);
    PerformanceThresholds(q);
  }
}
