/** Level scores, session totals and letter grades (src/utils/scoring.ts). */
module Scoring {
  import opened Types

  function Max(a: int, b: int): int { if a >= b then a else b }

  /** The score of a correctly completed level finished in `timeUsed` whole
      seconds: 100, minus one point per second beyond 5, plus 20 when done
      within 10 seconds, never below 0. `Math.round` leaves the integer as it is. */
  function CalculateScore(timeUsed: int): (r: int)
    ensures timeUsed <= 5 ==> r == 120
    ensures 5 < timeUsed <= 10 ==> r == 125 - timeUsed
    ensures 10 < timeUsed ==> r == Max(0, 105 - timeUsed)
    ensures 0 <= r <= 120
  {
    var basePoints := 100;
    var timePenalty := Max(0, timeUsed - 5);
    var timeBonus := if timeUsed <= 10 then 20 else 0;
    Max(0, basePoints - timePenalty + timeBonus)
  }

  /** Taking longer never earns more. */
  lemma ScoreNonIncreasing(t1: int, t2: int)
    requires t1 <= t2
    ensures CalculateScore(t2) <= CalculateScore(t1)
  {
  }

  /** A few points of the curve: the bonus makes 6 to 10 seconds score above 100,
      and the 20-point bonus is lost between 10 and 11 seconds. */
  lemma ScoreSamples()
    ensures CalculateScore(0) == 120 && CalculateScore(5) == 120 && CalculateScore(8) == 117
    ensures CalculateScore(10) == 115 && CalculateScore(11) == 94
    ensures CalculateScore(105) == 0 && CalculateScore(1000) == 0
  {
  }

  /** `levelResults.reduce((total, r) => total + r.score, acc)`. */
  function SumScores(results: seq<LevelResult>, acc: int): int
  {
    if results == [] then acc else SumScores(results[1..], acc + results[0].score)
  }

  /** `levelResults.reduce((total, r) => total + r.timeUsed, acc)`. */
  function SumTimes(results: seq<LevelResult>, acc: int): int
  {
    if results == [] then acc else SumTimes(results[1..], acc + results[0].timeUsed)
  }

  function CalculateTotalScore(results: seq<LevelResult>): int
  {
    SumScores(results, 0)
  }

  function CalculateTotalTime(results: seq<LevelResult>): int
  {
    SumTimes(results, 0)
  }

  lemma {:induction false} SumScoresAppend(xs: seq<LevelResult>, r: LevelResult, acc: int)
    ensures SumScores(xs + [r], acc) == SumScores(xs, acc) + r.score
  {
    if xs != [] {
      assert (xs + [r])[1..] == xs[1..] + [r];
      SumScoresAppend(xs[1..], r, acc + xs[0].score);
    }
  }

  lemma {:induction false} SumTimesAppend(xs: seq<LevelResult>, r: LevelResult, acc: int)
    ensures SumTimes(xs + [r], acc) == SumTimes(xs, acc) + r.timeUsed
  {
    if xs != [] {
      assert (xs + [r])[1..] == xs[1..] + [r];
      SumTimesAppend(xs[1..], r, acc + xs[0].timeUsed);
    }
  }

  /** The total score of no results is 0, and appending one result adds its score. */
  lemma TotalScoreAppend(xs: seq<LevelResult>, r: LevelResult)
    ensures CalculateTotalScore([]) == 0
    ensures CalculateTotalScore(xs + [r]) == CalculateTotalScore(xs) + r.score
  {
    SumScoresAppend(xs, r, 0);
  }

  /** The total time of no results is 0, and appending one result adds its time. */
  lemma TotalTimeAppend(xs: seq<LevelResult>, r: LevelResult)
    ensures CalculateTotalTime([]) == 0
    ensures CalculateTotalTime(xs + [r]) == CalculateTotalTime(xs) + r.timeUsed
  {
    SumTimesAppend(xs, r, 0);
  }

  /** When every level score lies in [0, 120], so does the total, scaled by the number of levels. */
  lemma {:induction false} TotalScoreBounds(results: seq<LevelResult>)
    requires forall i :: 0 <= i < |results| ==> 0 <= results[i].score <= 120
    ensures 0 <= CalculateTotalScore(results) <= 120 * |results|
  {
    if results != [] {
      var xs := results[..|results| - 1];
      assert results == xs + [results[|results| - 1]];
      TotalScoreBounds(xs);
      TotalScoreAppend(xs, results[|results| - 1]);
    }
  }

  /** The letter grade of a score. */
  function GetScoreGrade(score: int): (r: string)
    ensures r == "A+" <==> 90 <= score
    ensures r == "A" <==> 80 <= score < 90
    ensures r == "B" <==> 70 <= score < 80
    ensures r == "C" <==> 60 <= score < 70
    ensures r == "D" <==> 50 <= score < 60
    ensures r == "F" <==> score < 50
  {
    if score >= 90 then "A+"
    else if score >= 80 then "A"
    else if score >= 70 then "B"
    else if score >= 60 then "C"
    else if score >= 50 then "D"
    else "F"
  }

  /** Position of a grade in the order F < D < C < B < A < A+. */
  function GradeRank(grade: string): int
  {
    if grade == "A+" then 5
    else if grade == "A" then 4
    else if grade == "B" then 3
    else if grade == "C" then 2
    else if grade == "D" then 1
    else 0
  }

  /** A higher score never gets a lower grade. */
  lemma GradeMonotone(s1: int, s2: int)
    requires s1 <= s2
    ensures GradeRank(GetScoreGrade(s1)) <= GradeRank(GetScoreGrade(s2))
  {
  }
}
