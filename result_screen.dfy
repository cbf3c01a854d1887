/** The end-of-game summary (src/components/ResultScreen.tsx): the count of
    completed levels, the `m:ss` time format and the score colour. */
module ResultScreen {
  import opened Types
  import opened Text
  import Scoring

  /** `levelResults.filter(r => r.completed).length`. */
  function CompletedLevels(results: seq<LevelResult>): (n: nat)
    ensures n <= |results|
    ensures n == |results| <==> forall i :: 0 <= i < |results| ==> results[i].completed
    ensures n == 0 <==> forall i :: 0 <= i < |results| ==> !results[i].completed
  {
    if results == [] then 0
    else
      var rest := CompletedLevels(results[1..]);
      assert forall i :: 1 <= i < |results| ==> results[i] == results[1..][i - 1];
      (if results[0].completed then 1 else 0) + rest
  }

  /** `formatTime`: whole minutes, unpadded, then the remaining seconds padded
      to two digits. JavaScript's `%` keeps the sign of a negative input. */
  function FormatTime(seconds: int): string
  {
    var mins := seconds / 60;
    var secs := JsRem(seconds, 60);
    IntToString(mins) + ":" + PadStart2(IntToString(secs))
  }

  /** For a non-negative number of seconds the text reads back as minutes and
      seconds with `mins * 60 + secs == seconds` and `secs < 60`, the seconds
      written with at least two digits. */
  lemma FormatTimeRoundTrip(seconds: nat)
    ensures var parsed := ParseClock(FormatTime(seconds));
            parsed.Some? && parsed.value.0 * 60 + parsed.value.1 == seconds && parsed.value.1 < 60
    ensures |FormatTime(seconds)| >= |NatToString(seconds / 60)| + 3
  {
    var m := NatToString(seconds / 60);
    var s := PadStart2(NatToString(seconds % 60));
    PadStart2Value(NatToString(seconds % 60));
    NatToStringRoundTrip(seconds / 60);
    NatToStringRoundTrip(seconds % 60);
    ParseClockJoin(m, s);
  }

  /** Different non-negative times never format the same. */
  lemma FormatTimeInjective(a: nat, b: nat)
    requires FormatTime(a) == FormatTime(b)
    ensures a == b
  {
    FormatTimeRoundTrip(a);
    FormatTimeRoundTrip(b);
  }

  datatype ScoreColor = Green | Orange | Red

  /** `getScoreColor`: green (#4CAF50) from 90, orange (#FF9800) from 70, red
      (#F44336) below. */
  function GetScoreColor(score: int): (c: ScoreColor)
    ensures c == Green <==> score >= 90
    ensures c == Orange <==> 70 <= score < 90
    ensures c == Red <==> score < 70
  {
    if score >= 90 then Green
    else if score >= 70 then Orange
    else Red
  }

  function ColorHex(c: ScoreColor): string
  {
    match c
    case Green => "#4CAF50"
    case Orange => "#FF9800"
    case Red => "#F44336"
  }

  /** The colour agrees with the letter grade: green is exactly an A+, orange
      exactly an A or a B. */
  lemma ColorMatchesGrade(score: int)
    ensures GetScoreColor(score) == Green <==> Scoring.GetScoreGrade(score) == "A+"
    ensures GetScoreColor(score) == Orange <==>
              Scoring.GetScoreGrade(score) == "A" || Scoring.GetScoreGrade(score) == "B"
  {
  }
}
