/** The statistics panel (src/components/GameStats.tsx): elapsed time,
    placed and total piece counts and the completion percentage. */
module GameStats {
  import opened Types
  import opened Text
  import opened Pieces
  import opened Arithmetic

  /** `getPlacedPieces`: the number of placed pieces. */
  function PlacedCount(pieces: seq<Piece>): (n: nat)
    ensures n <= |pieces|
    ensures n == |pieces| <==> forall i :: 0 <= i < |pieces| ==> pieces[i].isPlaced
    ensures n + |Unplaced(pieces)| == |pieces|
  {
    PlacedUnplacedPartition(pieces);
    UnplacedEmptyIffAllPlaced(pieces);
    |Placed(pieces)|
  }

  /** `getTotalPieces`. */
  function TotalPieces(pieces: seq<Piece>): nat
  {
    |pieces|
  }

  /** `getCompletionPercentage`: 0 without pieces, otherwise
      `Math.round(placed / total * 100)`, computed exactly: the nearest integer
      to 100 * placed / total, halves rounded up. */
  function CompletionPercentage(pieces: seq<Piece>): (r: int)
    ensures 0 <= r <= 100
    ensures |pieces| == 0 ==> r == 0
    ensures |pieces| > 0 ==>
              200 * PlacedCount(pieces) - |pieces| < 2 * |pieces| * r <= 200 * PlacedCount(pieces) + |pieces|
    ensures |pieces| > 0 && PlacedCount(pieces) == |pieces| ==> r == 100
    ensures PlacedCount(pieces) == 0 ==> r == 0
  {
    var total := TotalPieces(pieces);
    if total == 0 then 0
    else
      var placed := PlacedCount(pieces);
      RoundHalfUp(placed, total);
      (200 * placed + total) / (2 * total)
  }

  /** `(200p + t) / (2t)` is the rounded percentage of p out of t. */
  lemma RoundHalfUp(p: nat, t: nat)
    requires 0 < t && p <= t
    ensures var r := (200 * p + t) / (2 * t);
            0 <= r <= 100 && 200 * p - t < 2 * t * r <= 200 * p + t &&
            (p == t ==> r == 100) && (p == 0 ==> r == 0)
  {
    var d := 2 * t;
    var n := 200 * p + t;
    var r := n / d;
    var m := n % d;
    assert n == r * d + m && 0 <= m < d;
    assert 2 * t * r == r * d;
    if r > 100 {
      MulMono(101, r, d);
      MulMono(p, t, 200);
    }
    if p == t {
      DivModUnique(n, d, 100, t);
    }
    if p == 0 {
      DivModUnique(n, d, 0, t);
    }
  }

  /** `getElapsedTime`: "00:00" before the level starts; otherwise whole
      seconds from the start to the end time, or to `now` while running, as
      minutes and remaining seconds, each padded to two digits. */
  function ElapsedTime(startTime: Option<int>, endTime: Option<int>, now: int): string
  {
    if startTime == None then "00:00"
    else
      var end := if endTime != None then endTime.value else now;
      ClockText((end - startTime.value) / 1000)
  }

  /** Whole minutes and the remaining seconds (`%`, so negative for a negative
      input), each padded to two characters. */
  function ClockText(elapsed: int): string
  {
    var minutes := elapsed / 60;
    var seconds := JsRem(elapsed, 60);
    PadStart2(IntToString(minutes)) + ":" + PadStart2(IntToString(seconds))
  }

  /** Any non-negative number of seconds, written as padded minutes and
      padded seconds, reads back as those minutes and seconds. */
  lemma PaddedClockRoundTrip(elapsed: nat)
    ensures var text := ClockText(elapsed);
            var parsed := ParseClock(text);
            parsed.Some? && parsed.value.0 * 60 + parsed.value.1 == elapsed && parsed.value.1 < 60 &&
            |text| >= 5
  {
    var m := NatToString(elapsed / 60);
    var s := NatToString(elapsed % 60);
    PadStart2Value(m);
    PadStart2Value(s);
    NatToStringRoundTrip(elapsed / 60);
    NatToStringRoundTrip(elapsed % 60);
    ParseClockJoin(PadStart2(m), PadStart2(s));
  }

  /** Once started, and with an end time not before the start, the text reads
      back as minutes and seconds making up the elapsed whole seconds, both
      written with at least two digits. */
  lemma ElapsedTimeRoundTrip(start: int, endTime: Option<int>, now: int)
    requires (if endTime != None then endTime.value else now) >= start
    ensures var end := if endTime != None then endTime.value else now;
            var parsed := ParseClock(ElapsedTime(Some(start), endTime, now));
            parsed.Some? && parsed.value.0 * 60 + parsed.value.1 == (end - start) / 1000 &&
            parsed.value.1 < 60
    ensures |ElapsedTime(Some(start), endTime, now)| >= 5
  {
    var end := if endTime != None then endTime.value else now;
    var elapsed := (end - start) / 1000;
    assert ElapsedTime(Some(start), endTime, now) == ClockText(elapsed);
    PaddedClockRoundTrip(elapsed);
  }

  /** Before the level starts the clock shows "00:00", which reads as zero. */
  lemma ElapsedTimeBeforeStart(endTime: Option<int>, now: int)
    ensures ElapsedTime(None, endTime, now) == "00:00"
    ensures ParseClock(ElapsedTime(None, endTime, now)) == Some((0, 0))
  {
    assert "00:00" == "00" + ":" + "00";
    ParseClockJoin("00", "00");
    assert DigitsValue("00") == 0 by {
      assert "00"[..1] == "0";
    }
  }
}
