/** The live metrics of the typing test: accuracy (calculateAccuracy), words
    per minute and raw words per minute (the interval body and
    calculateResults), and the countdown (the interval body). All of them are
    Math.round of an exact quotient; see module Rounding. */
module Metrics {
  import opened Rounding

  /** Length of a session in seconds. */
  const SessionSeconds: int := 30
  /** A "word" is five characters. */
  const CharsPerWord: int := 5
  const MsPerMinute: int := 60000
  const MsPerSecond: int := 1000
  /** The elapsed time from which the rounded countdown shows 0: 29.5 seconds. */
  const FinishMs: int := SessionSeconds * MsPerSecond - MsPerSecond / 2

  /** Accuracy in percent: round(100 * correct / total), or 100 when
      nothing has been attempted. */
  function Accuracy(correct: nat, incorrect: nat, extra: nat): (a: int)
    ensures 0 <= a <= 100
    ensures correct + incorrect + extra == 0 ==> a == 100
    ensures incorrect + extra == 0 ==> a == 100
    ensures correct == 0 < incorrect + extra ==> a == 0
  {
    var total := correct + incorrect + extra;
    if total > 0 then
      RoundDivBetween(100 * correct, total, 100);
      RoundDivExact(100, total);
      RoundDivExact(0, total);
      RoundDiv(100 * correct, total)
    else
      100
  }

  /** Accuracy is Math.round((correct / total) * 100) over exact rationals. */
  lemma AccuracyIsRoundedRatio(correct: nat, incorrect: nat, extra: nat)
    requires correct + incorrect + extra > 0
    ensures Accuracy(correct, incorrect, extra)
            == Round((correct as real / (correct + incorrect + extra) as real) * 100.0)
  {
    var total := correct + incorrect + extra;
    RoundDivIsRound(100 * correct, total);
    assert (correct as real / total as real) * 100.0 == (100 * correct) as real / total as real;
  }

  /** Characters per minute over five, rounded: Math.round(chars / 5 / minutes)
      with minutes = elapsedMs / 60000, kept as one exact quotient. */
  function Wpm(chars: nat, elapsedMs: int): (w: nat)
    requires elapsedMs > 0
    ensures w == 0 <==> 2 * chars * MsPerMinute < CharsPerWord * elapsedMs
  {
    RoundDivZero(chars * MsPerMinute, CharsPerWord * elapsedMs);
    RoundDivMonotone(0, chars * MsPerMinute, CharsPerWord * elapsedMs);
    RoundDivExact(0, CharsPerWord * elapsedMs);
    RoundDiv(chars * MsPerMinute, CharsPerWord * elapsedMs)
  }

  /** Wpm is Math.round(chars / 5 / (elapsedMs / 60000)) over exact rationals. */
  lemma WpmIsRoundedRate(chars: nat, elapsedMs: int)
    requires elapsedMs > 0
    ensures Wpm(chars, elapsedMs)
            == Round(chars as real / 5.0 / (elapsedMs as real / 60000.0))
  {
    var n, d := chars * MsPerMinute, CharsPerWord * elapsedMs;
    RoundDivIsRound(n, d);
    var e := elapsedMs as real;
    assert chars as real / 5.0 / (e / 60000.0) == n as real / d as real by {
      assert e / 60000.0 != 0.0;
      assert chars as real / 5.0 / (e / 60000.0) == (chars as real * 60000.0) / (5.0 * e);
    }
  }

  /** Over the same elapsed time, more characters never give fewer words per
      minute; in particular wpm (correct only) <= raw wpm (all attempted). */
  lemma WpmMonotone(chars1: nat, chars2: nat, elapsedMs: int)
    requires elapsedMs > 0 && chars1 <= chars2
    ensures Wpm(chars1, elapsedMs) <= Wpm(chars2, elapsedMs)
  {
    RoundDivMonotone(chars1 * MsPerMinute, chars2 * MsPerMinute, CharsPerWord * elapsedMs);
  }

  /** Seconds left: max(0, 30 - Math.round(elapsedMs / 1000)). Because of the
      rounding the countdown shows 0 from 29.5 seconds on. */
  function TimeLeft(elapsedMs: int): (t: int)
    ensures 0 <= t
    ensures elapsedMs >= 0 ==> t <= SessionSeconds
    ensures t == 0 <==> elapsedMs >= FinishMs
  {
    var r := RoundDiv(elapsedMs, MsPerSecond);
    SecondsReachSession(elapsedMs);
    if SessionSeconds - r > 0 then SessionSeconds - r else 0
  }

  /** TimeLeft is Math.max(0, 30 - Math.round(elapsedMs / 1000)) over exact rationals. */
  lemma TimeLeftIsClampedRound(elapsedMs: int)
    ensures TimeLeft(elapsedMs) == Max(0, 30 - Round(elapsedMs as real / 1000.0))
  {
    RoundDivIsRound(elapsedMs, MsPerSecond);
  }

  /** The countdown never goes back up as time passes. */
  lemma TimeLeftNonIncreasing(elapsed1: int, elapsed2: int)
    requires elapsed1 <= elapsed2
    ensures TimeLeft(elapsed2) <= TimeLeft(elapsed1)
  {
    RoundDivMonotone(elapsed1, elapsed2, MsPerSecond);
  }

  /** Math.round(elapsedMs / 1000) reaches 30 exactly from FinishMs (29500 ms) on, and
      is non-negative for a non-negative elapsed time. */
  lemma SecondsReachSession(elapsedMs: int)
    ensures RoundDiv(elapsedMs, MsPerSecond) >= SessionSeconds
            <==> elapsedMs >= FinishMs
    ensures elapsedMs >= 0 ==> RoundDiv(elapsedMs, MsPerSecond) >= 0
  {
    if elapsedMs >= 0 {
      RoundDivMonotone(0, elapsedMs, MsPerSecond);
    }
    if elapsedMs >= FinishMs {
      RoundDivMonotone(FinishMs, elapsedMs, MsPerSecond);
    } else {
      RoundDivMonotone(elapsedMs, FinishMs - 1, MsPerSecond);
    }
  }

  function Max(a: int, b: int): int {
    if a >= b then a else b
  }
}
