/** Worked examples of the tracker on concrete input. */
module Scenarios {
  import opened Classifier
  import opened Metrics
  import Rounding

  /** Target "ab", input "a": one correct character, accuracy 100. */
  lemma TypedFirstCharacter()
    ensures Classify("ab", "a") == Counts(1, 0, 0) && Accuracy(1, 0, 0) == 100
  {
    assert KindAt("ab", "a", 0) == Correct;
  }

  /** Target "ab", input "ax": one correct, one incorrect, accuracy 50. */
  lemma TypedOneMistake()
    ensures Classify("ab", "ax") == Counts(1, 1, 0) && Accuracy(1, 1, 0) == 50
  {
    assert KindAt("ab", "ax", 0) == Correct;
    assert Tally("ab", "ax", 1) == Counts(1, 0, 0);
    assert KindAt("ab", "ax", 1) == Incorrect;
    assert Rounding.RoundDiv(100, 2) == 50;
  }

  /** Target "ab", input "axc": one of each kind, accuracy 33. */
  lemma TypedPastTheEnd()
    ensures Classify("ab", "axc") == Counts(1, 1, 1) && Accuracy(1, 1, 1) == 33
  {
    assert KindAt("ab", "axc", 0) == Correct;
    assert Tally("ab", "axc", 1) == Counts(1, 0, 0);
    assert KindAt("ab", "axc", 1) == Incorrect;
    assert Tally("ab", "axc", 2) == Counts(1, 1, 0);
    assert KindAt("ab", "axc", 2) == Extra;
    assert Rounding.RoundDiv(100, 3) == 33;
  }

  /** Fifty correct characters in exactly one minute are ten words per minute. */
  lemma FiftyCharactersInOneMinute()
    ensures Wpm(50, 60000) == 10
  {
  }

  /** The countdown at 29.499 s still shows 1 second; at 29.5 s it shows 0. */
  lemma CountdownRoundsAtHalfSecond()
    ensures TimeLeft(29499) == 1 && TimeLeft(29500) == 0
  {
  }
}
