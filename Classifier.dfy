/** The input classifier of the typing test (handleInputChange): every
    character typed so far is compared with the target text at the same index
    and counted as correct, incorrect or extra. */
module Classifier {

  /** What one typed character counts as. */
  datatype Kind = Correct | Incorrect | Extra

  /** The three counters the classifier produces. */
  datatype Counts = Counts(correct: nat, incorrect: nat, extra: nat) {
    /** All attempted characters: correct + incorrect + extra. */
    function Total(): nat {
      correct + incorrect + extra
    }
  }

  /** The kind of the typed character at index i: inside the target it is
      correct or incorrect by equality, at or past the end it is extra. */
  function KindAt(text: string, input: string, i: nat): (k: Kind)
    requires i < |input|
    ensures k == Extra <==> |text| <= i
    ensures k == Correct ==> input[i] == text[i]
  {
    if i < |text| then
      if input[i] == text[i] then Correct else Incorrect
    else
      Extra
  }

  /** Adds one character of kind k to the counters. */
  function Bump(c: Counts, k: Kind): Counts {
    match k
    case Correct => c.(correct := c.correct + 1)
    case Incorrect => c.(incorrect := c.incorrect + 1)
    case Extra => c.(extra := c.extra + 1)
  }

  /** The counters after the first n typed characters. */
  function Tally(text: string, input: string, n: nat): (c: Counts)
    requires n <= |input|
    ensures c.correct + c.incorrect + c.extra == n
  {
    if n == 0 then Counts(0, 0, 0)
    else Bump(Tally(text, input, n - 1), KindAt(text, input, n - 1))
  }

  /** The counters for the whole typed input. */
  function Classify(text: string, input: string): (c: Counts)
    ensures c.correct + c.incorrect + c.extra == |input|
  {
    Tally(text, input, |input|)
  }

  /** The loop of handleInputChange: one pass over the typed input. */
  method ClassifyInput(text: string, input: string) returns (c: Counts)
    ensures c == Classify(text, input)
  {
    var correctCount, incorrectCount, extraCount := 0, 0, 0;
    for i := 0 to |input|
      invariant Counts(correctCount, incorrectCount, extraCount) == Tally(text, input, i)
    {
      if i < |text| {
        if input[i] == text[i] {
          correctCount := correctCount + 1;
        } else {
          incorrectCount := incorrectCount + 1;
        }
      } else {
        extraCount := extraCount + 1;
      }
    }
    c := Counts(correctCount, incorrectCount, extraCount);
  }

  /** The first n characters split into inside-the-target and past-the-end:
      min(n, |text|) of them are correct or incorrect, the rest are extra. */
  lemma {:induction false} TallySplit(text: string, input: string, n: nat)
    requires n <= |input|
    ensures Tally(text, input, n).correct + Tally(text, input, n).incorrect
            == if n <= |text| then n else |text|
    ensures Tally(text, input, n).extra == if n <= |text| then 0 else n - |text|
  {
    if n > 0 {
      TallySplit(text, input, n - 1);
      var c := Tally(text, input, n - 1);
      assert Tally(text, input, n) == Bump(c, KindAt(text, input, n - 1));
    }
  }

  /** correct + incorrect + extra is the length of the input; correct +
      incorrect is min(|input|, |text|); extra is max(0, |input| - |text|). */
  lemma ClassifyTotals(text: string, input: string)
    ensures Classify(text, input).Total() == |input|
    ensures Classify(text, input).correct + Classify(text, input).incorrect
            == if |input| <= |text| then |input| else |text|
    ensures Classify(text, input).extra == if |input| <= |text| then 0 else |input| - |text|
  {
    TallySplit(text, input, |input|);
  }

  /** The input is an exact prefix of the target text. */
  predicate IsPrefix(input: string, text: string) {
    |input| <= |text| && input == text[..|input|]
  }

  /** All of the first n characters are correct exactly when the correct
      counter reaches n. */
  lemma {:induction false} TallyAllCorrect(text: string, input: string, n: nat)
    requires n <= |input|
    ensures Tally(text, input, n).correct <= n
    ensures Tally(text, input, n).correct == n
            <==> forall i :: 0 <= i < n ==> KindAt(text, input, i) == Correct
  {
    if n > 0 {
      TallyAllCorrect(text, input, n - 1);
    }
  }

  /** Every typed character is correct exactly when the input is a prefix of
      the target text; then nothing is incorrect or extra. */
  lemma PrefixIffAllCorrect(text: string, input: string)
    ensures Classify(text, input).correct == |input| <==> IsPrefix(input, text)
    ensures IsPrefix(input, text) ==>
              Classify(text, input).incorrect == 0 && Classify(text, input).extra == 0
  {
    TallyAllCorrect(text, input, |input|);
    TallySplit(text, input, |input|);
    if IsPrefix(input, text) {
      forall i | 0 <= i < |input|
        ensures KindAt(text, input, i) == Correct
      {
        assert input[i] == text[..|input|][i];
      }
    }
    if Classify(text, input).correct == |input| {
      // TallySplit leaves no room for extra characters here
      assert |input| <= |text|;
      forall i | 0 <= i < |input|
        ensures input[i] == text[..|input|][i]
      {
        assert KindAt(text, input, i) == Correct;
      }
    }
  }
}
