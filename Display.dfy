/** The per-character display of the target text: each character of the
    target is shown as typed-correct, typed-incorrect, the cursor, or untyped,
    depending on its index relative to charIndex. */
module Display {
  import C = Classifier

  /** The four looks a target character can have. */
  datatype Style = Correct | Incorrect | Cursor | Untyped

  /** The look of target character i. Before charIndex it is correct when
      the typed character at i equals it; a missing typed character (an
      undefined lookup in the source) never equals it, so it shows as
      incorrect. At charIndex it is the cursor; after it, untyped. */
  function StyleAt(text: string, input: string, charIndex: int, i: nat): (st: Style)
    requires i < |text|
    ensures st == Cursor <==> i == charIndex
    ensures st == Untyped <==> charIndex < i
    ensures st == Correct ==> i < |input| && input[i] == text[i]
  {
    if i < charIndex then
      if i < |input| && text[i] == input[i] then Correct else Incorrect
    else if i == charIndex then Cursor
    else Untyped
  }

  /** The looks of the whole target text, one per character. */
  function Render(text: string, input: string, charIndex: int): (r: seq<Style>)
    ensures |r| == |text|
    ensures 0 <= charIndex < |text| ==> r[charIndex] == Cursor
    ensures forall i :: 0 <= i < |r| && i < charIndex ==> r[i] != Cursor && r[i] != Untyped
  {
    seq(|text|, i requires 0 <= i < |text| => StyleAt(text, input, charIndex, i))
  }

  /** How many entries of r have look st. */
  function CountStyle(r: seq<Style>, st: Style): nat {
    if |r| == 0 then 0
    else CountStyle(r[..|r| - 1], st) + (if r[|r| - 1] == st then 1 else 0)
  }

  /** With charIndex = |input|, a typed position inside the target shows as
      correct exactly when the classifier counts it correct, and otherwise
      shows as incorrect exactly when the classifier counts it incorrect. */
  lemma StyleAgreesWithKind(text: string, input: string, i: nat)
    requires i < |text| && i < |input|
    ensures StyleAt(text, input, |input|, i) == Correct <==> C.KindAt(text, input, i) == C.Correct
    ensures StyleAt(text, input, |input|, i) == Incorrect <==> C.KindAt(text, input, i) == C.Incorrect
  {
  }

  /** Among the first m target characters, the ones shown correct and
      incorrect are those the classifier counts among the first min(m, |input|)
      typed characters; the cursor appears once if it lies among them. */
  lemma {:induction false} CountPrefix(text: string, input: string, m: nat)
    requires m <= |text|
    ensures var r := Render(text, input, |input|)[..m];
            var c := C.Tally(text, input, if m <= |input| then m else |input|);
            CountStyle(r, Correct) == c.correct && CountStyle(r, Incorrect) == c.incorrect
            && CountStyle(r, Cursor) == (if |input| < m then 1 else 0)
  {
    if m > 0 {
      CountPrefix(text, input, m - 1);
      var r := Render(text, input, |input|);
      assert r[..m][..m - 1] == r[..m - 1];
    }
  }

  /** Past the end of the target every typed character is extra, so the
      correct and incorrect counters stop growing there. */
  lemma {:induction false} TallyPastTarget(text: string, input: string, n: nat)
    requires |text| <= n <= |input|
    ensures C.Tally(text, input, n).correct == C.Tally(text, input, |text|).correct
    ensures C.Tally(text, input, n).incorrect == C.Tally(text, input, |text|).incorrect
  {
    if n > |text| {
      TallyPastTarget(text, input, n - 1);
    }
  }

  /** What the screen shows agrees with the counters: as many characters
      are shown correct as correctChars, as many incorrect as incorrectChars,
      and exactly one cursor while the input is shorter than the target. */
  lemma RenderMatchesCounts(text: string, input: string)
    ensures CountStyle(Render(text, input, |input|), Correct) == C.Classify(text, input).correct
    ensures CountStyle(Render(text, input, |input|), Incorrect) == C.Classify(text, input).incorrect
    ensures CountStyle(Render(text, input, |input|), Cursor) == if |input| < |text| then 1 else 0
  {
    var r := Render(text, input, |input|);
    CountPrefix(text, input, |text|);
    assert r[..|text|] == r;
    if |text| <= |input| {
      TallyPastTarget(text, input, |input|);
    }
  }
}
