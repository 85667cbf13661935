/** The typing session: the component state of the typing test, the three
    events that change it (an input change, a timer tick, a restart) as pure
    transition functions with their properties, and a class that holds the
    state in mutable fields and is proved to follow those functions. */
module Session {
  import opened Classifier
  import opened Metrics
  import Display
  import Rounding

  datatype Option<T> = None | Some(value: T)

  /** JavaScript truthiness of `startTime: number | null`: null and 0 are
      both falsy, so a session counts as started only on a non-zero time. */
  predicate Started(startTime: Option<int>) {
    startTime.Some? && startTime.value != 0
  }

  /** The component state, field for field. */
  datatype State = State(
    currentText: string,
    userInput: string,
    startTime: Option<int>,
    charIndex: nat,
    correctChars: nat,
    incorrectChars: nat,
    extraChars: nat,
    wpm: int,
    rawWpm: int,
    accuracy: int,
    isFinished: bool,
    timeLeft: int)
  {
    /** correct + incorrect + extra, the "total" of the results panel. */
    function TotalChars(): nat {
      correctChars + incorrectChars + extraChars
    }
  }

  /** The initial values of every field, with the given target text; they
      satisfy the state invariant and the session has not started. */
  function Initial(text: string): (s: State)
    ensures Consistent(s) && !Started(s.startTime) && s.currentText == text
  {
    State(text, "", None, 0, 0, 0, 0, 0, 0, 100, false, SessionSeconds)
  }

  /** What holds of every state the component can reach: the counters and
      the cursor are those of the classifier on the current input, accuracy
      is their accuracy, 0 <= wpm <= rawWpm, the countdown lies in [0, 30],
      the session is finished exactly when it has started and the countdown
      shows 0, and before the start nothing has been measured. */
  predicate Consistent(s: State) {
    && s.charIndex == |s.userInput|
    && Counts(s.correctChars, s.incorrectChars, s.extraChars) == Classify(s.currentText, s.userInput)
    && s.accuracy == Accuracy(s.correctChars, s.incorrectChars, s.extraChars)
    && 0 <= s.wpm <= s.rawWpm
    && 0 <= s.timeLeft <= SessionSeconds
    && (s.isFinished <==> Started(s.startTime) && s.timeLeft == 0)
    && (!Started(s.startTime) ==> s.timeLeft == SessionSeconds && s.wpm == 0 && s.rawWpm == 0)
  }

  /** The input change handler. A finished session ignores input (the text
      field is disabled). Otherwise the first change records the start time,
      and the counters, the cursor and accuracy are recomputed from scratch. */
  function AfterInput(s: State, input: string, nowMs: int): (r: State)
    ensures r.currentText == s.currentText && r.isFinished == s.isFinished
    ensures r.wpm == s.wpm && r.rawWpm == s.rawWpm && r.timeLeft == s.timeLeft
  {
    if s.isFinished then s
    else
      var c := Classify(s.currentText, input);
      s.(userInput := input,
         startTime := if Started(s.startTime) then s.startTime else Some(nowMs),
         correctChars := c.correct,
         incorrectChars := c.incorrect,
         extraChars := c.extra,
         charIndex := |input|,
         accuracy := Accuracy(c.correct, c.incorrect, c.extra))
  }

  /** The timer runs while the session has started and is not finished. */
  predicate Ticking(s: State) {
    Started(s.startTime) && !s.isFinished
  }

  /** The clock reading lies strictly after the start time; the source
      divides by the elapsed time and does not guard against zero. */
  predicate ClockAfterStart(s: State, nowMs: int) {
    Started(s.startTime) ==> nowMs > s.startTime.value
  }

  /** calculateResults: wpm and raw wpm from the elapsed time, if started. */
  function WithResults(s: State, nowMs: int): (r: State)
    requires ClockAfterStart(s, nowMs)
    ensures r.(wpm := s.wpm, rawWpm := s.rawWpm) == s
    ensures Started(s.startTime) ==> 0 <= r.wpm <= r.rawWpm
  {
    if Started(s.startTime) then
      var elapsed := nowMs - s.startTime.value;
      WpmMonotone(s.correctChars, s.TotalChars(), elapsed);
      s.(wpm := Wpm(s.correctChars, elapsed), rawWpm := Wpm(s.TotalChars(), elapsed))
    else s
  }

  /** One firing of the interval timer: wpm, raw wpm and the countdown from
      the elapsed time; when the countdown reaches 0 the session finishes and
      the results are computed once more. No timer runs otherwise. */
  function AfterTick(s: State, nowMs: int): (r: State)
    requires ClockAfterStart(s, nowMs)
    ensures r.(wpm := s.wpm, rawWpm := s.rawWpm, timeLeft := s.timeLeft, isFinished := s.isFinished) == s
    ensures s.isFinished ==> r.isFinished
  {
    if !Ticking(s) then s
    else
      var elapsed := nowMs - s.startTime.value;
      var t := TimeLeft(elapsed);
      var s1 := s.(wpm := Wpm(s.correctChars, elapsed),
                   rawWpm := Wpm(s.TotalChars(), elapsed),
                   timeLeft := t);
      if t == 0 then WithResults(s1.(isFinished := true), nowMs) else s1
  }

  /** An input change keeps the state consistent. */
  lemma InputKeepsConsistent(s: State, input: string, nowMs: int)
    requires Consistent(s)
    ensures Consistent(AfterInput(s, input, nowMs))
  {
  }

  /** An accepted input change classifies the whole input: the counters add
      up to its length, correct + incorrect is min(|input|, |text|), extra is
      max(0, |input| - |text|), and charIndex is |input|. */
  lemma InputCountsEveryCharacter(s: State, input: string, nowMs: int)
    requires !s.isFinished
    ensures var r := AfterInput(s, input, nowMs);
            && r.userInput == input
            && r.charIndex == |input|
            && r.TotalChars() == |input|
            && r.correctChars + r.incorrectChars == (if |input| <= |s.currentText| then |input| else |s.currentText|)
            && r.extraChars == (if |input| <= |s.currentText| then 0 else |input| - |s.currentText|)
  {
    ClassifyTotals(s.currentText, input);
  }

  /** Typing an exact prefix of the target gives no incorrect or extra
      characters and 100% accuracy, and only such input does. */
  lemma PrefixInputIsPerfect(s: State, input: string, nowMs: int)
    requires !s.isFinished
    ensures var r := AfterInput(s, input, nowMs);
            (r.incorrectChars == 0 && r.extraChars == 0 <==> IsPrefix(input, s.currentText))
            && (IsPrefix(input, s.currentText) ==> r.accuracy == 100)
  {
    PrefixIffAllCorrect(s.currentText, input);
    ClassifyTotals(s.currentText, input);
  }

  /** The start time is recorded by the first input change while it is
      unset, and no later input change touches it. */
  lemma StartTimeSetOnce(s: State, input: string, nowMs: int)
    ensures Started(s.startTime) ==> AfterInput(s, input, nowMs).startTime == s.startTime
    ensures !Started(s.startTime) && !s.isFinished ==> AfterInput(s, input, nowMs).startTime == Some(nowMs)
  {
  }

  /** A tick keeps the state consistent. */
  lemma TickKeepsConsistent(s: State, nowMs: int)
    requires Consistent(s) && ClockAfterStart(s, nowMs)
    ensures Consistent(AfterTick(s, nowMs))
  {
    if Ticking(s) {
      var elapsed := nowMs - s.startTime.value;
      WpmMonotone(s.correctChars, s.TotalChars(), elapsed);
    }
  }

  /** On a running session a tick computes wpm and raw wpm from one elapsed
      time, 0 <= wpm <= raw wpm, and the countdown from the same elapsed time;
      the session finishes on exactly the tick where the countdown reaches 0,
      which is once 29.5 seconds have elapsed. */
  lemma TickFinishesExactlyAtZero(s: State, nowMs: int)
    requires Consistent(s) && Ticking(s) && ClockAfterStart(s, nowMs)
    ensures var r := AfterTick(s, nowMs);
            var elapsed := nowMs - s.startTime.value;
            && r.wpm == Wpm(s.correctChars, elapsed)
            && r.rawWpm == Wpm(s.TotalChars(), elapsed)
            && 0 <= r.wpm <= r.rawWpm
            && r.timeLeft == TimeLeft(elapsed)
            && 0 <= r.timeLeft <= SessionSeconds
            && (r.isFinished <==> r.timeLeft == 0)
            && (r.isFinished <==> elapsed >= FinishMs)
  {
    WpmMonotone(s.correctChars, s.TotalChars(), nowMs - s.startTime.value);
  }

  /** A finished session is frozen: neither input nor ticks change it. */
  lemma FinishedIsFrozen(s: State, input: string, nowMs: int)
    requires s.isFinished
    ensures AfterInput(s, input, nowMs) == s
    ensures ClockAfterStart(s, nowMs) ==> AfterTick(s, nowMs) == s
  {
  }

  /** Whatever was typed, the display shows as many correct characters as
      correctChars, as many incorrect ones as incorrectChars, and one cursor
      while the input is shorter than the target. */
  lemma DisplayMatchesCounters(s: State)
    requires Consistent(s)
    ensures var r := Display.Render(s.currentText, s.userInput, s.charIndex);
            && Display.CountStyle(r, Display.Correct) == s.correctChars
            && Display.CountStyle(r, Display.Incorrect) == s.incorrectChars
            && Display.CountStyle(r, Display.Cursor) == (if |s.userInput| < |s.currentText| then 1 else 0)
  {
    Display.RenderMatchesCounts(s.currentText, s.userInput);
  }

  /** The events that reach the component. */
  datatype Event = Type(input: string, nowMs: int) | Tick(nowMs: int) | Restart(newText: string)

  /** A tick needs a clock reading after the start time. */
  predicate Allowed(s: State, e: Event) {
    e.Tick? ==> ClockAfterStart(s, e.nowMs)
  }

  function Step(s: State, e: Event): State
    requires Allowed(s, e)
  {
    match e
    case Type(input, nowMs) => AfterInput(s, input, nowMs)
    case Tick(nowMs) => AfterTick(s, nowMs)
    case Restart(newText) => Initial(newText)
  }

  /** Every event of the sequence is allowed in the state it meets. */
  predicate Feasible(s: State, events: seq<Event>)
    decreases |events|
  {
    |events| == 0 || (Allowed(s, events[0]) && Feasible(Step(s, events[0]), events[1..]))
  }

  function Run(s: State, events: seq<Event>): State
    requires Feasible(s, events)
    decreases |events|
  {
    if |events| == 0 then s else Run(Step(s, events[0]), events[1..])
  }

  predicate NoRestart(events: seq<Event>) {
    forall i :: 0 <= i < |events| ==> !events[i].Restart?
  }

  /** Every sequence of events keeps the state consistent. */
  lemma {:induction false} RunKeepsConsistent(s: State, events: seq<Event>)
    requires Consistent(s) && Feasible(s, events)
    ensures Consistent(Run(s, events))
    decreases |events|
  {
    if |events| > 0 {
      match events[0] {
        case Type(input, nowMs) => InputKeepsConsistent(s, input, nowMs);
        case Tick(nowMs) => TickKeepsConsistent(s, nowMs);
        case Restart(_) =>
      }
      RunKeepsConsistent(Step(s, events[0]), events[1..]);
    }
  }

  /** Once started, the start time stays fixed until a restart. */
  lemma {:induction false} RunKeepsStartTime(s: State, events: seq<Event>)
    requires Started(s.startTime) && Feasible(s, events) && NoRestart(events)
    ensures Run(s, events).startTime == s.startTime
    decreases |events|
  {
    if |events| > 0 {
      assert !events[0].Restart?;
      RunKeepsStartTime(Step(s, events[0]), events[1..]);
    }
  }

  /** Once finished, nothing but a restart changes the session. */
  lemma {:induction false} RunFrozenAfterFinish(s: State, events: seq<Event>)
    requires s.isFinished && Feasible(s, events) && NoRestart(events)
    ensures Run(s, events) == s
    decreases |events|
  {
    if |events| > 0 {
      assert !events[0].Restart?;
      RunFrozenAfterFinish(Step(s, events[0]), events[1..]);
    }
  }

  /** The component, with its state in mutable fields. */
  class TypingSession {
    var currentText: string
    var userInput: string
    var startTime: Option<int>
    var charIndex: nat
    var correctChars: nat
    var incorrectChars: nat
    var extraChars: nat
    var wpm: int
    var rawWpm: int
    var accuracy: int
    var isFinished: bool
    var timeLeft: int

    /** The fields as one value. */
    function Snapshot(): State
      reads this
    {
      State(currentText, userInput, startTime, charIndex, correctChars, incorrectChars,
            extraChars, wpm, rawWpm, accuracy, isFinished, timeLeft)
    }

    ghost predicate Valid()
      reads this
    {
      Consistent(Snapshot())
    }

    /** Mounting: every field at its initial value, with the generated text. */
    constructor (text: string)
      ensures Valid() && Snapshot() == Initial(text)
    {
      currentText := text;
      userInput := "";
      startTime := None;
      charIndex := 0;
      correctChars := 0;
      incorrectChars := 0;
      extraChars := 0;
      wpm := 0;
      rawWpm := 0;
      accuracy := 100;
      isFinished := false;
      timeLeft := SessionSeconds;
    }

    /** calculateAccuracy: stores the accuracy of the given counters. */
    method CalculateAccuracy(correct: nat, incorrect: nat, extra: nat)
      modifies this`accuracy
      ensures accuracy == Accuracy(correct, incorrect, extra)
    {
      var totalAttempted := correct + incorrect + extra;
      accuracy := if totalAttempted > 0 then Rounding.RoundDiv(100 * correct, totalAttempted) else 100;
    }

    /** handleInputChange; a disabled (finished) input fires no change. */
    method HandleInputChange(input: string, nowMs: int)
      requires Valid()
      modifies this
      ensures Valid()
      ensures Snapshot() == AfterInput(old(Snapshot()), input, nowMs)
    {
      if isFinished {
        return;
      }
      ghost var next := AfterInput(Snapshot(), input, nowMs);
      InputKeepsConsistent(Snapshot(), input, nowMs);
      userInput := input;
      if !Started(startTime) {
        startTime := Some(nowMs);
      }
      var c := ClassifyInput(currentText, input);
      correctChars := c.correct;
      incorrectChars := c.incorrect;
      extraChars := c.extra;
      charIndex := |input|;
      CalculateAccuracy(c.correct, c.incorrect, c.extra);
      assert Snapshot() == next;
    }

    /** calculateResults: wpm and raw wpm at the end time, if started. */
    method CalculateResults(endMs: int)
      requires ClockAfterStart(Snapshot(), endMs)
      modifies this`wpm, this`rawWpm
      ensures Snapshot() == WithResults(old(Snapshot()), endMs)
      ensures old(Valid()) ==> Valid()
    {
      if Started(startTime) {
        var elapsed := endMs - startTime.value;
        wpm := Wpm(correctChars, elapsed);
        rawWpm := Wpm(correctChars + incorrectChars + extraChars, elapsed);
      }
    }

    /** The body of the interval timer, run only while the timer exists. */
    method Tick(nowMs: int)
      requires Valid() && ClockAfterStart(Snapshot(), nowMs)
      modifies this
      ensures Valid()
      ensures Snapshot() == AfterTick(old(Snapshot()), nowMs)
    {
      TickKeepsConsistent(Snapshot(), nowMs);
      if !Started(startTime) || isFinished {
        return;
      }
      ghost var next := AfterTick(Snapshot(), nowMs);
      var elapsed := nowMs - startTime.value;
      wpm := Wpm(correctChars, elapsed);
      rawWpm := Wpm(correctChars + incorrectChars + extraChars, elapsed);
      var newTimeLeft := TimeLeft(elapsed);
      timeLeft := newTimeLeft;
      if newTimeLeft == 0 {
        isFinished := true;
        CalculateResults(nowMs);
      }
      assert Snapshot() == next;
    }

    /** restartTest: every field back to its initial value, with new text. */
    method RestartTest(newText: string)
      modifies this
      ensures Valid() && Snapshot() == Initial(newText)
    {
      userInput, startTime, charIndex := "", None, 0;
      correctChars, incorrectChars, extraChars := 0, 0, 0;
      wpm, rawWpm, accuracy := 0, 0, 100;
      isFinished, timeLeft := false, SessionSeconds;
      currentText := newText;
    }

    /** The per-character looks of the target text as rendered. */
    function Styles(): (r: seq<Display.Style>)
      reads this
      requires Valid()
      ensures |r| == |currentText|
      ensures Display.CountStyle(r, Display.Correct) == correctChars
      ensures Display.CountStyle(r, Display.Incorrect) == incorrectChars
    {
      DisplayMatchesCounters(Snapshot());
      Display.Render(currentText, userInput, charIndex)
    }
  }
}
