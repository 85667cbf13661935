# Typing-session tracker of a browser typing test

This project models the logic inside the one React component of a
Monkeytype-style typing test (`app/page.tsx`). The component shows a target
text, compares the user's input with it on every change, and counts correct,
incorrect and extra characters. A 200 ms timer updates words per minute (WPM),
raw WPM and a 30-second countdown. The session finishes when the countdown
reaches 0, and a restart returns every field to its initial value.

The modules are:

- `Rounding`: JavaScript's `Math.round` on an exact quotient `n / d`,
  computed in integers as `(2n + d) div 2d`. It is proved equal to
  `floor(n/d + 1/2)` on reals.
- `Classifier`: the loop of `handleInputChange` as a method, proved equal to
  a recursive count. Lemmas cover how the counters split and when the input
  is a prefix of the target.
- `Metrics`: accuracy, WPM and raw WPM, and the countdown. Each is proved
  equal to the source formula over exact reals, with its bounds, monotonicity
  and the time at which the countdown reaches 0.
- `Display`: the look of each target character (typed correct, typed
  incorrect, cursor, untyped) and how those looks agree with the counters.
- `TextGen`: joining the first ten sentences of a given ordering with single
  spaces.
- `Session`: the component state as a value, with the input change, timer
  tick and restart as pure transition functions. It also has `TypingSession`,
  a class whose fields are the component's state variables. Its event
  methods (the constructor, `HandleInputChange`, `Tick` and `RestartTest`) are
  proved to follow those functions and to keep the state invariant;
  `CalculateAccuracy` and `CalculateResults` are the helpers they call, and
  `CalculateResults` keeps the invariant too.
- `Scenarios`: worked examples on concrete input.

Three details of the code shape the model:

- The countdown is `max(0, 30 - Math.round(elapsedMs / 1000))`, with
  rounding, not flooring. So it shows 0, and the session finishes, once 29.5
  seconds have elapsed.
- The elapsed time is not guarded against zero: WPM divides by it directly.
  The model requires the clock to be strictly after the start time on a tick.
- The start time is tested with JavaScript truthiness (`!startTime`). So a
  start time of 0 counts as unset, and the model's `Started` says so.

## Model

| member | source | states |
|---|---|---|
| Rounding.RoundDiv | app/page.tsx:116 | the result r is the integer nearest n/d with halves rounded up: d(2r-1) <= 2n < d(2r+1) |
| Rounding.RoundDivZero | app/page.tsx:55-57 | a non-negative quotient rounds to 0 exactly when it is below one half |
| Rounding.RoundDivUnique | app/page.tsx:116 | only one integer satisfies that window, so it determines the rounded value |
| Rounding.RoundDivIsRound | app/page.tsx:55-57 | the integer computation equals Math.round(n/d) = floor(n/d + 1/2) on the exact real quotient |
| Rounding.RoundDivExact | app/page.tsx:116 | an exact quotient k*d/d rounds to k |
| Rounding.RoundDivMonotone | app/page.tsx:55-57 | a larger numerator over the same denominator never rounds lower |
| Rounding.RoundDivBetween | app/page.tsx:116 | a quotient in [0, k] rounds into [0, k] |
| Classifier.KindAt | app/page.tsx:90-98 | a typed character is extra exactly when its index is at or past the end of the target, and correct only when it equals the target character at that index |
| Classifier.Tally | app/page.tsx:89-99 | the counters after n typed characters add up to n: each character is counted exactly once |
| Classifier.Classify | app/page.tsx:89-99 | the counters for the whole input add up to its length |
| Classifier.ClassifyInput | app/page.tsx:85-99 | the counting loop returns exactly the recursive classification of the whole input |
| Classifier.TallySplit | app/page.tsx:89-99 | after n characters: correct + incorrect = min(n, length of target), extra = max(0, n - length of target) |
| Classifier.ClassifyTotals | app/page.tsx:89-99 | for the whole input: correct + incorrect + extra = length of input, correct + incorrect = min(length of input, length of target), extra = max(0, difference) |
| Classifier.TallyAllCorrect | app/page.tsx:89-95 | correct never exceeds n, and equals n exactly when every one of the first n characters is correct |
| Classifier.PrefixIffAllCorrect | app/page.tsx:89-99 | every typed character is correct iff the input is a prefix of the target, and then incorrect = extra = 0 |
| Metrics.Accuracy | app/page.tsx:114-116 | accuracy lies in [0, 100]; it is 100 when nothing is attempted or nothing is wrong, and 0 when something is attempted and nothing is correct |
| Metrics.AccuracyIsRoundedRatio | app/page.tsx:114-116 | with attempts, accuracy is Math.round((correct / total) * 100) over exact reals |
| Metrics.Wpm | app/page.tsx:54-58 | words per minute are 0 exactly when fewer than half a word (2.5 characters) per minute was typed |
| Metrics.WpmIsRoundedRate | app/page.tsx:54-58 | Wpm(chars, elapsedMs) is Math.round(chars / 5 / (elapsedMs / 60000)) over exact reals |
| Metrics.WpmMonotone | app/page.tsx:55-58 | more characters over the same elapsed time never give fewer words per minute, so WPM <= raw WPM |
| Metrics.TimeLeft | app/page.tsx:62-65 | the countdown is never negative, is at most 30 for a non-negative elapsed time, and is 0 exactly from 29500 ms on |
| Metrics.TimeLeftIsClampedRound | app/page.tsx:62-65 | the countdown is Math.max(0, 30 - Math.round(elapsedMs / 1000)) over exact reals |
| Metrics.TimeLeftNonIncreasing | app/page.tsx:62-65 | the countdown never goes back up as elapsed time grows |
| Metrics.SecondsReachSession | app/page.tsx:64-66 | Math.round(elapsedMs / 1000) reaches 30 exactly when elapsedMs >= 29500, and is non-negative for non-negative elapsed time |
| Display.StyleAt | app/page.tsx:185-193 | a target character is the cursor exactly at charIndex, untyped exactly after it, and shown correct only when typed and equal to the typed character |
| Display.Render | app/page.tsx:182-193 | one look per target character; the character at charIndex is the cursor, and every character before it is shown correct or incorrect |
| Display.StyleAgreesWithKind | app/page.tsx:185-189 | with the cursor at the input length, a typed target character shows correct iff the classifier counts it correct, and incorrect iff it counts it incorrect |
| Display.CountPrefix | app/page.tsx:182-193 | over the first m target characters, the correct and incorrect looks match the counts of the first min(m, input length) typed characters, and the cursor appears once iff it lies among them |
| Display.TallyPastTarget | app/page.tsx:96-98 | characters past the end of the target change neither the correct nor the incorrect counter |
| Display.RenderMatchesCounts | app/page.tsx:182-193 | the display shows as many correct characters as correctChars, as many incorrect ones as incorrectChars, and exactly one cursor iff the input is shorter than the target |
| TextGen.Join | app/page.tsx:43 | a join is never shorter than its parts together |
| TextGen.JoinLength | app/page.tsx:43 | a join with single spaces is as long as all parts together plus one space between each consecutive pair |
| TextGen.JoinStartsWithFirst | app/page.tsx:43 | a join starts with its first part |
| TextGen.TotalLengthOfPrefix | app/page.tsx:43 | the first i sentences are together no longer than all of them |
| TextGen.JoinPlacesParts | app/page.tsx:43 | in a join with single spaces, part i occupies the characters from the end of the parts before it plus one space each, and a space precedes it unless it is the first |
| TextGen.GenerateText | app/page.tsx:41-44 | whatever the ordering, the text starts with its first sentence |
| TextGen.GenerateTextShape | app/page.tsx:41-44 | from at least ten sentences the text is as long as the first ten plus nine spaces, and holds sentence i at its offset with a single space before it, for each of the first ten |
| Session.Initial | app/page.tsx:26-37 | the initial field values, with the given text, satisfy the state invariant and the session has not started |
| Session.AfterInput | app/page.tsx:77-107 | an input change leaves the text, WPM, raw WPM, the countdown and the finished flag as they were |
| Session.WithResults | app/page.tsx:120-131 | computing results changes only WPM and raw WPM, and once started gives 0 <= WPM <= raw WPM |
| Session.AfterTick | app/page.tsx:52-71 | a tick changes only WPM, raw WPM, the countdown and the finished flag, and never unfinishes a session |
| Session.InputKeepsConsistent | app/page.tsx:77-107 | an input change keeps the state invariant |
| Session.InputCountsEveryCharacter | app/page.tsx:89-104 | an accepted input change stores the input, puts charIndex at its length, and its counters sum to that length, split as min/max against the target |
| Session.PrefixInputIsPerfect | app/page.tsx:85-117 | after an input change, incorrect = extra = 0 iff the input is a prefix of the target, and then accuracy is 100 |
| Session.StartTimeSetOnce | app/page.tsx:81-83 | the start time is set to the current time by the first accepted change while it is unset, and left untouched once set; "unset" is the `!startTime` truthiness test, modelled by the definition `Started` (null and 0 are both unset) |
| Session.TickKeepsConsistent | app/page.tsx:53-71 | a timer tick keeps the state invariant |
| Session.TickFinishesExactlyAtZero | app/page.tsx:53-71 | a tick computes WPM, raw WPM and the countdown from one elapsed time, with 0 <= WPM <= raw WPM and the countdown in [0, 30]; the session finishes iff the countdown is 0, that is iff 29500 ms have elapsed |
| Session.FinishedIsFrozen | app/page.tsx:50-75 | a finished session is unchanged by input (disabled field) and by ticks (no timer) |
| Session.DisplayMatchesCounters | app/page.tsx:182-193 | in every consistent state the rendered looks agree with correctChars and incorrectChars and show one cursor while input is shorter than the target |
| Session.RunKeepsConsistent | app/page.tsx:26-144 | every sequence of input changes, ticks and restarts keeps the state invariant |
| Session.RunKeepsStartTime | app/page.tsx:81-83 | once started, the start time stays fixed under any events until a restart |
| Session.RunFrozenAfterFinish | app/page.tsx:50-75 | once finished, no events other than a restart change the session |
| Session.TypingSession.constructor | app/page.tsx:26-48 | mounting sets every field to its initial value, with the generated text |
| Session.TypingSession.CalculateAccuracy | app/page.tsx:109-118 | stores the accuracy of the given counters |
| Session.TypingSession.HandleInputChange | app/page.tsx:77-107 | the fields afterwards are the input transition of the fields before, and the invariant holds |
| Session.TypingSession.CalculateResults | app/page.tsx:120-131 | if started, stores WPM and raw WPM at the end time; otherwise changes nothing; the state invariant is kept |
| Session.TypingSession.Tick | app/page.tsx:53-71 | the fields afterwards are the tick transition of the fields before, and the invariant holds |
| Session.TypingSession.RestartTest | app/page.tsx:133-145 | whatever the prior state, every field afterwards equals the initial value with the new text, so restarting is idempotent and equals mounting |
| Session.TypingSession.Styles | app/page.tsx:182-193 | one look per target character; the number of correct and incorrect looks equals correctChars and incorrectChars |
| Scenarios.TypedFirstCharacter | app/page.tsx:89-116 | target "ab" typed as "a" gives counters (1,0,0) and accuracy 100 |
| Scenarios.TypedOneMistake | app/page.tsx:89-116 | target "ab" typed as "ax" gives counters (1,1,0) and accuracy 50 |
| Scenarios.TypedPastTheEnd | app/page.tsx:89-116 | target "ab" typed as "axc" gives counters (1,1,1) and accuracy 33 |
| Scenarios.FiftyCharactersInOneMinute | app/page.tsx:54-55 | 50 correct characters in 60000 ms give 10 WPM |
| Scenarios.CountdownRoundsAtHalfSecond | app/page.tsx:62-65 | the countdown shows 1 at 29499 ms and 0 at 29500 ms |

## Left out

- Random text generation: the shuffle `sort(() => 0.5 - Math.random())` is random and not uniform, so it is not modelled. `GenerateText` takes the ordering as a parameter, and `RestartTest` and the constructor take the new text. The fixed sentence pool is not modelled.
- The wall clock: `Date.now()` is a parameter (`nowMs`, `endMs`). One tick reads the clock up to three times (lines 54, 64 and 122). The model uses one reading per tick, so WPM, the countdown and the final results share one elapsed time.
- Floating point: all metrics are exact rational rounding, not IEEE doubles. Near a .5 boundary, `(correct / total) * 100` in doubles can round differently. An elapsed time of 0 gives Infinity or NaN in the source; the model requires a positive elapsed time on every tick.
- React mechanics: the `useEffect`/`setInterval`/`clearInterval` lifecycle, batching of state updates and closures over stale state. A tick is an atomic event that runs only while the session is started and not finished, which is exactly when the interval exists. The state update of each event is atomic. The effect's dependency list (line 75) clears and re-creates the interval whenever a counter changes, so in the source a tick comes only 200 ms after the last input that changed a counter: input faster than five changes a second holds the countdown still, and a session can last longer than 30 seconds of wall time. The model allows a tick at any moment, which covers every tick schedule of the source, so the invariants hold for it; but the model says nothing about when, in wall-clock time, a session finishes.
- Disabled input: the model has no DOM. A change event on a finished session is modelled as changing nothing, since a disabled field fires no change.
- Mounting: the first render, where `currentText` is still "" before the effect generates the text, is merged into the constructor.
- Focus handling (`inputRef.current.focus()`), refs and all JSX and CSS, apart from the per-character class choice.
- Text encoding: strings are `seq<char>`. UTF-16 code units and surrogate pairs are not distinguished.
