# Typing speed test — a verified model of its scorer and life cycle

The typing speed test shows one of five fixed sentences, lets the user type it into a
text box, and on Finish (or Enter) reports words per minute and character accuracy.
Reset clears the test and moves on to the next sentence, wrapping round after the
fifth.  All of this lives in one React component, `TypingSpeedTest`; the rest of the
repository is presentation.

The model has three modules:

- `Text` (text.dfy): JavaScript white space, `trim()` and `split(/\s+/)`, the string
  operations the word count is built from.
- `Scoring` (scoring.dfy): the five sentences, the count of correctly typed
  characters, the word count, `Math.round` of a non-negative ratio, accuracy, words
  per minute and the progress bar.
- `TypingTest` (session.dfy): the component's seven state fields as a `Session` value;
  the handlers as transitions on it (`Start`, `TextChange`, `Finish`, `KeyPress`,
  `Reset`); the invariant `Inv` every reachable state keeps; user actions (`Event`)
  limited to the controls the screen shows in each phase; and the class
  `TypingSpeedTest`, whose fields are updated in place by handler methods, each proved
  to perform exactly the matching transition.

Arithmetic is exact.  `Math.round(x)` for `x >= 0` is `floor(x + 1/2)`, so
`round(num / den)` is `(2 * num + den) / (2 * den)` in integer division.  The
contract of `RoundedRatio` states the rounding in integers, and `RoundedRatioNearest`
states it on real numbers: the result is within one half of the ratio, halves rounded
up.  Accuracy is `round(100 * correct / length)`, and
words per minute is `round(words * 60000 / elapsedMs)` with the elapsed time in
integer milliseconds.

Which handler can run is decided by what the screen shows, and the model states this
as preconditions:

- Start is shown only when idle.
- Finish and the text box (edits, Enter) are shown only while running.
- Reset is shown while running and while the results are shown.

Three behaviours of the code may surprise a reader, and the model keeps them:

- Reset is reachable from a running test as well as from the results.
- Whitespace-only input counts as one word, not zero.
- There is no minimum test duration and no clamping of the speed.  A finish in the
  same millisecond as the start divides by zero, so the model requires the clock to
  have advanced (`ClockAdvanced`).

## Model

| member | source | states |
|---|---|---|
| Text.IsSpace | src/components/TypingSpeedTest.tsx:51 | the characters that `\s` and `trim()` treat as white space: the ECMAScript WhiteSpace and LineTerminator code points |
| Text.TrimStart | src/components/TypingSpeedTest.tsx:51 | the result is a suffix of the input, what was dropped is all white space, and the result does not start with white space |
| Text.TrimEnd | src/components/TypingSpeedTest.tsx:51 | the result is a prefix of the input, what was dropped is all white space, and the result does not end with white space |
| Text.Trim | src/components/TypingSpeedTest.tsx:51 | the trimmed text neither starts nor ends with white space, and it is empty exactly when the text is all white space |
| Text.TrimSlices | src/components/TypingSpeedTest.tsx:51 | the trimmed text is a contiguous slice of the input, and everything on either side of it is white space |
| Text.TrimKeepsNonSpace | src/components/TypingSpeedTest.tsx:51 | trimming removes white space only: the non-space characters are unchanged |
| Text.Split | src/components/TypingSpeedTest.tsx:51 | `split(/\s+/)` gives at least one piece, no piece holds white space, and the first piece is empty exactly when the text is empty or starts with white space |
| Text.SplitCount | src/components/TypingSpeedTest.tsx:51 | the number of pieces is one more than the number of maximal runs of white space, counted by an independent character-by-character scan |
| Text.LaterPiecesNonEmpty | src/components/TypingSpeedTest.tsx:51 | when the text does not end with white space, every piece after the first is non-empty |
| Text.SplitLosesOnlySpace | src/components/TypingSpeedTest.tsx:51 | the pieces, concatenated in order, are exactly the non-space characters of the text |
| Scoring.Sentence | src/components/TypingSpeedTest.tsx:3-9 | every one of the five sentences is non-empty and shorter than 200 characters |
| Scoring.RoundedRatio | src/components/TypingSpeedTest.tsx:52-55 | `Math.round(num / den)` for a non-negative ratio: `2 * den * r <= 2 * num + den < 2 * den * (r + 1)`, that is `r - 1/2 <= num / den < r + 1/2` |
| Scoring.RoundedRatioNearest | src/components/TypingSpeedTest.tsx:52-55 | on real numbers, the rounded ratio lies within one half of the exact ratio, halves rounded up |
| Scoring.RoundedRatioIs | src/components/TypingSpeedTest.tsx:52-55 | the integer bracketing `2 * num + den` between `2 * den * r` and `2 * den * (r + 1)` is the rounded ratio |
| Scoring.RoundedRatioMonotonic | src/components/TypingSpeedTest.tsx:52-55 | a larger numerator never rounds to a smaller result |
| Scoring.MatchesBelow | src/components/TypingSpeedTest.tsx:54 | the count of matching positions below `n` is at most `n` and at most the typed length |
| Scoring.CorrectChars | src/components/TypingSpeedTest.tsx:54 | the correct-character count never exceeds the sentence length or the typed length |
| Scoring.AllMatchBelow | src/components/TypingSpeedTest.tsx:54 | all of the first `n` positions match exactly when the typed text starts with the first `n` characters of the sentence (both directions) |
| Scoring.NoneMatchBelow | src/components/TypingSpeedTest.tsx:54 | the count is zero exactly when no position below `n` that the typed text reaches holds the same character (both directions) |
| Scoring.MatchesIgnoreExtra | src/components/TypingSpeedTest.tsx:54 | characters typed past the sentence's length do not change the count |
| Scoring.Accuracy | src/components/TypingSpeedTest.tsx:54-55 | accuracy is `100 * correct / length` rounded to the nearest integer, halves up, and never exceeds 100 |
| Scoring.FullAccuracy | src/components/TypingSpeedTest.tsx:54-55 | for a sentence shorter than 200 characters, accuracy is 100 exactly when the typed text is the sentence, possibly followed by more characters |
| Scoring.ZeroAccuracy | src/components/TypingSpeedTest.tsx:54-55 | for a sentence of at most 200 characters, accuracy is 0 exactly when no position matches |
| Scoring.AccuracyIgnoresExtra | src/components/TypingSpeedTest.tsx:54-55 | characters typed past the sentence are neither penalised nor rewarded |
| Scoring.WordCount | src/components/TypingSpeedTest.tsx:51 | the word count is at least 1 |
| Scoring.BlankIsOneWord | src/components/TypingSpeedTest.tsx:51 | empty or whitespace-only text counts as one word |
| Scoring.WordCountIsRunsPlusOne | src/components/TypingSpeedTest.tsx:51 | the word count is one more than the runs of white space inside the trimmed text |
| Scoring.WordsAreTokens | src/components/TypingSpeedTest.tsx:51 | for non-blank text every counted word is non-empty and free of white space, and the words together hold every non-space character in order |
| Scoring.SingleWord | src/components/TypingSpeedTest.tsx:51 | non-empty text without white space is one word |
| Scoring.Wpm | src/components/TypingSpeedTest.tsx:50-52 | words per minute is `words * 60000 / elapsedMs` rounded to the nearest integer, halves up, and is never negative |
| Scoring.WpmOverOneMinute | src/components/TypingSpeedTest.tsx:50-52 | over exactly 60000 ms the speed equals the word count |
| Scoring.WpmMonotonic | src/components/TypingSpeedTest.tsx:50-52 | more words in the same time never give a lower speed |
| Scoring.Progress | src/components/TypingSpeedTest.tsx:22 | progress is between 0 and 100, is 100 exactly when the typed length reaches the sentence length, and below 100 is the typed share of the sentence as a percentage |
| Scoring.ProgressMonotonic | src/components/TypingSpeedTest.tsx:22 | typing more never moves the progress bar back |
| Scoring.ScenarioExact | src/components/TypingSpeedTest.tsx:46-55 | "cat" typed exactly in one minute scores 1 word per minute and accuracy 100 |
| Scoring.ScenarioOneTypo | src/components/TypingSpeedTest.tsx:46-55 | "cat" typed as "cbt" in 30000 ms has 2 correct characters, accuracy 67 and 2 words per minute |
| TypingTest.TypingSpeedTest.Current | src/components/TypingSpeedTest.tsx:12-18 | the component's seven state fields (text, sentence index, the two flags, start time, speed, accuracy) as one `Session` value |
| TypingTest.Initial | src/components/TypingSpeedTest.tsx:12-18 | the state on load is idle, on the first sentence, and keeps the invariant |
| TypingTest.Start | src/components/TypingSpeedTest.tsx:38-44 | from idle, start empties the text, records the start time, makes the test running and keeps the sentence and the invariant |
| TypingTest.TextChange | src/components/TypingSpeedTest.tsx:25-27 | while running, an edit replaces the text with the new value, unchecked, and changes nothing else |
| TypingTest.CanFinish | src/components/TypingSpeedTest.tsx:47 | finishing does anything only with a start time and non-empty typed text |
| TypingTest.Finish | src/components/TypingSpeedTest.tsx:46-61 | with no start time or no text, finish changes nothing; otherwise it shows the results, stores the accuracy and speed of the text against the current sentence over the elapsed time, and keeps the text, start time and sentence |
| TypingTest.KeyPress | src/components/TypingSpeedTest.tsx:29-36 | Enter while running is exactly `Finish`; any other key, or Enter in another phase, leaves the state unchanged |
| TypingTest.NextIndex | src/components/TypingSpeedTest.tsx:71 | the next sentence index is the following one, or 0 after the last |
| TypingTest.Reset | src/components/TypingSpeedTest.tsx:63-72 | reset returns to idle with text, start time and results cleared, on the next sentence |
| TypingTest.AfterResetsIsModular | src/components/TypingSpeedTest.tsx:71 | after `k` resets the index is `(i + k) % 5` |
| TypingTest.ResetsCycle | src/components/TypingSpeedTest.tsx:71 | five resets return to the original sentence, and fewer never do |
| TypingTest.PerfectRun | src/components/TypingSpeedTest.tsx:38-72 | starting, typing the sentence exactly and finishing shows accuracy 100, and a reset then brings up the next sentence |
| TypingTest.Offered | src/components/TypingSpeedTest.tsx:89-136 | what the screen offers in each phase: Start when idle (line 111), the text box (line 89) and Finish (line 120) while running, Reset while running or finished (line 129) |
| TypingTest.Handle | src/components/TypingSpeedTest.tsx:89-136 | every action the screen offers keeps the invariant |
| TypingTest.Run | src/components/TypingSpeedTest.tsx:89-136 | after any sequence of user actions the invariant holds, so running and showing results are never both set |
| TypingTest.NoShortcuts | src/components/TypingSpeedTest.tsx:89-136 | no action leads from idle straight to the results, or from the results back to a running test |
| TypingTest.WhatEventsChange | src/components/TypingSpeedTest.tsx:25-72 | the text changes only by an edit or a reset, the start time only by start or reset, the sentence only by reset |
| TypingTest.TypingSpeedTest.constructor | src/components/TypingSpeedTest.tsx:12-18 | the component starts in the initial state |
| TypingTest.TypingSpeedTest.CalculateProgress | src/components/TypingSpeedTest.tsx:21-23 | the progress of the current text against the current sentence is between 0 and 100, 100 exactly when the text is at least as long as the sentence, and below 100 is the typed share of the sentence as a percentage |
| TypingTest.TypingSpeedTest.StartTest | src/components/TypingSpeedTest.tsx:38-44 | the fields after the call are the `Start` transition of the fields before it, and the invariant holds |
| TypingTest.TypingSpeedTest.HandleTextChange | src/components/TypingSpeedTest.tsx:25-27 | the fields after the call are the `TextChange` transition of the fields before it |
| TypingTest.TypingSpeedTest.FinishTest | src/components/TypingSpeedTest.tsx:46-61 | the fields after the call are the `Finish` transition of the fields before it, computed with the scorer |
| TypingTest.TypingSpeedTest.HandleKeyPress | src/components/TypingSpeedTest.tsx:29-36 | the fields after the call are the `KeyPress` transition of the fields before it |
| TypingTest.TypingSpeedTest.ResetTest | src/components/TypingSpeedTest.tsx:63-72 | the fields after the call are the `Reset` transition of the fields before it |

## Left out

- Rendering: the JSX, Tailwind classes, the logo and focusing the text box (src/components/TypingSpeedTest.tsx:43, 74-147).  Only which controls each phase shows is kept, as preconditions.
- src/App.tsx is not part of this model: it only places the component on the page.
- `Date.now()`: timestamps are integer milliseconds passed to `StartTest`, `FinishTest` and `HandleKeyPress`.
- Floating point: the model computes exact ratios.  The source divides in IEEE doubles, so a result may differ in the last bit near a rounding boundary.
- Zero elapsed time: the source then reports `Infinity`, and a clock that went backwards gives a negative speed.  The model requires the finish time to be later than the start time (`ClockAdvanced`).
- A start timestamp of 0 counts as "no start time" in the source, through JavaScript truthiness; the model keeps the start time as an `Option`.
- Text encoding: strings are sequences of Unicode characters.  The source spreads the sentence into code points but indexes the typed text in UTF-16 code units.  These agree for the five sentences, which are ASCII, but not for typed characters outside the Basic Multilingual Plane.
- White space is the fixed set of ECMAScript WhiteSpace and LineTerminator characters, the set `\s` and `trim()` share.
- React's batched, asynchronous state updates and stale closures: each handler is one atomic step over all the fields.
- `preventDefault` on Enter (line 31): it only stops the text box from inserting a newline.
