# Typing test session controller, in Dafny

This project models the typing-speed practice widget of BlockbashProject. The
user picks a difficulty tier and types the sentence shown. Each character of
the sentence is styled by how it was typed. The session ends when the text in
the field equals the sentence, or when a 30-second countdown runs out. At the
end the widget shows an accuracy figure.

The model follows the one component that holds logic,
`src/BlockbashProject_frontend/src/components/TypingTest.jsx`:

- `Catalog` (catalog.dfy) is the table of tiers. Each tier has two practice
  sentences and a time limit of 30 seconds. It also picks a sentence from a
  random draw.
- `Scoring` (scoring.dfy) holds the pure computations: the mismatch scan of
  the input handler (a `while` loop, modelled as a method with its loop), the
  accuracy formula and the per-character style classes.
- `Words` (words.dfy) is the word count used by the typing-speed display,
  `input.trim().split(' ').length`.
- `Session` (session.dfy) is the component's state. The class
  `TypingSession` has one field per state hook and one method per event
  handler or effect. `Valid()` is the invariant every event keeps.
- `Scenarios` (scenarios.dfy) drives whole sessions through those events.

The clock (`Date.now()`) and the random sentence draw (`Math.random()`) are
parameters: `now: nat` and `idx: nat` with `idx` below the number of
sentences of the tier. One handler call or one run of an effect is one atomic
method call.

### Behaviour kept as the code has it

- Completion from the input handler scores the text that was in the field
  before the keystroke that completed the session. The handler's
  `calculateAccuracy` reads `input` from the render it belongs to, and
  `setInput` has not taken effect yet. So fixing a typo with the last
  keystroke gives less than 100 (`Scenarios.FixTypoLast`). Pasting the whole
  sentence into an empty field gives NaN (`Scenarios.PasteWholeSentence`).
  Typing the sentence one character at a time gives 100
  (`Scenarios.TypeEasySentence`).
- Accuracy over an empty text is a division by zero. The code shows NaN. The
  model keeps that as the value `NotANumber` of `Scoring.Accuracy`, instead
  of defining it as 0 (`Scenarios.TimeOutOnEmptyField`).
- Choosing a different tier picks a new sentence and refills the countdown.
  It does not clear the typed text, the mismatch list, the start time, the
  end time, the accuracy or the completion flag. Choosing the tier already
  selected changes nothing, because the effect only runs when the tier
  changes.
- The input handler has no guard of its own against a completed session. The
  text field is disabled once the session is completed, so
  `HandleInputChange` requires `!isCompleted`.
- The countdown effect decrements only while the session is started, not
  completed and above 0. When the counter is at 0 and the session is not
  completed, the effect completes it. The run that reaches 0 and the run that
  completes are two separate `Tick` calls, as they are two runs of the
  effect. The completion branch scores the current text.
- "Started" means `startTime != 0`, which is the code's truthiness test.

## Model

| member | source | states |
|---|---|---|
| `Catalog.LevelOf` | src/BlockbashProject_frontend/src/components/TypingTest.jsx:15-37 | every tier has a non-empty list of non-empty sentences and a 30-second limit |
| `Catalog.PickSentence` | src/BlockbashProject_frontend/src/components/TypingTest.jsx:57-62 | the sentence picked by a draw below the list length is one of the tier's sentences |
| `Scoring.MismatchIndexes` | src/BlockbashProject_frontend/src/components/TypingTest.jsx:72-82 | the scan returns a strictly increasing list holding exactly the positions below both lengths where the typed text differs from the sentence |
| `Scoring.IncreasingUnique` | src/BlockbashProject_frontend/src/components/TypingTest.jsx:72-80 | two strictly increasing lists with the same elements are equal, so that contract fixes the scan's result completely |
| `Scoring.MatchesBelow` | src/BlockbashProject_frontend/src/components/TypingTest.jsx:96 | the count of correct characters among the first n typed ones is at most n |
| `Scoring.CorrectCount` | src/BlockbashProject_frontend/src/components/TypingTest.jsx:96 | the number of correct characters is at most the typed length, and equals it exactly when every typed character matches the sentence at its index |
| `Scoring.MatchesBelowFull` | src/BlockbashProject_frontend/src/components/TypingTest.jsx:96 | all n of the first n typed characters are counted correct exactly when each matches the sentence at its own index |
| `Scoring.PercentTop` | src/BlockbashProject_frontend/src/components/TypingTest.jsx:97 | the rounded-down percentage of c out of n (c <= n) is at most 100, and is 100 exactly when c = n |
| `Scoring.AccuracyOf` | src/BlockbashProject_frontend/src/components/TypingTest.jsx:95-98 | accuracy is NaN exactly for empty text, otherwise between 0 and 100, and it is 100 exactly when every typed character matches the sentence at its index |
| `Scoring.PrefixScoresFull` | src/BlockbashProject_frontend/src/components/TypingTest.jsx:95-98 | any non-empty beginning of the sentence, the whole sentence included, scores 100 |
| `Scoring.ClassOf` | src/BlockbashProject_frontend/src/components/TypingTest.jsx:145-155 | one character's class is `correct` exactly on a match, `incorrect` exactly on a mismatch, `next` exactly at index = typed length, and unstyled beyond it |
| `Scoring.Classes` | src/BlockbashProject_frontend/src/components/TypingTest.jsx:144-156 | one class per sentence character; typed positions are `correct` or `incorrect`, `incorrect` exactly at the mismatch positions, and `next` only at index = typed length |
| `Scoring.ClassesAgree` | src/BlockbashProject_frontend/src/components/TypingTest.jsx:144-156 | a character is `correct` exactly where it counts towards accuracy, `incorrect` exactly at a mismatch position, `next` exactly at index = typed length, and unstyled beyond it |
| `Scoring.AtMostOneNext` | src/BlockbashProject_frontend/src/components/TypingTest.jsx:144-156 | at most one character is `next`, and one is exactly when the typed text is shorter than the sentence |
| `Words.TrimStart` | src/BlockbashProject_frontend/src/components/TypingTest.jsx:104 | the result is a suffix that does not start with white space, and everything dropped is white space |
| `Words.TrimEnd` | src/BlockbashProject_frontend/src/components/TypingTest.jsx:104 | the result is a prefix that does not end with white space, and everything dropped is white space |
| `Words.Trim` | src/BlockbashProject_frontend/src/components/TypingTest.jsx:104 | the trimmed text is no longer than the input and neither starts nor ends with white space; it is empty exactly when the input is blank, and text without surrounding white space comes back unchanged |
| `Words.WordCount` | src/BlockbashProject_frontend/src/components/TypingTest.jsx:104 | the word count is always at least 1 |
| `Words.BlankIsOneWord` | src/BlockbashProject_frontend/src/components/TypingTest.jsx:104 | a text of white space only, the empty text included, counts as one word |
| `Words.CountsJoinedWords` | src/BlockbashProject_frontend/src/components/TypingTest.jsx:104 | n white-space-free words joined by single spaces count as n words |
| `Session.TypingSession.Mount` | src/BlockbashProject_frontend/src/components/TypingTest.jsx:5-42 | after mounting, the tier is Medium, the sentence is one of its sentences, the countdown is at the tier's limit and every other field has its initial value |
| `Session.TypingSession.Rendered` | src/BlockbashProject_frontend/src/components/TypingTest.jsx:144-156 | the classes on screen: one per sentence character, `incorrect` exactly where the current text differs from the sentence, `next` only at the first untyped position |
| `Session.TypingSession.GenerateSentence` | src/BlockbashProject_frontend/src/components/TypingTest.jsx:57-62 | the new sentence is the current tier's sentence chosen by the draw, and nothing else changes |
| `Session.TypingSession.DifficultyEffect` | src/BlockbashProject_frontend/src/components/TypingTest.jsx:39-42 | one run of the effect sets a sentence of the current tier and refills the countdown, and changes nothing else |
| `Session.TypingSession.ChangeDifficulty` | src/BlockbashProject_frontend/src/components/TypingTest.jsx:39-42 | a different tier gets a sentence from its list and its full time; all other fields are unchanged; choosing the same tier changes nothing |
| `Session.TypingSession.HandleTypingCompleted` | src/BlockbashProject_frontend/src/components/TypingTest.jsx:89-99 | completion sets the end time and the flag and scores the text the caller sees; the score is 100 exactly when that text is non-empty and all correct |
| `Session.TypingSession.HandleInputChange` | src/BlockbashProject_frontend/src/components/TypingTest.jsx:64-87 | the start time is set only when it was 0; the mismatch list is exactly the mismatch positions, in order, and these are exactly the characters rendered `incorrect`; the session completes exactly when the text equals the sentence, scored over the previous text; the countdown, the sentence and the tier are unchanged |
| `Session.TypingSession.Tick` | src/BlockbashProject_frontend/src/components/TypingTest.jsx:44-55 | the counter drops by one only while running and never goes below 0; at 0 an uncompleted session completes and is scored on the current text; a completed session does not change |
| `Session.RunningFacts` | src/BlockbashProject_frontend/src/components/TypingTest.jsx:46 | in a valid state a running countdown (the guard of line 46) can step once more without going below 0, and a session that is neither running nor completed and still has time left has not started, so it has the tier's full time |
| `Session.TypingSession.RestartTest` | src/BlockbashProject_frontend/src/components/TypingTest.jsx:113-122 | restart gives a sentence of the current tier, empty text, no mismatches, accuracy 0, both timestamps 0, not completed and the tier's full time |
| `Scenarios.WrongTailMismatches` | src/BlockbashProject_frontend/src/components/TypingTest.jsx:72-80 | with the first p characters right and the rest of the typed text wrong, the mismatch list is exactly p, p+1, ..., up to the typed length |
| `Scenarios.TypeEasySentence` | src/BlockbashProject_frontend/src/components/TypingTest.jsx:64-99 | on the Easy tier, typing the sentence one character at a time completes the session with accuracy 100 and no mismatches |
| `Scenarios.PasteWholeSentence` | src/BlockbashProject_frontend/src/components/TypingTest.jsx:84-98 | pasting the whole sentence into the empty field completes the session with accuracy NaN |
| `Scenarios.FixTypoLast` | src/BlockbashProject_frontend/src/components/TypingTest.jsx:84-98 | fixing a typo with the last keystroke completes the session with an accuracy below 100 |
| `Scenarios.TimeOutOnEmptyField` | src/BlockbashProject_frontend/src/components/TypingTest.jsx:44-55 | once started, running out the clock with an empty field completes the session with the counter at 0 and accuracy NaN |

## Left out

- Rendering: the JSX markup, the CSS import, the `<select>` and `<input>` elements and the results panel. `App.jsx` only wraps the component in a styled container and holds no logic.
- React scheduling: effect dependency tracking, `setTimeout` and `clearTimeout`, the one-second delay and stale timers. Each handler call or effect run is one atomic method call.
- Typing speed (lines 101-111): the rate uses floating-point division and `Math.round` over millisecond timestamps. Only its word count is modelled (`Words.WordCount`).
- `Math.random()` and `Date.now()` are parameters. The two clock reads of one input event (start time and end time) share the one `now` of that event.
- Scoring.AccuracyOf: computes `(100 * correct) / length` in integers. The code computes `Math.floor(correct / length * 100)` in floating point, which can be 1 lower (57 of 100 gives 56).
- Strings are sequences of Unicode scalar values. JavaScript indexes UTF-16 code units, so text with characters outside the Basic Multilingual Plane is indexed differently.
- The state before the first run of the difficulty effect (empty sentence, 60 seconds) is not a separate state: the constructor includes that first run.
