# Timed arithmetic quiz — Dafny model

This project models the logic of a one-page arithmetic quiz. The game shows
random sums, differences, products and exact divisions. It scores each
answer with a streak bonus, runs a 60-second clock and reports the final
score, the number of questions and the accuracy when the clock runs out.

- `questions.dfy` (module `Questions`) models the operations table, the
  `calculate` functions and `generateQuestion`. The random choices are
  parameters: an operation index in [0, 4) and two draws in the operation's
  [min, max]. `WellFormed` describes every question the generator can produce
  without saying how it is built. The lemmas show that generation is sound
  and complete for it: division is exact, subtraction is never negative and
  the answer is reproducible from the operands.
- `scoring.dfy` (module `Scoring`) models the answer counters as a value
  `Tally`. `Judge` scores one answer and `Run` scores a sequence of answers.
  The lemmas cover the streak and the bonus sum for N correct answers in a
  row, the reset on a wrong answer and bounds on the score. `Accuracy` is
  the end-screen percentage.
- `session.dfy` (module `Session`) holds class `Game`. Its fields are the
  game's module-level variables and its methods are the handlers
  `startGame`, `generateQuestion`, `submitAnswer`, `updateTimer` (`Tick`) and
  `endGame`. The delayed step after an answer is the method `NextQuestion`.
  Every handler keeps the invariant `Valid()`, which requires
  0 ≤ streak ≤ correctAnswers ≤ totalQuestions, score ≥ 11 · correctAnswers
  and 0 ≤ timeRemaining ≤ 60, and requires a running game to have time left
  and an expected answer. `SubmitAnswer` is specified by `Scoring.Judge`,
  so the lemmas about `Run` hold for any sequence of submissions.
- `scenarios.dfy` (module `Scenarios`) drives whole games through the
  handlers. One game gets a correct answer and is then left to run out. The
  60th tick ends it, the end screen shows 11 points, 1 question and 100%, and
  ending it again reports the same. Other games cover answers refused after
  the end, input that is not a number, and a wrong answer after a correct one.

The parsed input is `Option<int>`, where `None` stands for a value that
`parseInt` turns into NaN.

Two handlers have no guard in the code, and the model keeps them that way:

- `updateTimer` has no guard for an inactive game (script.js:143-144). The
  clock stops only because `endGame` clears the interval (script.js:173).
  `Game.Tick` therefore requires an active game instead of checking for one.
- `endGame` is not guarded either, so `Game.EndGame` can be called at any
  time. It changes only the active flag.

## Model

| member | source | states |
|---|---|---|
| Questions.Calculate | script.js:13-20 | + − × are the exact integer operations; ÷ replaces a zero divisor by 1 and floor-divides: b·r ≤ a < b·r + b for b > 0, mirrored for b < 0, and r = a for b = 0 |
| Questions.FloorDiv | script.js:19 | the result is the floor of a / d for either sign of d: d·r ≤ a < d·r + d when d > 0, mirrored when d < 0 |
| Questions.Generate | script.js:24-47 | the question uses the chosen operation, is well-formed (operands in range, answer = op(num1, num2)), equals `calculate` of its operands, takes the first draw as divisor and the second as quotient for division, keeps the draws in order for + and ×, and only reorders them for − |
| Questions.QuotientExact | script.js:29-33 | a dividend built as quotient × divisor (divisor ≥ 1) floor-divides back to the quotient with remainder 0 |
| Questions.DivisionIsExact | script.js:16-33 | a generated division has a non-zero divisor, so the zero guard never fires; num1 % num2 = 0 and num1 / num2 = answer = calculate(num1, num2) |
| Questions.SubtractionIsNonNegative | script.js:38-47 | a generated subtraction has num1 ≥ num2 and an answer in [0, 99] |
| Questions.AnswerRange | script.js:12-47 | answer ranges per operation: + in [2, 200], − in [0, 99], × in [1, 144], ÷ in [1, 12] with the dividend in [1, 144] |
| Questions.AnswerIsReproducible | script.js:12-47 | every well-formed question's answer is non-negative and equals the operation's `calculate` on the operands shown |
| Questions.GenerateReachesAll | script.js:24-45 | every well-formed question is produced by some operation index and two legal draws |
| Scoring.Judge | script.js:68-80 | one answer counts one more question; a correct one adds 1 to correct answers and streak and 10 + the new streak to the score; a wrong one zeroes the streak and keeps score and correct answers; the invariant and a non-decreasing score are preserved |
| Scoring.Run | script.js:68-80 | a sequence of answers adds its length to the questions and preserves the invariant with a score that never goes down |
| Scoring.RunCounts | script.js:68-80 | from a fresh game, questions = answers given, correct answers = number of correct verdicts, streak = correct answers since the last wrong one |
| Scoring.CorrectRun | script.js:70-74 | N correct answers in a row add N to streak, questions and correct answers, and the sum over i = 1..N of 10 + streak + i to the score |
| Scoring.StreakPointsClosedForm | script.js:74 | that sum is N · (21 + 2 · streak + N) / 2; from streak 0 it is 10N + N(N+1)/2 |
| Scoring.WrongResetsStreak | script.js:78-80 | a wrong answer after any history sets the streak to 0 and leaves score and correct answers unchanged |
| Scoring.ScoreBounds | script.js:68-80 | from a fresh game, 11 · correct ≤ score ≤ the points of the same number of correct answers in one unbroken streak |
| Scoring.Accuracy | script.js:180 | 0 with no questions; otherwise the integer nearest to 100 · correct / total with ties rounded up, always in [0, 100] |
| Scoring.AccuracyExample | script.js:180 | 3 correct out of 7 gives 43 |
| Scoring.AccuracyExtremes | script.js:180 | all correct gives 100, none correct gives 0 |
| Scoring.AccuracyHalfCase | script.js:180 | 23 correct out of 40 gives 58 in the model; the page shows 57 (see Left out) |
| Session.Game.Report | script.js:179-185 | the end screen shows the score, the question count and an accuracy in [0, 100] |
| Session.Game.constructor | script.js:2-8 | before the first game: inactive, counters zero, clock at 60, no expected answer |
| Session.Game.GenerateQuestion | script.js:24-47 | the question shown is `Generate` of the draws and its answer becomes the expected answer |
| Session.Game.StartGame | script.js:110-133 | the game is active with all counters zero, the clock at 60, the invariant established and a generated first question |
| Session.Game.SubmitAnswer | script.js:56-83 | inactive game: returns `Inactive` and no counter changes; non-number input: returns `InvalidInput` and no counter changes; otherwise the counters move as `Judge` with correct = (input equals the expected answer), the feedback carries the points or the expected answer, and clock, activity and expected answer are unchanged |
| Session.Game.NextQuestion | script.js:92-99 | a new question and expected answer while the game is active; nothing changes otherwise |
| Session.Game.Tick | script.js:143-167 | the clock drops by exactly 1, the game stays active exactly while time is left, counters are unchanged, and the end-of-game summary is returned when it ends |
| Session.Game.EndGame | script.js:171-180 | the game becomes inactive and nothing else changes; the summary is score, question count and `Accuracy(correct, total)` |
| Scenarios.OneCorrectThenTimeOut | script.js:110-180 | after a start and a correct answer (11 points), exactly 60 ticks end the game, the summary is (11, 1, 100) and a second end gives the same summary |
| Scenarios.AnswersOutsideAGame | script.js:56-66 | input that is not a number is refused during a game; after the end any answer is refused and the counters stay at zero |
| Scenarios.CorrectThenWrong | script.js:68-99 | a correct then a wrong answer gives feedback 11 points, then the expected answer, and leaves score 11, streak 0, 2 questions and 1 correct |

## Left out

- Page output and wiring are not modelled: element lookups, text content, CSS classes, focus, the feedback strings, the key handler `handleKeyPress` and the load listener. They are presentation only. The feedback strings appear only as the values of `Feedback`.
- `setTimeout`, `setInterval` and `clearInterval` are not modelled; the caller invokes `Tick` and `NextQuestion` instead. The flip-card animation delays are not modelled either. Because of this, the model does not capture a second interval that would be created if a game were started while another is still running.
- Math.random is not modelled. The operation index and the two draws are parameters, and the uniform distribution is not captured.
- `parseInt` is not modelled, including its hex prefixes and partial parses. The input arrives already parsed as `Option<int>`.
- Scoring.Accuracy: rounds the exact value 100 · correct / total, with ties rounded up, as (200 · correct + total) div (2 · total). The page computes `Math.round(correct / total * 100)` in doubles. The two differ whenever 100 · correct / total is exactly k + ½ and the double product lands just below it. The smallest such case is 23 correct out of 40: the page shows 57 and the model gives 58 (`Scoring.AccuracyHalfCase`). 46/80, 29/200 and 57/200 differ as well.
- JavaScript numbers are unbounded integers here. Every value the game produces fits exactly in a double.
