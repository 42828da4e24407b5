/** The scoring rules of the quiz: what one submitted answer does to the
    counters of a game, what a whole sequence of answers does to them, and
    the accuracy reported when the game ends. */
module Scoring {
  import opened Arith

  /** A correct answer earns this base plus the streak it completes. */
  const BasePoints := 10

  /** The counters a game keeps about the answers submitted so far. */
  datatype Tally = Tally(score: int, streak: int, totalQuestions: int, correctAnswers: int) {

    /** The streak counts correct answers, which are some of the answers
        given, and each correct answer is worth at least 11 points. */
    predicate Valid() {
      0 <= streak <= correctAnswers <= totalQuestions &&
      (BasePoints + 1) * correctAnswers <= score
    }
  }

  /** The counters at the start of a game. */
  const Initial := Tally(0, 0, 0, 0)

  /** The counters after one more answer, `correct` telling whether it
      matched the expected answer. */
  function Judge(t: Tally, correct: bool): (r: Tally)
    ensures r.totalQuestions == t.totalQuestions + 1
    ensures r.correctAnswers == t.correctAnswers + (if correct then 1 else 0)
    ensures correct ==> r.streak == t.streak + 1 && r.score == t.score + BasePoints + r.streak
    ensures !correct ==> r.streak == 0 && r.score == t.score
    ensures t.Valid() ==> r.Valid() && r.score >= t.score
  {
    var totalQuestions := t.totalQuestions + 1;
    if correct then
      var streak := t.streak + 1;
      Tally(t.score + BasePoints + streak, streak, totalQuestions, t.correctAnswers + 1)
    else
      Tally(t.score, 0, totalQuestions, t.correctAnswers)
  }

  /** The counters after a sequence of answers, oldest first. */
  function Run(t: Tally, verdicts: seq<bool>): (r: Tally)
    ensures r.totalQuestions == t.totalQuestions + |verdicts|
    ensures t.Valid() ==> r.Valid() && r.score >= t.score
  {
    if verdicts == [] then t
    else Judge(Run(t, verdicts[..|verdicts| - 1]), verdicts[|verdicts| - 1])
  }

  /** How many answers in `verdicts` were correct. */
  function CountCorrect(verdicts: seq<bool>): nat {
    if verdicts == [] then 0
    else CountCorrect(verdicts[..|verdicts| - 1]) + (if verdicts[|verdicts| - 1] then 1 else 0)
  }

  /** How many answers at the end of `verdicts` were correct in a row. */
  function TrailingCorrect(verdicts: seq<bool>): nat {
    if verdicts == [] || !verdicts[|verdicts| - 1] then 0
    else TrailingCorrect(verdicts[..|verdicts| - 1]) + 1
  }

  /** `n` correct answers in a row. */
  function AllCorrect(n: nat): seq<bool> {
    seq(n, _ => true)
  }

  /** The points `n` correct answers in a row earn when the streak before
      them is `from`: the sum over i in 1..n of BasePoints + from + i. */
  function StreakPoints(from: int, n: nat): int {
    if n == 0 then 0 else StreakPoints(from, n - 1) + BasePoints + from + n
  }

  /** From the start of a game, the counters are determined by the answers:
      one question per answer, one correct answer per correct verdict, and
      the streak is the number of correct answers since the last wrong one. */
  lemma {:induction false} RunCounts(verdicts: seq<bool>)
    ensures Run(Initial, verdicts).totalQuestions == |verdicts|
    ensures Run(Initial, verdicts).correctAnswers == CountCorrect(verdicts)
    ensures Run(Initial, verdicts).streak == TrailingCorrect(verdicts)
  {
    if verdicts != [] {
      RunCounts(verdicts[..|verdicts| - 1]);
    }
  }

  /** `n` correct answers in a row add n to the streak, to the questions and
      to the correct answers, and add StreakPoints(streak, n) to the score. */
  lemma {:induction false} CorrectRun(t: Tally, n: nat)
    ensures Run(t, AllCorrect(n)) ==
      Tally(t.score + StreakPoints(t.streak, n), t.streak + n,
            t.totalQuestions + n, t.correctAnswers + n)
  {
    if n > 0 {
      assert AllCorrect(n)[..n - 1] == AllCorrect(n - 1);
      CorrectRun(t, n - 1);
    }
  }

  /** Closed form of the streak bonus: twice the points of n correct answers
      after a streak of `from` is n * (21 + 2 * from + n); from streak 0,
      N answers earn 10 * N + N * (N + 1) / 2. */
  lemma {:induction false} StreakPointsClosedForm(from: int, n: nat)
    ensures 2 * StreakPoints(from, n) == n * (2 * BasePoints + 1 + 2 * from + n)
  {
    if n > 0 {
      StreakPointsClosedForm(from, n - 1);
      assert n * (2 * BasePoints + 1 + 2 * from + n)
          == (n - 1) * (2 * BasePoints + 1 + 2 * from + (n - 1)) + 2 * (BasePoints + from + n);
    }
  }

  /** One wrong answer ends the streak and leaves the score alone. */
  lemma WrongResetsStreak(t: Tally, verdicts: seq<bool>)
    ensures Run(t, verdicts + [false]).streak == 0
    ensures Run(t, verdicts + [false]).score == Run(t, verdicts).score
    ensures Run(t, verdicts + [false]).correctAnswers == Run(t, verdicts).correctAnswers
  {
    assert (verdicts + [false])[..|verdicts|] == verdicts;
  }

  /** From the start of a game the score lies between 11 points per correct
      answer and what the same number of correct answers earns in one
      unbroken streak. */
  lemma {:induction false} ScoreBounds(verdicts: seq<bool>)
    ensures (BasePoints + 1) * Run(Initial, verdicts).correctAnswers <= Run(Initial, verdicts).score
    ensures Run(Initial, verdicts).score <= StreakPoints(0, Run(Initial, verdicts).correctAnswers)
  {
    if verdicts != [] {
      ScoreBounds(verdicts[..|verdicts| - 1]);
    }
  }

  /** Math.round(correct / total * 100) on exact rationals (ties round up),
      and 0 when no question was answered. */
  function Accuracy(correct: int, total: int): (r: int)
    requires 0 <= correct <= total
    ensures 0 <= r <= 100
    ensures total == 0 ==> r == 0
    ensures total > 0 ==> total * (2 * r - 1) <= 200 * correct < total * (2 * r + 1)
  {
    if total > 0 then
      var r := (200 * correct + total) / (2 * total);
      AccuracyBounds(correct, total, r);
      r
    else 0
  }

  lemma AccuracyBounds(correct: int, total: int, r: int)
    requires 0 <= correct <= total && total > 0
    requires r == (200 * correct + total) / (2 * total)
    ensures 0 <= r <= 100
    ensures total * (2 * r - 1) <= 200 * correct < total * (2 * r + 1)
  {
    var n, d := 200 * correct + total, 2 * total;
    var m := n % d;
    assert n == d * r + m && 0 <= m < d;
    assert total * (2 * r - 1) == d * r - total;
    assert total * (2 * r + 1) == d * r + total;
    if r < 0 {
      MulMonotone(d, r, -1);
    } else if r > 100 {
      MulMonotone(d, 101, r);
    }
  }

  /** Seven answers of which three correct give 43 (300 / 7 = 42.86). */
  lemma AccuracyExample()
    ensures Accuracy(3, 7) == 43
  {
  }

  /** 23 correct out of 40 is exactly 57.5 percent, so the exact rounding
      gives 58. The page computes 23 / 40 * 100 in doubles, gets
      57.49999999999999 and shows 57. */
  lemma AccuracyHalfCase()
    ensures Accuracy(23, 40) == 58
  {
  }

  /** A game without a wrong answer has accuracy 100, one without a correct
      answer has accuracy 0. */
  lemma AccuracyExtremes(total: int)
    requires total > 0
    ensures Accuracy(total, total) == 100
    ensures Accuracy(0, total) == 0
  {
    var all := Accuracy(total, total);
    if all > 100 {
      MulMonotone(total, 201, 2 * all - 1);
    } else if all < 100 {
      MulMonotone(total, 2 * all + 1, 199);
    }
    var none := Accuracy(0, total);
    if none > 0 {
      MulMonotone(total, 1, 2 * none - 1);
    }
  }
}
