/** One game of the quiz: the variables the game updates as it runs, and the
    handlers that start it, take an answer, show the next question, count
    the clock down and end it. Timers, the page and the random source are
    outside: whoever drives the game calls `Tick` once per second, calls
    `NextQuestion` when the feedback delay has passed, and passes the
    random draws in. */
module Session {
  import opened Questions
  import opened Scoring

  datatype Option<T> = None | Some(value: T)

  /** What a submission returns to the page. Every variant but `Inactive`
      is shown to the player as feedback. */
  datatype Feedback =
    | Inactive                // the game is not running; nothing is shown
    | InvalidInput            // the input is not a number
    | Correct(points: int)    // the points just earned
    | Wrong(expected: int)    // the answer that was expected

  /** The figures on the end screen. */
  datatype Summary = Summary(finalScore: int, questionCount: int, accuracy: int)

  /** Seconds in one game. */
  const GameLength := 60

  class Game {
    var gameActive: bool
    var score: int
    var streak: int
    var timeRemaining: int
    var totalQuestions: int
    var correctAnswers: int
    var currentAnswer: Option<int>

    /** The answer counters as one value. */
    function Counters(): Tally
      reads this
    {
      Tally(score, streak, totalQuestions, correctAnswers)
    }

    /** The counters are consistent and the clock stays within the game's
        length. */
    ghost predicate Consistent()
      reads this
    {
      Counters().Valid() && 0 <= timeRemaining <= GameLength
    }

    /** Between handlers, moreover, a running game has time left and a
        question on show. */
    ghost predicate Valid()
      reads this
    {
      Consistent() && (gameActive ==> timeRemaining > 0 && currentAnswer.Some?)
    }

    /** The end-screen figures for the current counters. */
    function Report(): (s: Summary)
      reads this
      requires Counters().Valid()
      ensures s.finalScore == score && s.questionCount == totalQuestions
      ensures 0 <= s.accuracy <= 100
    {
      Summary(score, totalQuestions, Accuracy(correctAnswers, totalQuestions))
    }

    /** The state before the first game: inactive, all counters zero, a
        full clock and no question. */
    constructor ()
      ensures Valid() && !gameActive
      ensures Counters() == Initial && timeRemaining == GameLength
      ensures currentAnswer == None
    {
      gameActive := false;
      score, streak := 0, 0;
      timeRemaining := GameLength;
      totalQuestions, correctAnswers := 0, 0;
      currentAnswer := None;
    }

    /** Builds a question from the operation at `index` and two draws,
        keeps its answer as the expected one and returns it for display. */
    method GenerateQuestion(index: int, first: int, second: int) returns (q: Question)
      requires LegalDraws(index, first, second)
      modifies this`currentAnswer
      ensures q == Generate(index, first, second)
      ensures currentAnswer == Some(q.answer)
    {
      var operation := Operations[index];
      var num1, num2;
      if operation.symbol == '÷' {
        num2 := first;
        var result := second;
        num1 := result * num2;
      } else if operation.symbol == '×' {
        num1 := first;
        num2 := second;
      } else {
        num1 := first;
        num2 := second;
        if operation.symbol == '-' && num2 > num1 {
          num1, num2 := num2, num1;
        }
      }
      var answer := Calculate(operation.op, num1, num2);
      currentAnswer := Some(answer);
      q := Question(operation.op, num1, num2, answer);
    }

    /** Starts a game, whatever state the previous one was left in: all
        counters back to zero, the clock full, and a first question. */
    method StartGame(index: int, first: int, second: int) returns (q: Question)
      requires LegalDraws(index, first, second)
      modifies this
      ensures Valid() && gameActive
      ensures Counters() == Initial && timeRemaining == GameLength
      ensures q == Generate(index, first, second) && currentAnswer == Some(q.answer)
    {
      gameActive := true;
      score := 0;
      streak := 0;
      totalQuestions := 0;
      correctAnswers := 0;
      timeRemaining := GameLength;
      q := GenerateQuestion(index, first, second);
    }

    /** Takes the player's parsed input (None when it is not a number).
        Outside a game, or for an input that is not a number, nothing
        changes. Otherwise the answer is scored against the expected one. */
    method SubmitAnswer(input: Option<int>) returns (feedback: Feedback)
      requires Valid()
      modifies this
      ensures Valid()
      ensures gameActive == old(gameActive) && timeRemaining == old(timeRemaining)
      ensures currentAnswer == old(currentAnswer)
      ensures !gameActive ==> feedback == Inactive && Counters() == old(Counters())
      ensures gameActive && input.None? ==>
        feedback == InvalidInput && Counters() == old(Counters())
      ensures gameActive && input.Some? ==>
        Counters() == Judge(old(Counters()), input == currentAnswer) &&
        feedback == (if input == currentAnswer then Correct(BasePoints + streak)
                     else Wrong(currentAnswer.value))
    {
      if !gameActive {
        return Inactive;
      }
      if input.None? {
        return InvalidInput;
      }
      totalQuestions := totalQuestions + 1;
      if input == currentAnswer {
        correctAnswers := correctAnswers + 1;
        streak := streak + 1;
        score := score + BasePoints + streak;
        feedback := Correct(BasePoints + streak);
      } else {
        streak := 0;
        feedback := Wrong(currentAnswer.value);
      }
    }

    /** The delayed step after a submission: a new question if the game is
        still running, nothing otherwise. */
    method NextQuestion(index: int, first: int, second: int) returns (q: Option<Question>)
      requires Valid() && LegalDraws(index, first, second)
      modifies this`currentAnswer
      ensures Valid()
      ensures gameActive ==> q == Some(Generate(index, first, second)) && currentAnswer == Some(q.value.answer)
      ensures !gameActive ==> q == None && currentAnswer == old(currentAnswer)
    {
      if gameActive {
        var question := GenerateQuestion(index, first, second);
        q := Some(question);
      } else {
        q := None;
      }
    }

    /** One second of the clock. The timer only runs while a game does;
        when the clock reaches zero the game ends and its summary is
        returned. */
    method Tick() returns (ended: Option<Summary>)
      requires Valid() && gameActive
      modifies this
      ensures Valid()
      ensures timeRemaining == old(timeRemaining) - 1
      ensures gameActive <==> timeRemaining > 0
      ensures Counters() == old(Counters()) && currentAnswer == old(currentAnswer)
      ensures ended == if gameActive then None else Some(Report())
    {
      timeRemaining := timeRemaining - 1;
      if timeRemaining <= 0 {
        var summary := EndGame();
        ended := Some(summary);
      } else {
        ended := None;
      }
    }

    /** Ends the game and reports score, questions answered and accuracy.
        Only the active flag changes, so ending again reports the same. The
        clock calls it at zero, before the game is marked inactive, so it
        asks only for consistent counters. */
    method EndGame() returns (summary: Summary)
      requires Consistent()
      modifies this`gameActive
      ensures Valid() && !gameActive
      ensures summary == Report()
      ensures summary.accuracy == Accuracy(correctAnswers, totalQuestions)
    {
      gameActive := false;
      var accuracy := if totalQuestions > 0 then Accuracy(correctAnswers, totalQuestions) else 0;
      summary := Summary(score, totalQuestions, accuracy);
    }
  }
}
