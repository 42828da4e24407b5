/** Whole games driven through the handlers of `Session.Game`, the way the
    page drives them: start, answer, then the one-second timer until the
    clock runs out. Each method checks what a player would see. */
module Scenarios {
  import opened Questions
  import opened Scoring
  import opened Session

  /** A game with one correct answer left to run out: the answer earns 11
      points, the 60th tick ends the game, the end screen shows 11 points,
      one question and 100% accuracy, and ending once more shows the same. */
  method OneCorrectThenTimeOut(index: int, first: int, second: int)
    returns (feedback: Feedback, ticks: nat, summary: Summary, again: Summary)
    requires LegalDraws(index, first, second)
    ensures feedback == Correct(11)
    ensures ticks == GameLength
    ensures summary == Summary(11, 1, 100) && again == summary
  {
    var game := new Game();
    var q := game.StartGame(index, first, second);
    feedback := game.SubmitAnswer(Some(q.answer));
    assert game.Counters() == Tally(11, 1, 1, 1);
    ticks := 0;
    var ended: Option<Summary> := None;
    while ended.None?
      invariant game.Valid() && game.Counters() == Tally(11, 1, 1, 1)
      invariant game.timeRemaining == GameLength - ticks
      invariant game.gameActive <==> ended.None?
      invariant game.gameActive <==> game.timeRemaining > 0
      invariant ended.Some? ==> ended.value == game.Report()
      decreases game.timeRemaining
    {
      ended := game.Tick();
      ticks := ticks + 1;
    }
    summary := ended.value;
    AccuracyExtremes(1);
    again := game.EndGame();
  }

  /** After the game ends, answers are refused and the counters stay put;
      an input that is not a number is refused during the game too. */
  method AnswersOutsideAGame(index: int, first: int, second: int, input: Option<int>)
    returns (duringGame: Feedback, afterEnd: Feedback, before: Tally, after: Tally)
    requires LegalDraws(index, first, second)
    ensures duringGame == InvalidInput
    ensures afterEnd == Inactive && after == before == Initial
  {
    var game := new Game();
    var q := game.StartGame(index, first, second);
    duringGame := game.SubmitAnswer(None);
    var summary := game.EndGame();
    before := game.Counters();
    afterEnd := game.SubmitAnswer(input);
    after := game.Counters();
  }

  /** A wrong answer after a correct one: the player is shown the expected
      answer, the streak is back to 0 and the score keeps its 11 points. */
  method CorrectThenWrong(index: int, first: int, second: int, input: int)
    returns (firstFeedback: Feedback, secondFeedback: Feedback, counters: Tally)
    requires LegalDraws(index, first, second)
    requires input != Generate(index, first, second).answer
    ensures firstFeedback == Correct(11)
    ensures secondFeedback == Wrong(Generate(index, first, second).answer)
    ensures counters == Tally(11, 0, 2, 1)
  {
    var game := new Game();
    var q := game.StartGame(index, first, second);
    firstFeedback := game.SubmitAnswer(Some(q.answer));
    var next := game.NextQuestion(index, first, second);
    secondFeedback := game.SubmitAnswer(Some(input));
    counters := game.Counters();
  }
}
