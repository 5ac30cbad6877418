/** The game loop `play_game` of src/main.rs: guess, obtain feedback, stop on
    four bulls, otherwise record the guess and go on. The feedback comes
    from the known secret in simulation and from the human player otherwise;
    the player's answers are a parameter, as are the random draws. */
module Game {
  import opened Wrappers
  import Numbers
  import Feedback
  import opened Engine

  /** How a game ends: the number that earned four bulls, or the engine
      finding no number consistent with the answers (the human erred). */
  datatype Outcome = Solved(answer: Number) | NoConsistentNumber

  /** The feedback for `guess` in round `round`: computed against the secret
      when it is known, the human player's answer otherwise. */
  function Reply(numberOfPlayer: Option<Number>, human: (nat, Number) -> BullsAndCows, round: nat, guess: Number): (r: BullsAndCows)
    ensures numberOfPlayer.Some? ==> (r.bulls == 4 <==> guess == numberOfPlayer.value)
    ensures numberOfPlayer.None? ==> r == human(round, guess)
  {
    match numberOfPlayer
    case Some(secret) =>
      Feedback.FourBullsIffEqual(guess, secret);
      Feedback.From(guess, secret)
    case None => human(round, guess)
  }

  /** Every recorded guess is the engine's choice for the history before it,
      with the draw of its round (round k + 1 for entry k). */
  ghost predicate EngineChoseEach(universe: seq<Number>, rolls: nat -> nat, history: seq<Guess>) {
    forall k :: 0 <= k < |history| ==>
      GenerateNumberToGuess(universe, history[..k], rolls(k + 1)) == Some(history[k].number)
  }

  /** Every recorded feedback is the reply to its guess and has fewer than
      four bulls. */
  ghost predicate RecordedReplies(numberOfPlayer: Option<Number>, human: (nat, Number) -> BullsAndCows, history: seq<Guess>) {
    forall k :: 0 <= k < |history| ==>
      history[k].bullsAndCows == Reply(numberOfPlayer, human, k + 1, history[k].number) &&
      history[k].bullsAndCows.bulls < 4
  }

  /** Recording the engine's choice keeps `EngineChoseEach`. */
  lemma RecordChoice(universe: seq<Number>, rolls: nat -> nat, history: seq<Guess>, g: Guess)
    requires EngineChoseEach(universe, rolls, history)
    requires GenerateNumberToGuess(universe, history, rolls(|history| + 1)) == Some(g.number)
    ensures EngineChoseEach(universe, rolls, history + [g])
  {
    var next := history + [g];
    forall k | 0 <= k < |next|
      ensures GenerateNumberToGuess(universe, next[..k], rolls(k + 1)) == Some(next[k].number)
    {
      if k < |history| {
        assert next[..k] == history[..k] && next[k] == history[k];
      } else {
        assert next[..k] == history;
      }
    }
  }

  /** Recording the reply to a guess that did not win keeps `RecordedReplies`. */
  lemma RecordReply(numberOfPlayer: Option<Number>, human: (nat, Number) -> BullsAndCows,
                    history: seq<Guess>, g: Guess)
    requires RecordedReplies(numberOfPlayer, human, history)
    requires g.bullsAndCows == Reply(numberOfPlayer, human, |history| + 1, g.number)
    requires g.bullsAndCows.bulls < 4
    ensures RecordedReplies(numberOfPlayer, human, history + [g])
  {
    var next := history + [g];
    forall k | 0 <= k < |next|
      ensures next[k].bullsAndCows == Reply(numberOfPlayer, human, k + 1, next[k].number)
      ensures next[k].bullsAndCows.bulls < 4
    {
      if k < |history| {
        assert next[k] == history[k];
      }
    }
  }

  /** `play_game`. Returns the number of rounds `n`; `history` and `outcome`
      describe the game it played. Every recorded guess is the engine's
      choice for the history before it, every recorded feedback is the
      reply to it and has fewer than four bulls, and the game stops on
      four bulls or when the engine has nothing left to propose. Against a
      known secret of the universe it always ends by guessing the secret,
      and against 0123 it ends in one round. */
  method PlayGame(universe: seq<Number>, numberOfPlayer: Option<Number>,
                  human: (nat, Number) -> BullsAndCows, rolls: nat -> nat)
    returns (n: nat, ghost history: seq<Guess>, ghost outcome: Outcome)
    ensures n == |history| + 1
    ensures EngineChoseEach(universe, rolls, history)
    ensures RecordedReplies(numberOfPlayer, human, history)
    ensures outcome.Solved? ==>
      GenerateNumberToGuess(universe, history, rolls(n)) == Some(outcome.answer) &&
      Reply(numberOfPlayer, human, n, outcome.answer).bulls == 4
    ensures outcome.NoConsistentNumber? ==>
      GenerateNumberToGuess(universe, history, rolls(n)) == None
    ensures numberOfPlayer.Some? && numberOfPlayer.value in universe ==>
      outcome == Solved(numberOfPlayer.value)
    ensures numberOfPlayer == Some(Opener) ==> n == 1
  {
    var guesses: seq<Guess> := [];
    n := 0;
    while true
      invariant n == |guesses|
      invariant EngineChoseEach(universe, rolls, guesses)
      invariant RecordedReplies(numberOfPlayer, human, guesses)
      invariant numberOfPlayer == Some(Opener) ==> guesses == []
      decreases |Candidates(universe, guesses)| + (if guesses == [] then 1 else 0)
    {
      n := n + 1;
      if numberOfPlayer.Some? && numberOfPlayer.value in universe && guesses != [] {
        SecretRetained(universe, guesses, numberOfPlayer.value, rolls(n));
      }
      var numberToGuess: Number;
      match GenerateNumberToGuess(universe, guesses, rolls(n)) {
        case Some(x) =>
          numberToGuess := x;
        case None =>
          history, outcome := guesses, NoConsistentNumber;
          break;
      }
      var bullsAndCows := Reply(numberOfPlayer, human, n, numberToGuess);
      if bullsAndCows.bulls == 4 {
        if numberOfPlayer.Some? {
          Feedback.FourBullsIffEqual(numberToGuess, numberOfPlayer.value);
        }
        history, outcome := guesses, Solved(numberToGuess);
        break;
      }
      if guesses == [] {
        CandidatesShrink(universe, guesses, Guess(numberToGuess, bullsAndCows));
      } else {
        WrongGuessShrinksCandidates(universe, guesses, numberToGuess, bullsAndCows);
      }
      RecordChoice(universe, rolls, guesses, Guess(numberToGuess, bullsAndCows));
      RecordReply(numberOfPlayer, human, guesses, Guess(numberToGuess, bullsAndCows));
      guesses := guesses + [Guess(numberToGuess, bullsAndCows)];
    }
  }
}
