/** The guess-selection engine of src/main.rs: the history of guesses, the
    numbers of the universe still consistent with it, and the choice of the
    next guess. The universe (the source's `ALL_LEGAL_NUMBERS` table) is a
    parameter, and the source's random index is a caller-supplied draw. */
module Engine {
  import opened Wrappers
  import Numbers
  import Feedback

  type Number = Numbers.Number
  type BullsAndCows = Feedback.BullsAndCows

  /** One history entry: a proposed number and the feedback it received. */
  datatype Guess = Guess(number: Number, bullsAndCows: BullsAndCows)

  /** `x` would have produced every recorded feedback, compared as the
      filter of `generate_number_smart` compares: `from(x, guess)`. */
  predicate Consistent(x: Number, guesses: seq<Guess>) {
    forall g <- guesses :: g.bullsAndCows == Feedback.From(x, g.number)
  }

  /** The universe's members consistent with the history, in universe order. */
  function Candidates(universe: seq<Number>, guesses: seq<Guess>): (r: seq<Number>)
    ensures forall x :: x in r <==> x in universe && Consistent(x, guesses)
    ensures |r| <= |universe|
  {
    if universe == [] then []
    else
      var rest := Candidates(universe[1..], guesses);
      if Consistent(universe[0], guesses) then [universe[0]] + rest else rest
  }

  /** `generate_number_smart`: a consistent member of the universe, or `None`
      exactly when there is none. `random(0, len)` is the draw `roll` taken
      modulo the number of candidates. */
  function GenerateNumberSmart(universe: seq<Number>, guesses: seq<Guess>, roll: nat): (r: Option<Number>)
    ensures r.Some? ==> r.value in universe && Consistent(r.value, guesses)
    ensures r.None? <==> forall x <- universe :: !Consistent(x, guesses)
  {
    var currentlyLegal := Candidates(universe, guesses);
    if |currentlyLegal| > 0 then
      assert currentlyLegal[0] in currentlyLegal;
      Some(currentlyLegal[roll % |currentlyLegal|])
    else
      None
  }

  /** The random choice can land on any consistent member of the universe. */
  lemma EveryCandidateCanBePicked(universe: seq<Number>, guesses: seq<Guess>, x: Number)
    requires x in universe && Consistent(x, guesses)
    ensures exists roll: nat :: GenerateNumberSmart(universe, guesses, roll) == Some(x)
  {
    var c := Candidates(universe, guesses);
    assert x in c;
    var i :| 0 <= i < |c| && c[i] == x;
    SmallRemainder(i, |c|);
    assert GenerateNumberSmart(universe, guesses, i) == Some(c[i]);
  }

  /** A draw below the number of candidates selects itself. */
  lemma SmallRemainder(i: nat, n: nat)
    requires i < n
    ensures i % n == i
  {
  }

  /** The fixed opening guess, 0123. */
  const Opener: Number := Numbers.Fields(0, 1, 2, 3)

  /** `Number::from("0123")` succeeds and yields the opener. */
  lemma OpenerParses()
    ensures Numbers.FromString("0123") == Some(Opener)
  {
    Numbers.FromStringToString(Opener);
  }

  /** `generate_number_to_guess`: the opener 0123 on an empty history, the
      smart choice on any other. */
  function GenerateNumberToGuess(universe: seq<Number>, guesses: seq<Guess>, roll: nat): (r: Option<Number>)
    ensures |guesses| == 0 ==> r == Some(Opener)
    ensures |guesses| > 0 ==> r == GenerateNumberSmart(universe, guesses, roll)
  {
    if |guesses| == 0 then
      OpenerParses();
      Some(Numbers.FromString("0123").value)
    else
      GenerateNumberSmart(universe, guesses, roll)
  }

  /** Filtering with a longer history is filtering the previous candidates
      with the newest entry only. */
  lemma {:induction false} CandidatesIncremental(universe: seq<Number>, guesses: seq<Guess>, g: Guess)
    ensures Candidates(universe, guesses + [g]) == Candidates(Candidates(universe, guesses), [g])
  {
    if universe != [] {
      var x := universe[0];
      CandidatesIncremental(universe[1..], guesses, g);
      assert Consistent(x, guesses + [g]) <==> Consistent(x, guesses) && Consistent(x, [g]) by {
        assert forall h <- guesses + [g] :: h in guesses || h == g;
        assert forall h <- guesses :: h in guesses + [g];
      }
      var previous := Candidates(universe, guesses);
      if Consistent(x, guesses) {
        assert previous == [x] + Candidates(universe[1..], guesses);
        assert previous[1..] == Candidates(universe[1..], guesses);
      }
    }
  }

  /** Adding a guess can only shrink the candidates. */
  lemma CandidatesShrink(universe: seq<Number>, guesses: seq<Guess>, g: Guess)
    ensures forall x <- Candidates(universe, guesses + [g]) :: x in Candidates(universe, guesses)
    ensures |Candidates(universe, guesses + [g])| <= |Candidates(universe, guesses)|
  {
    CandidatesIncremental(universe, guesses, g);
  }

  /** Filtering out a member that is inconsistent makes the sequence shorter. */
  lemma {:induction false} FilterDropsInconsistent(c: seq<Number>, guesses: seq<Guess>, x: Number)
    requires x in c && !Consistent(x, guesses)
    ensures |Candidates(c, guesses)| < |c|
  {
    if c[0] != x {
      FilterDropsInconsistent(c[1..], guesses, x);
    }
  }

  /** A candidate that is guessed and gets fewer than four bulls leaves the
      candidates, which therefore strictly shrink. */
  lemma WrongGuessShrinksCandidates(universe: seq<Number>, guesses: seq<Guess>, x: Number, f: BullsAndCows)
    requires x in Candidates(universe, guesses) && f.bulls < 4
    ensures |Candidates(universe, guesses + [Guess(x, f)])| < |Candidates(universe, guesses)|
  {
    var g := Guess(x, f);
    Feedback.FromSelf(x);
    assert !Consistent(x, [g]);
    CandidatesIncremental(universe, guesses, g);
    FilterDropsInconsistent(Candidates(universe, guesses), [g], x);
  }

  /** A history whose feedback was computed against `secret`, as the
      known-secret game computes it: `from(guess, secret)`. */
  predicate ScoredAgainst(guesses: seq<Guess>, secret: Number) {
    forall g <- guesses :: g.bullsAndCows == Feedback.From(g.number, secret)
  }

  /** The true secret is never filtered out, so the smart choice never
      fails in a game against a secret from the universe. */
  lemma SecretRetained(universe: seq<Number>, guesses: seq<Guess>, secret: Number, roll: nat)
    requires secret in universe && ScoredAgainst(guesses, secret)
    ensures secret in Candidates(universe, guesses)
    ensures GenerateNumberSmart(universe, guesses, roll).Some?
  {
    forall g <- guesses
      ensures g.bullsAndCows == Feedback.From(secret, g.number)
    {
      Feedback.FromSymmetric(secret, g.number);
    }
  }

  /** Two different numbers cannot both have earned four bulls: such a
      history leaves no candidate and the engine reports `None`. */
  lemma InconsistentHistory(universe: seq<Number>, roll: nat)
    ensures var guesses := [Guess(Opener, Feedback.Pair(4, 0)), Guess(Numbers.Fields(4, 5, 6, 7), Feedback.Pair(4, 0))];
      GenerateNumberSmart(universe, guesses, roll) == None
  {
    var second: Number := Numbers.Fields(4, 5, 6, 7);
    var guesses := [Guess(Opener, Feedback.Pair(4, 0)), Guess(second, Feedback.Pair(4, 0))];
    forall x <- universe
      ensures !Consistent(x, guesses)
    {
      Feedback.FourBullsIffEqual(x, Opener);
      Feedback.FourBullsIffEqual(x, second);
      assert guesses[0] in guesses && guesses[1] in guesses;
    }
  }
}
