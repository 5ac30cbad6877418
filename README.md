# Bulls and Cows codebreaker, modelled in Dafny

This project models the codebreaking engine of a Bulls-and-Cows solver
(`src/main.rs`). One side holds a secret: a four-digit number whose digits
are pairwise distinct. The engine keeps proposing numbers and receives for
each one the number of *bulls* (same digit, same position) and *cows* (a
shared digit in another position). It stops on four bulls.

Modules, one per part of the source:

- `Numbers` (`numbers.dfy`) is `Number`. Its fields are private `i8` digits and
  it is built only through `new`, which asserts validity. So `Number` is a
  subset type of a four-field datatype. The module also holds `to_tuple`, the
  textual form `to_string`, and the parser `from(&str)`. Every panic of the
  source (a failed `assert!` or `unwrap`) is `None` of an `Option`.
- `Feedback` (`feedback.dfy`) is `BullsAndCows`: a pair of `i8` counts that is a
  subset type for the same reason. It holds `new`, `is_correct`, `sum` and the
  comparison `from(n, m)`, written as the source's 16 position comparisons.
- `Exclusion` (`exclude.dfy`) is `ExcludeAll::exclude`. This is a loop that
  removes the first occurrence of each listed item from a vector. It is proved
  against `Without`, a reference definition: drop the first `q[v]`
  occurrences of every value `v`.
- `Engine` (`engine.dfy`) holds the history entry `Guess`, candidate filtering,
  `generate_number_smart` and `generate_number_to_guess`.
- `Game` (`game.dfy`) is the loop of `play_game`.
- `Wrappers` (`wrappers.dfy`) is the `Option` type.

Inputs from outside the code are parameters:

- The table `ALL_LEGAL_NUMBERS` is a parameter `universe: seq<Number>`.
- `random(0, len)` becomes a caller-supplied draw `roll`, taken modulo `len`.
  So every index in `[0, len)` can be chosen, and no other.
- In `play_game`, the draws are a function from round number to draw. The
  human player's answers are a function from (round, guess) to a feedback
  value.

The known-secret and human branches are selected by `numberOfPlayer`, as the
source's `assert_eq!(IS_PLAYER, number_of_player.is_none())` ties them.
The loop is proved to terminate for every input. From the second round on, a
guess without four bulls was itself a candidate and is inconsistent with its
own feedback, so the candidate sequence strictly shrinks. The opener of the
first round need not be in the universe, so the termination measure counts
that round separately.

When `generate_number_to_guess` returns `None`, `play_game` breaks out of the
loop after incrementing its counter, so the failed round is counted.
`PlayGame` therefore returns `n == |history| + 1` in both endings.

## Model

| member | source | states |
|---|---|---|
| `Numbers.New` | src/main.rs:16-19 | construction succeeds exactly on quadruples that pass `is_correct`, and keeps each digit in its position |
| `Numbers.IsCorrect` | src/main.rs:30-41 | `is_correct`: the four digits are in 0..9 and pairwise distinct |
| `Numbers.IsCorrectIffFourDistinctDigits` | src/main.rs:30-41 | `is_correct` holds iff all digits are in 0..9 and the four digits form a set of four elements |
| `Numbers.ToTuple` | src/main.rs:48-50 | the tuple view is a correct quadruple, and `new` rebuilds the same number from it |
| `Numbers.DigitChar` | src/main.rs:45 | a digit 0..9 prints as one character '0'..'9' |
| `Numbers.ParseDigit` | src/main.rs:23-26 | parsing one character as `i8` succeeds iff it is a decimal digit; the value is in 0..9 and prints back as the same character |
| `Numbers.ToString` | src/main.rs:43-46 | the text of a number is exactly four decimal-digit characters (leading zero kept) |
| `Numbers.FromString` | src/main.rs:21-28 | parsing fails on any length other than 4; a successful parse yields a number whose text is the input |
| `Numbers.FromStringToString` | src/main.rs:21-46 | round trip: every number parses back from its own text |
| `Numbers.FromStringIffToString` | src/main.rs:21-46 | a string parses to `n` iff it is the text of `n` |
| `Feedback.IsCorrect` | src/main.rs:70-74 | `is_correct`: bulls, cows and their sum are each in 0..4 |
| `Feedback.New` | src/main.rs:65-74 | construction succeeds exactly on pairs with bulls, cows and their sum in 0..4, and keeps both counts |
| `Feedback.BullsCountMatchingPositions` | src/main.rs:77-81 | the four same-position comparisons count the positions where both numbers hold the same digit |
| `Feedback.BullsAndCowsCountSharedDigits` | src/main.rs:77-94 | the 16 comparisons sum to the number of digits the two numbers share, which is between 0 and 4 |
| `Feedback.From` | src/main.rs:76-96 | bulls are the matching positions; bulls plus cows are the shared digits. The result is always in range, so the assertion in `new` cannot fire |
| `Feedback.Sum` | src/main.rs:98 | the sum of a feedback is at least each count and at most 4 |
| `Feedback.SumCountsSharedDigits` | src/main.rs:98 | the sum of a comparison is the number of shared digits |
| `Feedback.FromSelf` | src/main.rs:76-95 | comparing a number with itself gives (4, 0) |
| `Feedback.FromSymmetric` | src/main.rs:76-95 | swapping the arguments changes neither bulls nor cows |
| `Feedback.FourBullsIffEqual` | src/main.rs:76-95 | four bulls iff the two numbers are equal |
| `Feedback.ThreeBullsNoCow` | src/main.rs:76-95 | three bulls always come with zero cows, so (3, 1) never occurs |
| `Exclusion.Position` | src/main.rs:152 | `position` finds the first index holding the item, and is `None` iff the item is absent |
| `Exclusion.Exclude` | src/main.rs:145-156 | `exclude` succeeds iff the multiset of items is contained in the input's; it then returns `Without(input, items)` |
| `Exclusion.ExcludeMissing` | src/main.rs:151-153 | the loop hits a missing item (the `unwrap` panic) only when the items ask for more copies of a value than the input has |
| `Exclusion.ExcludeRemove` | src/main.rs:151-154 | one removal round keeps the loop invariant: the vector equals the input without the items processed so far |
| `Exclusion.RemoveFirstFromWithout` | src/main.rs:152-153 | removing the first occurrence of an item from `Without(s, q)` gives `Without(s, q + {item})` |
| `Exclusion.CanDropOneMore` | src/main.rs:152 | an item is still present iff one more copy of it can be taken from the input |
| `Exclusion.WithoutMultiset` | src/main.rs:145-156 | the result holds exactly the input's elements minus the excluded ones, counted with multiplicity |
| `Exclusion.WithoutLength` | src/main.rs:145-156 | when every item is present, the result has length `|input| - |items|` |
| `Exclusion.WithoutIsSubsequence` | src/main.rs:145-156 | the remaining elements keep their order (the result is a subsequence of the input) |
| `Exclusion.ExcludeDigitsExample` | src/main.rs:351-357 | excluding 0, 2, 3, 6, 9 from 0..9 leaves 1, 4, 5, 7, 8 |
| `Exclusion.ExcludeDigitsTest` | src/main.rs:351-357 | running `exclude` on the ten digits with items 0, 2, 3, 6, 9 returns `Some([1, 4, 5, 7, 8])` |
| `Exclusion.ExampleItemsPresent` | src/main.rs:351-357 | every item of the test is present among the ten digits, so `exclude` succeeds there |
| `Engine.Guess` | src/main.rs:103-116 | a history entry pairs a proposed number with the feedback it received |
| `Engine.Candidates` | src/main.rs:195-201 | a number is a candidate iff it is in the universe and `from(number, guess)` equals the recorded feedback for every history entry |
| `Engine.GenerateNumberSmart` | src/main.rs:194-213 | `Some(x)` only for a universe member consistent with the whole history; `None` iff no universe member is consistent |
| `Engine.EveryCandidateCanBePicked` | src/main.rs:206-209 | every consistent universe member is returned for some draw |
| `Engine.OpenerParses` | src/main.rs:223 | `Number::from("0123")` succeeds and yields 0123 |
| `Engine.GenerateNumberToGuess` | src/main.rs:218-254 | empty history gives `Some(0123)`; any other history gives exactly what `generate_number_smart` gives |
| `Engine.CandidatesIncremental` | src/main.rs:195-201 | filtering with one more entry equals filtering the previous candidates with the new entry alone |
| `Engine.CandidatesShrink` | src/main.rs:195-201 | adding a guess can only shrink the candidates, as a set and in number |
| `Engine.WrongGuessShrinksCandidates` | src/main.rs:296-304 | a guessed candidate that gets fewer than four bulls drops out, so the candidates strictly shrink |
| `Engine.SecretRetained` | src/main.rs:194-213 | if every feedback was computed against the secret as in `play_game`, the secret stays a candidate and the smart choice never returns `None` |
| `Engine.InconsistentHistory` | src/main.rs:206-212 | a history in which 0123 and 4567 both got four bulls leaves no candidate; the engine returns `None` |
| `Game.Reply` | src/main.rs:290-297 | `from(guess, secret)` when the secret is known, so the reply has four bulls exactly when the guess is the secret; the player's answer otherwise |
| `Game.RecordChoice` | src/main.rs:278-304 | appending the engine's choice keeps "every entry is the engine's choice for the history before it" |
| `Game.RecordReply` | src/main.rs:290-304 | appending a non-winning reply keeps "every entry's feedback is the reply to its guess and has fewer than 4 bulls" |
| `Game.PlayGame` | src/main.rs:270-307 | the returned `n` is the number of rounds played (history length plus one). Each entry is the engine's choice with its draw, paired with the reply it got, which had fewer than four bulls. The game ends on four bulls or on `None`. Against a known secret from the universe it always ends by guessing that secret. Against 0123 it ends after one round. The loop terminates on every input |

## Left out

- Console I/O is not modelled: `prompt`, reading stdin, every `print!`/`println!`, and the dump of candidates in player mode. The player's answers are a parameter `human` that returns only in-range feedback, so the panics of the human branch are not modelled: the `assert!` of `BullsAndCows::new` on out-of-range counts and the `unwrap` on non-numeric text.
- `IS_PLAYER` and the compile-time feature that selects it are not modelled. `PlayGame` picks its branch from `numberOfPlayer`, which the source asserts agrees with the flag.
- `random` and `thread_rng` are replaced by caller-supplied draws. Nothing about the distribution is modelled.
- `generate_number_random` is not modelled. Only commented-out code uses it.
- `bench`, `count_guesses` and the `f64` average in `main` are not modelled. Replaying 5040 games is not a proof; the model bounds nothing about the number of rounds beyond proving that the loop terminates.
- The module `all_legal_numbers` is not part of this model. The universe is a parameter. That it holds exactly the 5040 valid numbers without duplicates is not proved.
- Game.PlayGame: the round counter is a `nat`, so the overflow of the source's `u8` counter beyond 255 rounds is not modelled.
- Numbers.FromString: strings are sequences of characters, while the source measures and indexes bytes. Both reject every string that contains a non-ASCII character, so the outcome is the same. Only the kind of panic can differ, and the model does not distinguish panics.
- The getters (`get_bulls`, `get_number`, `get_bulls_and_cows`) and `Guess::new` are datatype fields and the datatype constructor.
- Exclusion.Exclude: the source's `Vec<T>` with `T: Copy + PartialEq` is a sequence over a type with equality. Removal builds a new sequence rather than shifting elements in place.
