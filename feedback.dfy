/** The feedback of one guess (`BullsAndCows` in src/main.rs): bulls are
    digits in the same position, cows are digits present in both numbers but
    in different positions. */
module Feedback {
  import opened Wrappers
  import Numbers

  type I8 = Numbers.I8
  type Number = Numbers.Number

  /** The range test of a feedback pair. */
  predicate IsCorrect(bulls: I8, cows: I8) {
    && 0 <= bulls <= 4
    && 0 <= cows <= 4
    && 0 <= bulls + cows <= 4
  }

  datatype Pair = Pair(bulls: I8, cows: I8)

  /** As for `Number`, the fields are private and the only constructor
      asserts `IsCorrect`, so every feedback value is in range. */
  type BullsAndCows = p: Pair | IsCorrect(p.bulls, p.cows) witness Pair(0, 0)

  /** `BullsAndCows::new`: succeeds exactly on in-range pairs and keeps both
      counts; `None` stands for the failed assertion. */
  function New(bulls: I8, cows: I8): (r: Option<BullsAndCows>)
    ensures r.Some? <==> IsCorrect(bulls, cows)
    ensures r.Some? ==> r.value.bulls == bulls && r.value.cows == cows
  {
    if IsCorrect(bulls, cows) then Some(Pair(bulls, cows)) else None
  }

  /** The four same-position comparisons of `BullsAndCows::from`. */
  function Bulls(n: Number, m: Number): I8 {
    Numbers.Ind(n.a == m.a) + Numbers.Ind(n.b == m.b) + Numbers.Ind(n.c == m.c) + Numbers.Ind(n.d == m.d)
  }

  /** The twelve cross-position comparisons of `BullsAndCows::from`. */
  function Cows(n: Number, m: Number): I8 {
    Numbers.Ind(n.a == m.b) + Numbers.Ind(n.a == m.c) + Numbers.Ind(n.a == m.d) +
    Numbers.Ind(n.b == m.a) + Numbers.Ind(n.b == m.c) + Numbers.Ind(n.b == m.d) +
    Numbers.Ind(n.c == m.a) + Numbers.Ind(n.c == m.b) + Numbers.Ind(n.c == m.d) +
    Numbers.Ind(n.d == m.a) + Numbers.Ind(n.d == m.b) + Numbers.Ind(n.d == m.c)
  }

  /** The positions where both numbers carry the same digit. */
  function MatchingPositions(n: Number, m: Number): set<int> {
    set i: int | 0 <= i < 4 && Numbers.Digit(n, i) == Numbers.Digit(m, i)
  }

  /** The digits the two numbers have in common, wherever they stand. */
  function SharedDigits(n: Number, m: Number): set<int> {
    Numbers.DigitSet(n) * Numbers.DigitSet(m)
  }

  lemma BullsCountMatchingPositions(n: Number, m: Number)
    ensures Bulls(n, m) == |MatchingPositions(n, m)|
  {
    Numbers.CountSelected(0, 1, 2, 3, n.a == m.a, n.b == m.b, n.c == m.c, n.d == m.d, MatchingPositions(n, m));
  }

  lemma BullsAndCowsCountSharedDigits(n: Number, m: Number)
    ensures Bulls(n, m) + Cows(n, m) == |SharedDigits(n, m)|
    ensures 0 <= Bulls(n, m) <= 4 && 0 <= Cows(n, m) && Bulls(n, m) + Cows(n, m) <= 4
  {
    var other := Numbers.DigitSet(m);
    Numbers.CountSelected(n.a, n.b, n.c, n.d, n.a in other, n.b in other, n.c in other, n.d in other, SharedDigits(n, m));
    DigitOccurrences(n.a, m);
    DigitOccurrences(n.b, m);
    DigitOccurrences(n.c, m);
    DigitOccurrences(n.d, m);
  }

  /** A digit occurs in a number at most once, so whether it occurs is the
      number of positions holding it. */
  lemma DigitOccurrences(x: int, m: Number)
    ensures Numbers.Ind(x in Numbers.DigitSet(m)) ==
      Numbers.Ind(x == m.a) + Numbers.Ind(x == m.b) + Numbers.Ind(x == m.c) + Numbers.Ind(x == m.d)
  {
  }

  /** `BullsAndCows::from(n, m)`. Bulls count the matching positions and
      bulls plus cows count the shared digits, so cows are the shared digits
      that stand elsewhere; and the assertion of `new` never fails here. */
  function From(n: Number, m: Number): (r: BullsAndCows)
    ensures r.bulls == |MatchingPositions(n, m)|
    ensures r.bulls + r.cows == |SharedDigits(n, m)|
  {
    BullsCountMatchingPositions(n, m);
    BullsAndCowsCountSharedDigits(n, m);
    New(Bulls(n, m), Cows(n, m)).value
  }

  /** `BullsAndCows::sum`: bulls plus cows; for a comparison, the number of
      digits the two numbers share (`SumCountsSharedDigits`). */
  function Sum(f: BullsAndCows): (s: I8)
    ensures f.bulls <= s <= 4
    ensures f.cows <= s
  {
    f.bulls + f.cows
  }

  /** The sum of a comparison is the number of shared digits. */
  lemma SumCountsSharedDigits(n: Number, m: Number)
    ensures Sum(From(n, m)) == |SharedDigits(n, m)|
  {
  }

  /** Comparing a number with itself gives four bulls and no cow. */
  lemma FromSelf(n: Number)
    ensures From(n, n) == Pair(4, 0)
  {
  }

  /** Swapping the arguments changes neither bulls nor cows. */
  lemma FromSymmetric(n: Number, m: Number)
    ensures From(n, m).bulls == From(m, n).bulls
    ensures From(n, m).cows == From(m, n).cows
  {
  }

  /** Four bulls mean the two numbers are equal, and only then. */
  lemma FourBullsIffEqual(n: Number, m: Number)
    ensures From(n, m).bulls == 4 <==> n == m
  {
    assert From(n, m).bulls == Bulls(n, m);
    if Bulls(n, m) == 4 {
      assert n.a == m.a && n.b == m.b && n.c == m.c && n.d == m.d;
    }
  }

  /** Three bulls leave no room for a cow: (3, 1) is never produced. */
  lemma ThreeBullsNoCow(n: Number, m: Number)
    ensures From(n, m).bulls == 3 ==> From(n, m).cows == 0
  {
    assert From(n, m) == Pair(Bulls(n, m), Cows(n, m));
    if Bulls(n, m) == 3 {
      if n.a != m.a {
        assert n.b == m.b && n.c == m.c && n.d == m.d;
      } else if n.b != m.b {
        assert n.c == m.c && n.d == m.d;
      } else if n.c != m.c {
        assert n.d == m.d;
      }
    }
  }
}
