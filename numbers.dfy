/** The four-digit code of the game (`Number` in src/main.rs): four signed
    8-bit digits in 0..9, pairwise distinct, with its checked constructor,
    its tuple view and its textual form. */
module Numbers {
  import opened Wrappers

  /** The source keeps every digit and every count in an `i8`. */
  type I8 = x: int | -128 <= x < 128

  /** A boolean converted to a count, as `(p) as i8` does. */
  function Ind(p: bool): int {
    if p then 1 else 0
  }

  /** The validity test of a digit quadruple: all four in 0..9, no two equal. */
  predicate IsCorrect(a: I8, b: I8, c: I8, d: I8) {
    && 0 <= a <= 9 && 0 <= b <= 9 && 0 <= c <= 9 && 0 <= d <= 9
    && a != b && a != c && a != d
    && b != c && b != d
    && c != d
  }

  datatype Fields = Fields(a: I8, b: I8, c: I8, d: I8)

  /** The fields are private to the source's module and the only way to build
      a value asserts `IsCorrect`, so every `Number` satisfies it. */
  type Number = n: Fields | IsCorrect(n.a, n.b, n.c, n.d) witness Fields(0, 1, 2, 3)

  /** `Number::new`: succeeds exactly on correct quadruples and keeps the
      digits in their positions; `None` stands for the failed assertion. */
  function New(a: I8, b: I8, c: I8, d: I8): (r: Option<Number>)
    ensures r.Some? <==> IsCorrect(a, b, c, d)
    ensures r.Some? ==> r.value.a == a && r.value.b == b && r.value.c == c && r.value.d == d
  {
    if IsCorrect(a, b, c, d) then Some(Fields(a, b, c, d)) else None
  }

  /** `Number::to_tuple`: the view is a correct quadruple from which `New`
      rebuilds the very same number. */
  function ToTuple(n: Number): (t: (I8, I8, I8, I8))
    ensures IsCorrect(t.0, t.1, t.2, t.3)
    ensures New(t.0, t.1, t.2, t.3) == Some(n)
  {
    (n.a, n.b, n.c, n.d)
  }

  /** The digit at position `i`, counted from the left. */
  function Digit(n: Number, i: nat): I8
    requires i < 4
  {
    match i
    case 0 => n.a
    case 1 => n.b
    case 2 => n.c
    case _ => n.d
  }

  /** The digits of a number, as a set. */
  function DigitSet(n: Number): set<int> {
    {n.a, n.b, n.c, n.d}
  }

  /** Counting a selection out of four distinct values: the set of the
      selected ones has as many elements as there are selections. */
  lemma CountSelected(a: int, b: int, c: int, d: int, pa: bool, pb: bool, pc: bool, pd: bool, s: set<int>)
    requires a != b && a != c && a != d && b != c && b != d && c != d
    requires forall x :: x in s <==> (pa && x == a) || (pb && x == b) || (pc && x == c) || (pd && x == d)
    ensures |s| == Ind(pa) + Ind(pb) + Ind(pc) + Ind(pd)
  {
    var sc := set x | x in s && x != d;
    var sb := set x | x in sc && x != c;
    var sa := set x | x in sb && x != b;
    CountStep(sa, a, pa, {});
    CountStep(sb, b, pb, sa);
    CountStep(sc, c, pc, sb);
    CountStep(s, d, pd, sc);
  }

  /** One step of `CountSelected`: `s` is `t`, plus `x` when `p` holds. */
  lemma CountStep(s: set<int>, x: int, p: bool, t: set<int>)
    requires x !in t
    requires forall y :: y in s <==> (p && y == x) || y in t
    ensures |s| == |t| + Ind(p)
  {
    if p {
      assert forall y :: y in s <==> y in t + {x};
      assert s == t + {x};
    } else {
      assert forall y :: y in s <==> y in t;
      assert s == t;
    }
  }

  /** A quadruple is correct exactly when its digits are in 0..9 and form a
      set of four, i.e. "pairwise distinct" is "no digit repeats". */
  lemma IsCorrectIffFourDistinctDigits(a: I8, b: I8, c: I8, d: I8)
    ensures IsCorrect(a, b, c, d) <==>
      (0 <= a <= 9 && 0 <= b <= 9 && 0 <= c <= 9 && 0 <= d <= 9) && |{a, b, c, d}| == 4
  {
    var s: set<int> := {a, b, c, d};
    if a != b && a != c && a != d && b != c && b != d && c != d {
      CountSelected(a, b, c, d, true, true, true, true, s);
    } else {
      var t: set<int> :=
        if a == b || a == c || a == d then {b, c, d}
        else if b == c || b == d then {a, c, d}
        else {a, b, c};
      assert s == t;
      assert |t| <= 3;
    }
  }

  /** The character printed for a digit 0..9. */
  function DigitChar(d: I8): (ch: char)
    requires 0 <= d <= 9
    ensures '0' <= ch <= '9'
  {
    ('0' as int + d) as char
  }

  /** Parsing one character as an `i8`: only a decimal digit succeeds, and
      it is the inverse of `DigitChar`. */
  function ParseDigit(ch: char): (r: Option<I8>)
    ensures r.Some? <==> '0' <= ch <= '9'
    ensures r.Some? ==> 0 <= r.value <= 9 && DigitChar(r.value) == ch
  {
    if '0' <= ch <= '9' then Some(ch as int - '0' as int) else None
  }

  /** `Number::to_string`: the four digits concatenated, leading zero kept. */
  function ToString(n: Number): (s: string)
    ensures |s| == 4
    ensures forall i :: 0 <= i < 4 ==> '0' <= s[i] <= '9'
  {
    [DigitChar(n.a), DigitChar(n.b), DigitChar(n.c), DigitChar(n.d)]
  }

  /** `Number::from(&str)`: the length must be 4, every character must parse
      as a digit and the digits must be correct; `None` is the panic. */
  function FromString(s: string): (r: Option<Number>)
    ensures |s| != 4 ==> r.None?
    ensures r.Some? ==> ToString(r.value) == s
  {
    if |s| != 4 then None
    else
      var a :- ParseDigit(s[0]);
      var b :- ParseDigit(s[1]);
      var c :- ParseDigit(s[2]);
      var d :- ParseDigit(s[3]);
      New(a, b, c, d)
  }

  /** String round trip: every number is read back from its own text. */
  lemma FromStringToString(n: Number)
    ensures FromString(ToString(n)) == Some(n)
  {
    var s := ToString(n);
    assert ParseDigit(s[0]) == Some(n.a);
    assert ParseDigit(s[1]) == Some(n.b);
    assert ParseDigit(s[2]) == Some(n.c);
    assert ParseDigit(s[3]) == Some(n.d);
  }

  /** `FromString` and `ToString` are inverse: a string parses to `n` exactly
      when it is the canonical text of `n`. */
  lemma FromStringIffToString(s: string, n: Number)
    ensures FromString(s) == Some(n) <==> s == ToString(n)
  {
    if s == ToString(n) {
      FromStringToString(n);
    }
  }
}
