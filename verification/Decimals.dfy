/** Decimal numbers as a coefficient and an explicit exponent, computed in a context of 28 digits
    that rounds half to even. Only the operations money needs are here. */
module Decimals {

  const PRECISION: nat := 28

  /** The smallest coefficient with more than 28 digits. */
  const PRECISION_BOUND: int := 10_000_000_000_000_000_000_000_000_000

  /** `Finite(c, e)` is c * 10^e; two different pairs may be the same number. */
  datatype Decimal = Finite(coefficient: int, exponent: int) | NotFinite

  /** A coefficient with `n` zeros written after it. */
  function Shift(c: int, n: nat): int {
    if n == 0 then c else 10 * Shift(c, n - 1)
  }

  function Abs(x: int): nat {
    if x < 0 then -x else x
  }

  function Min(x: int, y: int): int {
    if x <= y then x else y
  }

  /** The character of a digit. */
  function Digit(d: nat): (c: char)
    requires d < 10
    ensures '0' <= c <= '9' && c as int - '0' as int == d
  {
    "0123456789"[d]
  }

  /** How many decimal digits a coefficient has. */
  function DigitCount(n: nat): nat {
    if n < 10 then 1 else 1 + DigitCount(n / 10)
  }

  /** The coefficient the number would have at a smaller or equal exponent. */
  function Scaled(d: Decimal, exponent: int): int
    requires d.Finite? && exponent <= d.exponent
  {
    Shift(d.coefficient, d.exponent - exponent)
  }

  /** Half-even rounding to a multiple of `unit`, counted in units. */
  function RoundHalfEven(n: nat, unit: int): int
    requires unit >= 1
  {
    var kept, rest := n / unit, n % unit;
    if 2 * rest > unit || (2 * rest == unit && kept % 2 == 1) then kept + 1 else kept
  }

  /** The nearest number of 28 digits to one that has more. */
  function RoundLong(d: Decimal): Decimal
    requires d.Finite?
  {
    var drop := DigitCount(Abs(d.coefficient)) - PRECISION;
    if drop <= 0 then d
    else
      ShiftIsPositive(1, drop);
      var rounded := RoundHalfEven(Abs(d.coefficient), Shift(1, drop));
      var (kept, exponent) :=
        if rounded == PRECISION_BOUND then (rounded / 10, d.exponent + drop + 1) else (rounded, d.exponent + drop);
      Finite(if d.coefficient < 0 then -kept else kept, exponent)
  }

  /** What the context does to an exact result. */
  function Round(d: Decimal): Decimal {
    if d.NotFinite? || Abs(d.coefficient) < PRECISION_BOUND then d else RoundLong(d)
  }

  function Times(d: Decimal, n: int): Decimal {
    if d.NotFinite? then NotFinite else Round(Finite(d.coefficient * n, d.exponent))
  }

  function Add(a: Decimal, b: Decimal): Decimal {
    if a.NotFinite? || b.NotFinite? then NotFinite
    else
      var e := Min(a.exponent, b.exponent);
      Round(Finite(Scaled(a, e) + Scaled(b, e), e))
  }

  /** Numeric comparison, whatever the exponents. */
  predicate LessThan(a: Decimal, b: Decimal)
    requires a.Finite? && b.Finite?
  {
    var e := Min(a.exponent, b.exponent);
    Scaled(a, e) < Scaled(b, e)
  }

  predicate SameNumber(a: Decimal, b: Decimal) {
    a.Finite? && b.Finite? && var e := Min(a.exponent, b.exponent); Scaled(a, e) == Scaled(b, e)
  }

  lemma {:induction false} ShiftIsPositive(c: int, n: nat)
    ensures c >= 0 ==> Shift(c, n) >= c
    ensures c > 0 <==> Shift(c, n) > 0
    ensures c < 0 <==> Shift(c, n) < 0
  {
    if n > 0 {
      ShiftIsPositive(c, n - 1);
    }
  }

  lemma {:induction false} ShiftAdds(a: int, b: int, n: nat)
    ensures Shift(a + b, n) == Shift(a, n) + Shift(b, n)
    ensures Shift(a - b, n) == Shift(a, n) - Shift(b, n)
  {
    if n > 0 {
      ShiftAdds(a, b, n - 1);
    }
  }

  lemma {:induction false} ShiftTwice(c: int, m: nat, n: nat)
    ensures Shift(Shift(c, m), n) == Shift(c, m + n)
    decreases n
  {
    if n > 0 {
      ShiftTwice(c, m, n - 1);
    }
  }

  lemma {:induction false} ShiftTimes(c: int, q: int, n: nat)
    ensures Shift(c * q, n) == Shift(c, n) * q
    decreases n
  {
    if n > 0 {
      ShiftTimes(c, q, n - 1);
      assert 10 * (Shift(c, n - 1) * q) == (10 * Shift(c, n - 1)) * q;
    }
  }

  /** Moving the exponent down loses nothing. */
  lemma ScaledFurther(d: Decimal, high: int, low: int)
    requires d.Finite? && low <= high <= d.exponent
    ensures Scaled(d, low) == Shift(Scaled(d, high), high - low)
  {
    ShiftTwice(d.coefficient, d.exponent - high, high - low);
  }

  lemma {:induction false} DigitsOfLongNumbers(n: nat, k: nat)
    requires k >= 1
    ensures DigitCount(n) <= k <==> n < Shift(1, k)
  {
    if k == 1 {
      assert Shift(1, 1) == 10 * Shift(1, 0);
    } else {
      ShiftIsPositive(1, k - 1);
      if n >= 10 { DigitsOfLongNumbers(n / 10, k - 1); }
    }
  }

  /** The bound is the one between 28 digits and more. */
  lemma BoundMeansDigits(n: nat)
    ensures DigitCount(n) <= PRECISION <==> n < PRECISION_BOUND
  {
    BoundIsAShift();
    DigitsOfLongNumbers(n, PRECISION);
  }

  /** Rounding goes to the nearest multiple, and from half way to the even one. */
  lemma RoundedIsNearest(n: nat, unit: int)
    requires unit >= 1
    ensures var r := RoundHalfEven(n, unit);
            && -unit <= 2 * n - 2 * (unit * r) <= unit
            && (2 * n - 2 * (unit * r) == unit || 2 * n - 2 * (unit * r) == -unit ==> r % 2 == 0)
  {
    var kept, rest := n / unit, n % unit;
    assert n == unit * kept + rest;
    assert unit * (kept + 1) == unit * kept + unit;
  }

  lemma {:induction false} LongNumbersAreLong(n: nat, k: nat)
    requires n >= 1 && DigitCount(n) >= k + 1
    ensures n >= Shift(1, k)
  {
    if k > 0 { LongNumbersAreLong(n / 10, k - 1); }
  }

  lemma RoundedAtMost(n: nat, unit: int, bound: int)
    requires unit >= 1 && n < unit * bound
    ensures RoundHalfEven(n, unit) <= bound
  {
    var kept := n / unit;
    assert n == unit * kept + n % unit;
    if kept >= bound { assert unit * (kept - bound) >= 0; }
  }

  lemma BelowItsDigits(n: nat, drop: nat)
    requires DigitCount(n) == PRECISION + drop
    ensures n < Shift(1, drop) * PRECISION_BOUND
  {
    DigitsOfLongNumbers(n, PRECISION + drop);
    hide DigitCount;
    BoundIsAShift();
    ShiftTwice(1, drop, PRECISION);
    ShiftTimes(1, Shift(1, drop), PRECISION);
  }

  lemma BoundIsAShift()
    ensures Shift(1, PRECISION) == PRECISION_BOUND
  {
    ShiftTwice(1, 14, 14);
    assert Shift(1, 14) == 100_000_000_000_000;
    ShiftTimes(1, 100_000_000_000_000, 14);
  }

  lemma {:induction false} ShiftNegated(c: int, n: nat)
    ensures Shift(-c, n) == -Shift(c, n)
  {
    if n > 0 { ShiftNegated(c, n - 1); }
  }

  /** A carry into one more digit leaves the number what it was. */
  lemma Carried(drop: nat)
    ensures Shift(PRECISION_BOUND / 10, drop + 1) == Shift(PRECISION_BOUND, drop)
  {
    ShiftTimes(1, PRECISION_BOUND / 10, drop + 1);
    ShiftTimes(1, PRECISION_BOUND, drop);
    assert Shift(1, drop + 1) == 10 * Shift(1, drop);
  }

  lemma RoundedMagnitude(n: nat, drop: nat)
    requires DigitCount(n) == PRECISION + drop
    ensures Shift(1, drop) >= 1
    ensures var r := RoundHalfEven(n, Shift(1, drop));
            0 <= r <= PRECISION_BOUND && -Shift(1, drop) <= 2 * n - 2 * Shift(r, drop) <= Shift(1, drop)
  {
    ShiftIsPositive(1, drop);
    var unit := Shift(1, drop);
    BelowItsDigits(n, drop);
    hide DigitCount;
    var r := RoundHalfEven(n, unit);
    RoundedIsNearest(n, unit);
    RoundedAtMost(n, unit, PRECISION_BOUND);
    NotNegativeRounded(n, unit);
    ShiftTimes(1, r, drop);
    hide RoundHalfEven, Shift;
  }

  /** A result with too many digits is replaced by the nearest number of 28. */
  lemma LongIsRounded(d: Decimal)
    requires d.Finite? && Abs(d.coefficient) >= PRECISION_BOUND
    ensures var (r, drop) := (Round(d), DigitCount(Abs(d.coefficient)) - PRECISION);
            && drop > 0 && r.Finite? && Abs(r.coefficient) < PRECISION_BOUND && r.exponent >= d.exponent
            && -Shift(1, drop) <= 2 * d.coefficient - 2 * Scaled(r, d.exponent) <= Shift(1, drop)
  {
    hide DigitCount, RoundHalfEven, Shift;
    var n := Abs(d.coefficient);
    BoundMeansDigits(n);
    var drop := DigitCount(n) - PRECISION;
    RoundedMagnitude(n, drop);
    Carried(drop);
    var r := Round(d);
    ShiftNegated(Abs(r.coefficient), r.exponent - d.exponent);
  }

  lemma NotNegativeRounded(n: nat, unit: int)
    requires unit >= 1
    ensures RoundHalfEven(n, unit) >= 0
  {
  }

  /** Comparing at any common exponent gives the answer of comparing the numbers. */
  lemma ComparedAt(a: Decimal, b: Decimal, low: int)
    requires a.Finite? && b.Finite? && low <= a.exponent && low <= b.exponent
    ensures LessThan(a, b) <==> Scaled(a, low) < Scaled(b, low)
    ensures SameNumber(a, b) <==> Scaled(a, low) == Scaled(b, low)
  {
    var e := Min(a.exponent, b.exponent);
    ScaledFurther(a, e, low);
    ScaledFurther(b, e, low);
    ShiftAdds(Scaled(b, e), Scaled(a, e), e - low);
    ShiftIsPositive(Scaled(b, e) - Scaled(a, e), e - low);
  }

  /** Addition is exact while the aligned sum has at most 28 digits. */
  lemma AddIsExact(a: Decimal, b: Decimal, low: int)
    requires a.Finite? && b.Finite? && low <= a.exponent && low <= b.exponent
    requires Scaled(a, low) >= 0 && Scaled(b, low) >= 0
    requires Scaled(a, low) + Scaled(b, low) < PRECISION_BOUND
    ensures Add(a, b).Finite?
    ensures Add(a, b).exponent == Min(a.exponent, b.exponent)
    ensures Scaled(Add(a, b), low) == Scaled(a, low) + Scaled(b, low)
  {
    var e := Min(a.exponent, b.exponent);
    var x, y := Scaled(a, e), Scaled(b, e);
    ScaledFurther(a, e, low);
    ScaledFurther(b, e, low);
    ShiftIsPositive(x, e - low);
    ShiftIsPositive(y, e - low);
    ShiftIsPositive(x + y, e - low);
    ShiftAdds(x, y, e - low);
  }
}
