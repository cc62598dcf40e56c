/** Quantities and amounts of money: values that cannot be built outside their bounds, so every
    operation either is exact or is refused. */
module Money {
  import opened Outcome
  import opened Decimals

  const MONEY_SCALE: int := 2
  const MAX_MONEY_AMOUNT: Decimal := Finite(999_999_999_999, -2)
  const MAX_CENTS: int := 999_999_999_999
  const MAX_QUANTITY: int := 1_000_000

  datatype Currency = Rub | Usd | Eur

  type Quantity = q: int | 1 <= q <= MAX_QUANTITY witness 1

  /** The fields of an amount; `Money` is the fields that validation lets through. */
  datatype MoneyFields = MoneyFields(amount: Decimal, currency: Currency)

  type Money = m: MoneyFields | IsValid(m) witness MoneyFields(Finite(0, -2), Rub)

  predicate IsValid(m: MoneyFields) {
    m.amount.Finite? && -MONEY_SCALE <= m.amount.exponent && 0 <= Scaled(m.amount, -MONEY_SCALE) <= MAX_CENTS
  }

  /** The amount as a whole number of hundredths. */
  function Cents(m: Money): (c: nat)
    ensures c <= MAX_CENTS
  {
    Scaled(m.amount, -MONEY_SCALE)
  }

  function MakeQuantity(value: int): (r: Result<Quantity>) {
    if value < 1 then Err(NonPositiveQuantity)
    else if value > MAX_QUANTITY then Err(QuantityLimitExceeded)
    else Ok(value)
  }

  /** Adding two quantities, with the ceiling enforced by validation. */
  function PlusQuantity(a: Quantity, b: Quantity): (r: Result<Quantity>) {
    MakeQuantity(a + b)
  }

  /** The four refusals in the order validation makes them. */
  function MakeMoney(amount: Decimal, currency: Currency): (r: Result<Money>)
    ensures r.Ok? <==> IsValid(MoneyFields(amount, currency))
  {
    var zero := Finite(0, 0);
    if amount.NotFinite? then Err(MoneyAmountOutOfRange)
    else if LessThan(amount, zero) then
      assert -MONEY_SCALE <= amount.exponent ==> Scaled(amount, -MONEY_SCALE) < 0 by {
        if -MONEY_SCALE <= amount.exponent { ComparedAt(amount, zero, -MONEY_SCALE); }
      }
      Err(NegativeMoneyAmount)
    else if LessThan(MAX_MONEY_AMOUNT, amount) then
      assert -MONEY_SCALE <= amount.exponent ==> Scaled(amount, -MONEY_SCALE) > MAX_CENTS by {
        if -MONEY_SCALE <= amount.exponent { ComparedAt(MAX_MONEY_AMOUNT, amount, -MONEY_SCALE); }
      }
      Err(MoneyAmountOutOfRange)
    else if -amount.exponent > MONEY_SCALE then Err(TooPreciseMoneyAmount)
    else
      assert IsValid(MoneyFields(amount, currency)) by {
        ComparedAt(amount, zero, -MONEY_SCALE);
        ComparedAt(MAX_MONEY_AMOUNT, amount, -MONEY_SCALE);
      }
      Ok(MoneyFields(amount, currency))
  }

  /** An accepted amount is the amount that was given. */
  lemma MoneyIsTheAmount(amount: Decimal, currency: Currency)
    requires MakeMoney(amount, currency).Ok?
    ensures MakeMoney(amount, currency).value == MoneyFields(amount, currency)
  {
  }

  /** Which amounts and quantities are values, and the first refusal of those that are not. */
  lemma WhatIsMoney(coefficient: int, exponent: int, currency: Currency)
    ensures var (amount, made) := (Finite(coefficient, exponent), MakeMoney(Finite(coefficient, exponent), currency));
            if coefficient < 0 then made == Err(NegativeMoneyAmount)
            else if LessThan(Finite(999_999_999_999, -2), amount) then made == Err(MoneyAmountOutOfRange)
            else if exponent < -2 then made == Err(TooPreciseMoneyAmount)
            else made == Ok(MoneyFields(amount, currency))
    ensures MakeMoney(NotFinite, currency) == Err(MoneyAmountOutOfRange)
  {
    var amount := Finite(coefficient, exponent);
    ShiftIsPositive(coefficient, if exponent > 0 then exponent else 0);
    ShiftOfNothing(if exponent < 0 then -exponent else 0);
    if MakeMoney(amount, currency).Ok? { MoneyIsTheAmount(amount, currency); }
  }

  lemma {:induction false} ShiftOfNothing(n: nat)
    ensures Shift(0, n) == 0
  {
    if n > 0 { ShiftOfNothing(n - 1); }
  }

  lemma WhatIsAQuantity(value: int)
    ensures MakeQuantity(value) == if value < 1 then Err(NonPositiveQuantity)
                                   else if value > 1_000_000 then Err(QuantityLimitExceeded) else Ok(value)
  {
  }

  function Zero(currency: Currency): Money {
    MoneyFields(Finite(0, -2), currency)
  }

  /** A unit price times a whole number of pieces. */
  function TimesQuantity(price: Money, quantity: Quantity): (r: Result<Money>) {
    MakeMoney(Times(price.amount, quantity), price.currency)
  }

  function Plus(a: Money, b: Money): (r: Result<Money>) {
    if a.currency != b.currency then Err(CurrencyMismatch) else MakeMoney(Add(a.amount, b.amount), a.currency)
  }

  // ---- Exactness -----------------------------------------------------------

  /** A coefficient is never more than the number of hundredths. */
  lemma CoefficientFits(m: Money)
    ensures 0 <= m.amount.coefficient <= Cents(m)
  {
    ShiftIsPositive(m.amount.coefficient, m.amount.exponent + 2);
  }

  lemma NotNegative(x: int, y: int)
    requires x >= 0 && y >= 0
    ensures x * y >= 0
  {
  }

  lemma ProductBound(c: int, quantity: Quantity)
    requires 0 <= c <= MAX_CENTS
    ensures 0 <= c * quantity <= 999_999_999_999_000_000
  {
    var rest := 999_999_999_999 - c;
    NotNegative(rest, quantity);
    NotNegative(c, quantity);
    assert rest * quantity == 999_999_999_999 * quantity - c * quantity;
  }

  /** A price times a quantity is computed without rounding, keeps the price's exponent, and is exactly
      that many hundredths. */
  lemma TimesIsExact(price: Money, quantity: Quantity)
    ensures Times(price.amount, quantity) == Finite(price.amount.coefficient * quantity, price.amount.exponent)
    ensures Scaled(Times(price.amount, quantity), -2) == Cents(price) * quantity
    ensures Abs(price.amount.coefficient * quantity) < PRECISION_BOUND
    ensures DigitCount(Abs(price.amount.coefficient * quantity)) <= PRECISION
  {
    hide DigitCount;
    CoefficientFits(price);
    ProductBound(price.amount.coefficient, quantity);
    ShiftTimes(price.amount.coefficient, quantity, price.amount.exponent + 2);
    BoundMeansDigits(price.amount.coefficient * quantity);
  }

  /** Multiplication is refused exactly when the true product is above the limit. */
  lemma TimesQuantityMeaning(price: Money, quantity: Quantity)
    ensures TimesQuantity(price, quantity).Ok? <==> Cents(price) * quantity <= MAX_CENTS
    ensures TimesQuantity(price, quantity).Ok? ==>
              var total := TimesQuantity(price, quantity).value;
              Cents(total) == Cents(price) * quantity && total.currency == price.currency
              && total.amount.exponent == price.amount.exponent
    ensures TimesQuantity(price, quantity).Err? ==> TimesQuantity(price, quantity).error == MoneyAmountOutOfRange
  {
    TimesIsExact(price, quantity);
    ProductBound(Cents(price), quantity);
    IsValidScaled(Times(price.amount, quantity), price.currency);
  }

  lemma IsValidScaled(d: Decimal, currency: Currency)
    requires d.Finite? && d.exponent >= -2 && Scaled(d, -2) >= 0
    ensures MakeMoney(d, currency).Ok? <==> Scaled(d, -2) <= MAX_CENTS
    ensures MakeMoney(d, currency).Ok? ==> MakeMoney(d, currency).value == MoneyFields(d, currency)
    ensures MakeMoney(d, currency).Err? ==> MakeMoney(d, currency).error == MoneyAmountOutOfRange
  {
    ComparedAt(d, Finite(0, 0), -2);
  }

  /** Addition is refused exactly for two currencies or a true sum above the limit. */
  lemma PlusMeaning(a: Money, b: Money)
    ensures Plus(a, b).Ok? <==> a.currency == b.currency && Cents(a) + Cents(b) <= MAX_CENTS
    ensures Plus(a, b).Ok? ==>
              var sum := Plus(a, b).value;
              Cents(sum) == Cents(a) + Cents(b) && sum.currency == a.currency
              && sum.amount.exponent == Min(a.amount.exponent, b.amount.exponent)
    ensures a.currency != b.currency ==> Plus(a, b) == Err(CurrencyMismatch)
    ensures a.currency == b.currency && Plus(a, b).Err? ==> Plus(a, b).error == MoneyAmountOutOfRange
  {
    AddIsExact(a.amount, b.amount, -2);
    IsValidScaled(Add(a.amount, b.amount), a.currency);
  }

  /** Equal amounts are the same number, whatever their exponents. */
  lemma SameCentsSameNumber(a: Decimal, b: Decimal)
    requires a.Finite? && b.Finite? && a.exponent >= -2 && b.exponent >= -2
    ensures SameNumber(a, b) <==> Scaled(a, -2) == Scaled(b, -2)
  {
    ComparedAt(a, b, -2);
  }

  /** What the documentation of the quantity ceiling says of the dearest price does not hold: a million
      pieces fit exactly when one piece costs at most 9999.99. */
  lemma MillionPiecesFitUpTo9999(price: Money)
    ensures TimesQuantity(price, MAX_QUANTITY).Ok? <==> Cents(price) <= 999_999
  {
    TimesQuantityMeaning(price, MAX_QUANTITY);
  }

  lemma MillionPiecesAtTheDearestPriceAreRefused()
    ensures MakeMoney(MAX_MONEY_AMOUNT, Rub).Ok?
    ensures TimesQuantity(MakeMoney(MAX_MONEY_AMOUNT, Rub).value, MAX_QUANTITY) == Err(MoneyAmountOutOfRange)
  {
    assert Scaled(MAX_MONEY_AMOUNT, -2) == MAX_CENTS;
    TimesQuantityMeaning(MakeMoney(MAX_MONEY_AMOUNT, Rub).value, MAX_QUANTITY);
  }

  // ---- Text ----------------------------------------------------------------

  function DigitsText(n: nat): (s: string)
    ensures |s| >= 1
    ensures forall i :: 0 <= i < |s| ==> '0' <= s[i] <= '9'
  {
    if n < 10 then [Digit(n)] else DigitsText(n / 10) + [Digit(n % 10)]
  }

  function DigitsValue(s: string): int
    requires forall i :: 0 <= i < |s| ==> '0' <= s[i] <= '9'
  {
    if s == "" then 0 else 10 * DigitsValue(s[..|s| - 1]) + (s[|s| - 1] as int - '0' as int)
  }

  function Zeros(n: nat): (s: string)
    ensures |s| == n && forall i :: 0 <= i < n ==> s[i] == '0'
  {
    if n == 0 then "" else Zeros(n - 1) + "0"
  }

  /** `str` of a non-negative decimal whose exponent needs no scientific notation. */
  function PlainText(d: Decimal): string
    requires d.Finite? && d.coefficient >= 0 && -2 <= d.exponent <= 0
  {
    var digits := DigitsText(d.coefficient);
    var dotPlace := d.exponent + |digits|;
    if dotPlace <= 0 then "0." + Zeros(-dotPlace) + digits
    else if dotPlace == |digits| then digits
    else digits[..dotPlace] + "." + digits[dotPlace..]
  }

  lemma {:induction false} DigitsRoundTrip(n: nat)
    ensures DigitsValue(DigitsText(n)) == n
  {
    if n >= 10 {
      DigitsRoundTrip(n / 10);
      assert DigitsText(n)[..|DigitsText(n)| - 1] == DigitsText(n / 10);
    }
  }

  /** A sum text has a dot two characters from its end, digits everywhere else, and reads back as the
      number of hundredths. */
  ghost predicate ShowsTwoDecimals(text: string, cents: nat) {
    && |text| >= 4
    && text[|text| - 3] == '.'
    && (forall i :: 0 <= i < |text| && i != |text| - 3 ==> '0' <= text[i] <= '9')
    && DigitsValue(text[..|text| - 3] + text[|text| - 2..]) == cents
  }

  /** Taking the dot out of the text leaves the digits, padded to at least three. */
  lemma DotLess(d: Decimal)
    requires d.Finite? && d.coefficient >= 0 && d.exponent == -2
    ensures var (text, digits) := (PlainText(d), DigitsText(d.coefficient));
            && |text| >= 4 && text[|text| - 3] == '.'
            && text[..|text| - 3] + text[|text| - 2..] == Zeros(if |digits| < 3 then 3 - |digits| else 0) + digits
  {
    var text, digits := PlainText(d), DigitsText(d.coefficient);
    if |digits| == 1 {
      assert Zeros(1) == ['0'] && Zeros(2) == ['0', '0'];
      assert text == ['0', '.', '0', digits[0]];
    } else if |digits| == 2 {
      assert Zeros(0) == [] && Zeros(1) == ['0'];
      assert text == ['0', '.', digits[0], digits[1]];
    }
  }

  lemma TwoDecimalsText(d: Decimal)
    requires d.Finite? && d.coefficient >= 0 && d.exponent == -2
    ensures ShowsTwoDecimals(PlainText(d), d.coefficient)
  {
    hide DigitsText, Zeros, DigitsValue;
    var digits := DigitsText(d.coefficient);
    DotLess(d);
    DigitsRoundTrip(d.coefficient);
    PaddingIsNoValue(if |digits| < 3 then 3 - |digits| else 0, digits);
  }

  lemma {:induction false} PaddingIsNoValue(n: nat, s: string)
    requires forall i :: 0 <= i < |s| ==> '0' <= s[i] <= '9'
    ensures DigitsValue(Zeros(n) + s) == DigitsValue(s)
  {
    if s == "" {
      assert Zeros(n) + s == Zeros(n);
      if n > 0 {
        PaddingIsNoValue(n - 1, s);
        assert Zeros(n - 1) + s == Zeros(n - 1);
        assert Zeros(n)[..n - 1] == Zeros(n - 1);
      }
    } else {
      PaddingIsNoValue(n, s[..|s| - 1]);
      assert (Zeros(n) + s)[..n + |s| - 1] == Zeros(n) + s[..|s| - 1];
    }
  }
}
