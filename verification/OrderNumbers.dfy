/** The short number of an order, spelled from its day and the low thirty bits of its identifier. */
module OrderNumbers {
  import opened Decimals

  /** Base 32 without the letters that look like digits or sound alike. */
  const CROCKFORD_ALPHABET: string := "0123456789ABCDEFGHJKMNPQRSTVWXYZ"

  /** Two to the thirty: six letters of five bits each. */
  const SUFFIX_SIZE: nat := 1_073_741_824

  /** The UTC day of a moment; only its calendar fields matter here. */
  datatype Day = Day(year: nat, month: nat, day: nat)

  ghost predicate IsCalendarDay(d: Day) {
    1 <= d.month <= 12 && 1 <= d.day <= 31
  }

  predicate IsLetter(c: char) {
    c in CROCKFORD_ALPHABET
  }

  predicate AllDigits(s: string) {
    forall i :: 0 <= i < |s| ==> '0' <= s[i] <= '9'
  }

  function TwoDigits(n: nat): (s: string)
    requires n < 100
    ensures |s| == 2 && AllDigits(s)
  {
    [Digit(n / 10), Digit(n % 10)]
  }

  /** The day as six digits: two of the year, the month, the day. */
  function DayText(d: Day): (s: string)
    requires IsCalendarDay(d)
    ensures |s| == 6 && AllDigits(s)
  {
    TwoDigits(d.year % 100) + TwoDigits(d.month) + TwoDigits(d.day)
  }

  /** The letter of the five lowest bits. */
  function Letter(bits: nat): (c: char)
    ensures IsLetter(c)
  {
    CROCKFORD_ALPHABET[bits % 32]
  }

  /** The letters at shifts 25, 20, 15, 10, 5 and 0. */
  function Suffix(bits: nat): (s: string)
    ensures |s| == 6 && forall i :: 0 <= i < 6 ==> IsLetter(s[i])
  {
    [Letter(bits / 33_554_432), Letter(bits / 1_048_576), Letter(bits / 32_768), Letter(bits / 1024), Letter(bits / 32),
     Letter(bits)]
  }

  function Derive(placedOn: Day, orderId: nat): string
    requires IsCalendarDay(placedOn)
  {
    DayText(placedOn) + "-" + Suffix(orderId % SUFFIX_SIZE)
  }

  /** The format every order number is held to. */
  predicate Validates(value: string) {
    && |value| == 13
    && (forall i :: 0 <= i < 6 ==> '0' <= value[i] <= '9')
    && value[6] == '-'
    && (forall i :: 7 <= i < 13 ==> IsLetter(value[i]))
  }

  // ---- Reading a number back ---------------------------------------------------

  /** The value of a letter, worked out from where it stands among the letters that are left. */
  function ValueOf(c: char): int {
    if c <= '9' then c as int - '0' as int
    else if c <= 'H' then c as int - 'A' as int + 10
    else if c <= 'K' then c as int - 'J' as int + 18
    else if c <= 'N' then c as int - 'M' as int + 20
    else if c <= 'T' then c as int - 'P' as int + 22
    else c as int - 'V' as int + 27
  }

  /** Letters read as digits of base 32, most significant first. */
  function Reading(s: string): int
    decreases |s|
  {
    if s == "" then 0 else 32 * Reading(s[..|s| - 1]) + ValueOf(s[|s| - 1])
  }

  lemma ValueOfLetter(bits: nat)
    ensures ValueOf(Letter(bits)) == bits % 32
  {
    LetterAt(bits % 32);
  }

  lemma LetterAt(d: nat)
    requires d < 32
    ensures ValueOf(CROCKFORD_ALPHABET[d]) == d
  {
    if d < 10 {
    } else if d < 18 {
    } else if d < 22 {
    } else if d < 27 {
    }
  }

  lemma ReadingAppended(s: string, c: char)
    ensures Reading(s + [c]) == 32 * Reading(s) + ValueOf(c)
  {
    assert (s + [c])[..|s|] == s;
  }

  /** Reading the letters back gives the bits they were spelled from. */
  lemma ReadingUndoesSuffix(bits: nat)
    requires bits < SUFFIX_SIZE
    ensures Reading(Suffix(bits)) == bits
  {
    hide Letter, ValueOf, Reading, IsLetter;
    var b1, b2, b3, b4, b5 := bits / 32, bits / 1024, bits / 32_768, bits / 1_048_576, bits / 33_554_432;
    var s2 := [Letter(b5), Letter(b4)];
    var s3 := s2 + [Letter(b3)];
    var s4 := s3 + [Letter(b2)];
    var s5 := s4 + [Letter(b1)];
    ReadTwo(b5, b4);
    ReadNext(s2, b4, b3);
    ReadNext(s3, b3, b2);
    ReadNext(s4, b2, b1);
    ReadNext(s5, b1, bits);
    assert Suffix(bits) == s5 + [Letter(bits)];
  }

  lemma ReadNext(s: string, above: nat, below: nat)
    requires Reading(s) == above && above == below / 32
    ensures Reading(s + [Letter(below)]) == below
  {
    ReadingAppended(s, Letter(below));
    ValueOfLetter(below);
  }

  lemma ReadTwo(above: nat, below: nat)
    requires above < 32 && above == below / 32
    ensures Reading([Letter(above), Letter(below)]) == below
  {
    hide Letter, ValueOf, IsLetter;
    ReadingAppended("", Letter(above));
    ValueOfLetter(above);
    assert "" + [Letter(above)] == [Letter(above)];
    ReadNext([Letter(above)], above, below);
    assert [Letter(above)] + [Letter(below)] == [Letter(above), Letter(below)];
  }

  /** The number two digits spell. */
  function TwoDigitsAt(s: string, i: nat): int
    requires i + 1 < |s|
  {
    10 * (s[i] as int - '0' as int) + (s[i + 1] as int - '0' as int)
  }

  lemma DayReadsBack(d: Day)
    requires IsCalendarDay(d)
    ensures TwoDigitsAt(DayText(d), 0) == d.year % 100
    ensures TwoDigitsAt(DayText(d), 2) == d.month && TwoDigitsAt(DayText(d), 4) == d.day
  {
    var s := DayText(d);
    TwoDigitsReadBack(d.year % 100);
    TwoDigitsReadBack(d.month);
    TwoDigitsReadBack(d.day);
    assert s[0] == TwoDigits(d.year % 100)[0] && s[1] == TwoDigits(d.year % 100)[1];
    assert s[2] == TwoDigits(d.month)[0] && s[3] == TwoDigits(d.month)[1];
    assert s[4] == TwoDigits(d.day)[0] && s[5] == TwoDigits(d.day)[1];
  }

  lemma TwoDigitsReadBack(n: nat)
    requires n < 100
    ensures TwoDigitsAt(TwoDigits(n), 0) == n
  {
  }

  /** Every derived number passes its own validation; it begins with the year of the century, the month and
      the day, and its six letters read back as the low thirty bits of the identifier. */
  lemma DerivedNumber(placedOn: Day, orderId: nat)
    requires IsCalendarDay(placedOn)
    ensures Validates(Derive(placedOn, orderId))
    ensures Reading(Derive(placedOn, orderId)[7..]) == orderId % 1_073_741_824
    ensures var value := Derive(placedOn, orderId);
            && TwoDigitsAt(value, 0) == placedOn.year % 100
            && TwoDigitsAt(value, 2) == placedOn.month && TwoDigitsAt(value, 4) == placedOn.day
  {
    DayReadsBack(placedOn);
    hide Suffix, IsLetter, Reading, DayText;
    var bits := orderId % SUFFIX_SIZE;
    ReadingUndoesSuffix(bits);
    var value := Derive(placedOn, orderId);
    assert value[7..] == Suffix(bits);
    forall i | 7 <= i < 13 ensures IsLetter(value[i]) {
      assert value[i] == Suffix(bits)[i - 7];
    }
  }

  /** Within one century two numbers are equal exactly when the day and the thirty bits are. */
  lemma NumbersCollide(day1: Day, id1: nat, day2: Day, id2: nat)
    requires IsCalendarDay(day1) && IsCalendarDay(day2) && day1.year / 100 == day2.year / 100
    ensures Derive(day1, id1) == Derive(day2, id2) <==> day1 == day2 && id1 % 1_073_741_824 == id2 % 1_073_741_824
  {
    hide Suffix, IsLetter, Reading, DayText;
    var a, b := Derive(day1, id1), Derive(day2, id2);
    if a == b {
      DerivedNumber(day1, id1);
      DerivedNumber(day2, id2);
      assert DayText(day1) == a[..6] && DayText(day2) == b[..6];
      DayTextIsInjective(day1, day2);
    }
  }

  lemma DayTextIsInjective(day1: Day, day2: Day)
    requires IsCalendarDay(day1) && IsCalendarDay(day2) && DayText(day1) == DayText(day2)
    ensures day1.year % 100 == day2.year % 100 && day1.month == day2.month && day1.day == day2.day
  {
    var s, t := DayText(day1), DayText(day2);
    assert s[0..2] == TwoDigits(day1.year % 100) && t[0..2] == TwoDigits(day2.year % 100);
    assert s[2..4] == TwoDigits(day1.month) && t[2..4] == TwoDigits(day2.month);
    assert s[4..6] == TwoDigits(day1.day) && t[4..6] == TwoDigits(day2.day);
    TwoDigitsAreInjective(day1.year % 100, day2.year % 100);
    TwoDigitsAreInjective(day1.month, day2.month);
    TwoDigitsAreInjective(day1.day, day2.day);
  }

  lemma TwoDigitsAreInjective(m: nat, n: nat)
    requires m < 100 && n < 100
    ensures TwoDigits(m) == TwoDigits(n) ==> m == n
  {
    var s, t := TwoDigits(m), TwoDigits(n);
    assert s[0] == Digit(m / 10) && s[1] == Digit(m % 10) && t[0] == Digit(n / 10) && t[1] == Digit(n % 10);
  }
}
