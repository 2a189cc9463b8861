/** Quote numbers (`quote_number_seq` and `generate_quote_number` of migration 002). */
module QuoteNumbers {
  import opened Decimals
  import opened Results

  const FIRST_VALUE: nat := 1_000_000
  const FIRST_TRUNCATED: nat := 10_000_000

  /** `'QUOT-' || year || '-' || LPAD(value, 7, '0')` */
  function QuoteNumber(year: nat, value: nat): string {
    "QUOT-" + PadTo(Digits(year), 4) + "-" + LPad(Digits(value), 7)
  }

  class QuoteNumberSequence {
    var nextValue: nat

    constructor ()
      ensures nextValue == FIRST_VALUE
    {
      nextValue := FIRST_VALUE;
    }

    method GenerateQuoteNumber(currentYear: nat) returns (quoteNumber: string)
      modifies this
      ensures nextValue == old(nextValue) + 1
      ensures quoteNumber == QuoteNumber(currentYear, old(nextValue))
    {
      var yearPart := PadTo(Digits(currentYear), 4);
      var seqPart := LPad(Digits(nextValue), 7);
      nextValue := nextValue + 1;
      quoteNumber := "QUOT-" + yearPart + "-" + seqPart;
    }
  }

  /** The number that the seven leftmost digits of a long value spell. */
  function Leading7(value: nat): nat {
    if value < FIRST_TRUNCATED then value else Leading7(value / 10)
  }

  lemma {:induction false} Leading7Range(value: nat)
    requires FIRST_VALUE <= value
    ensures FIRST_VALUE <= Leading7(value) < FIRST_TRUNCATED
    ensures Leading7(value) <= value && (Leading7(value) == value <==> value < FIRST_TRUNCATED)
  {
    if FIRST_TRUNCATED <= value {
      Leading7Range(value / 10);
    }
  }

  lemma {:induction false} SevenDigits(value: nat)
    requires FIRST_VALUE <= value
    ensures |Digits(value)| >= 7 && (|Digits(value)| == 7 <==> value < FIRST_TRUNCATED)
  {
    DigitCount(value, 6);
    DigitCount(value, 7);
  }

  /** Beyond seven digits `LPAD` keeps the leading seven. */
  lemma {:induction false} PaddedValue(value: nat)
    requires FIRST_VALUE <= value
    ensures LPad(Digits(value), 7) == Digits(Leading7(value))
  {
    SevenDigits(value);
    if FIRST_TRUNCATED <= value {
      PaddedValue(value / 10);
      SevenDigits(value / 10);
      var front := Digits(value / 10);
      assert Digits(value) == front + [DigitChar(value % 10)];
      assert Digits(value)[..7] == front[..7];
    }
  }

  predicate FourDigitYear(year: nat) { 1000 <= year <= 9999 }

  lemma {:induction false} YearDigits(year: nat)
    requires FourDigitYear(year)
    ensures |PadTo(Digits(year), 4)| == 4 && AllDigits(PadTo(Digits(year), 4))
  {
    assert PowerOfTen(2) == 100;
    DigitCount(year, 3);
    DigitCount(year, 4);
  }

  /** Reads the year and the seven digits back. */
  function Parse(s: string): Option<(nat, nat)> {
    if |s| == 17 && s[..5] == "QUOT-" && s[9] == '-' && AllDigits(s[5..9]) && AllDigits(s[10..]) then
      Some((Value(s[5..9]), Value(s[10..])))
    else None
  }

  lemma {:induction false} Shape(s: string, yearPart: string, seqPart: string)
    requires |yearPart| == 4 && |seqPart| == 7 && s == "QUOT-" + yearPart + "-" + seqPart
    ensures |s| == 17 && s[..5] == "QUOT-" && s[9] == '-' && s[5..9] == yearPart && s[10..] == seqPart
  {
    assert |"QUOT-"| == 5;
  }

  /** A quote number has 17 characters and can be read back, up to the digits that `LPAD` dropped. */
  lemma {:induction false} ParseQuoteNumber(year: nat, value: nat)
    requires FourDigitYear(year) && FIRST_VALUE <= value
    ensures |QuoteNumber(year, value)| == 17
    ensures Parse(QuoteNumber(year, value)) == Some((year, Leading7(value)))
  {
    YearDigits(year);
    PaddedValue(value);
    ValueOfPadded(year, 4);
    ValueOfDigits(Leading7(value));
    Shape(QuoteNumber(year, value), PadTo(Digits(year), 4), LPad(Digits(value), 7));
  }

  /** Two quote numbers coincide exactly when their years and leading seven digits do. */
  lemma {:induction false} CoincideIff(year: nat, value: nat, otherYear: nat, other: nat)
    requires FourDigitYear(year) && FourDigitYear(otherYear) && FIRST_VALUE <= value && FIRST_VALUE <= other
    ensures QuoteNumber(year, value) == QuoteNumber(otherYear, other)
       <==> year == otherYear && Leading7(value) == Leading7(other)
  {
    ParseQuoteNumber(year, value);
    ParseQuoteNumber(otherYear, other);
    PaddedValue(value);
    PaddedValue(other);
  }

  /** The digits that `LPAD` drops from a value are all nines, so that they start over in the next value. */
  predicate DropsNines(value: nat) {
    value < FIRST_TRUNCATED || (value % 10 == 9 && DropsNines(value / 10))
  }

  /** Consecutive values give the same digits unless the dropped digits start over. */
  lemma {:induction false} NextLeading(value: nat)
    requires FIRST_VALUE <= value
    ensures Leading7(value) == Leading7(value + 1) <==> !DropsNines(value)
  {
    if FIRST_TRUNCATED <= value {
      if value % 10 == 9 {
        assert (value + 1) / 10 == value / 10 + 1;
        NextLeading(value / 10);
      } else {
        assert (value + 1) / 10 == value / 10;
      }
    }
  }

  /** The numbers that a year generates while the sequence runs from `first` up to `next`. */
  ghost predicate DistinctInYear(year: nat, first: nat, next: nat) {
    forall a: nat, b: nat | first <= a < b < next :: QuoteNumber(year, a) != QuoteNumber(year, b)
  }

  lemma {:induction false} Repeats(year: nat, first: nat, next: nat, a: nat, b: nat)
    requires FourDigitYear(year) && FIRST_VALUE <= first <= a < b < next && Leading7(a) == Leading7(b)
    ensures !DistinctInYear(year, first, next)
  {
    CoincideIff(year, a, year, b);
  }

  /** A year that starts before the sequence reaches eight digits. */
  lemma {:induction false} DistinctFromSevenDigits(year: nat, first: nat, next: nat)
    requires FourDigitYear(year) && FIRST_VALUE <= first < FIRST_TRUNCATED
    ensures DistinctInYear(year, first, next)
       <==> next <= FIRST_TRUNCATED || (next == FIRST_TRUNCATED + 1 && FIRST_VALUE < first)
  {
    assert Leading7(FIRST_TRUNCATED) == FIRST_VALUE && Leading7(FIRST_TRUNCATED + 1) == FIRST_VALUE;
    if next <= FIRST_TRUNCATED || (next == FIRST_TRUNCATED + 1 && FIRST_VALUE < first) {
      forall a: nat, b: nat | first <= a < b < next
        ensures QuoteNumber(year, a) != QuoteNumber(year, b)
      {
        CoincideIff(year, a, year, b);
      }
    } else if first == FIRST_VALUE {
      Repeats(year, first, next, FIRST_VALUE, FIRST_TRUNCATED);
    } else {
      Repeats(year, first, next, FIRST_TRUNCATED, FIRST_TRUNCATED + 1);
    }
  }

  lemma {:induction false} TwoValues(year: nat, first: nat)
    requires FourDigitYear(year) && FIRST_TRUNCATED <= first
    ensures DistinctInYear(year, first, first + 2) <==> Leading7(first) != Leading7(first + 1)
  {
    if Leading7(first) == Leading7(first + 1) {
      Repeats(year, first, first + 2, first, first + 1);
    } else {
      forall a: nat, b: nat | first <= a < b < first + 2
        ensures QuoteNumber(year, a) != QuoteNumber(year, b)
      {
        CoincideIff(year, a, year, b);
      }
    }
  }

  lemma {:induction false} ThreeValues(year: nat, first: nat, next: nat)
    requires FourDigitYear(year) && FIRST_TRUNCATED <= first && first + 3 <= next
    ensures !DistinctInYear(year, first, next)
  {
    NextLeading(first);
    if DropsNines(first) {
      NextLeading(first + 1);
      Repeats(year, first, next, first + 1, first + 2);
    } else {
      Repeats(year, first, next, first, first + 1);
    }
  }

  /** A year that starts later. */
  lemma {:induction false} DistinctFromEightDigits(year: nat, first: nat, next: nat)
    requires FourDigitYear(year) && FIRST_TRUNCATED <= first
    ensures DistinctInYear(year, first, next) <==> next <= first + 1 || (next == first + 2 && DropsNines(first))
  {
    if next == first + 2 {
      TwoValues(year, first);
      NextLeading(first);
    } else if first + 3 <= next {
      ThreeValues(year, first, next);
    }
  }

  /** The sequence runs on across years.  A year whose values run from `first` up to `next` has distinct
      numbers if and only if: starting below 10000000, it stops there at the latest, or right after, if
      it did not generate 1000000 itself; starting later, it takes one value, or two of which the first
      drops only nines. */
  lemma {:induction false} DistinctWithinYearIff(year: nat, first: nat, next: nat)
    requires FourDigitYear(year) && FIRST_VALUE <= first
    ensures DistinctInYear(year, first, next)
       <==> if first < FIRST_TRUNCATED
            then next <= FIRST_TRUNCATED || (next == FIRST_TRUNCATED + 1 && FIRST_VALUE < first)
            else next <= first + 1 || (next == first + 2 && DropsNines(first))
  {
    if first < FIRST_TRUNCATED {
      DistinctFromSevenDigits(year, first, next);
    } else {
      DistinctFromEightDigits(year, first, next);
    }
  }

  /** A value beyond seven digits has the number that a smaller value had, or would have had, in the
      same year. */
  lemma {:induction false} TruncatedRepeats(year: nat, value: nat)
    requires FourDigitYear(year) && FIRST_TRUNCATED <= value
    ensures FIRST_VALUE <= Leading7(value) < value && QuoteNumber(year, Leading7(value)) == QuoteNumber(year, value)
  {
    Leading7Range(value);
    CoincideIff(year, Leading7(value), year, value);
  }

  /** From 10000000 on, a value and the next give one number in one year, unless the digits that `LPAD`
      drops from the first are all nines. */
  lemma {:induction false} CrossingRepeats(year: nat, value: nat, next: nat)
    requires FourDigitYear(year) && FIRST_TRUNCATED <= value && next == value + 1
    ensures QuoteNumber(year, value) == QuoteNumber(year, next) <==> !DropsNines(value)
  {
    NextLeading(value);
    CoincideIff(year, value, year, next);
  }
}
