/** The two text helpers of formatters.js that are not locale formatting: `formatMonthsToYears`,
    which writes a month count as years and months, and `parseNumericInput`, which reads a typed
    amount as a number. */
module Formatters {
  import opened NumericText
  import opened ValidatedInput

  /** JavaScript's `a % b`: the remainder truncated toward zero, so it takes the sign of a. */
  function JsRem(a: int, b: int): (r: int)
    requires b > 0
    ensures -b < r < b
    ensures a >= 0 ==> r >= 0
    ensures a <= 0 ==> r <= 0
  {
    if a >= 0 then a % b else -((-a) % b)
  }

  /** `Math.floor(months / 12)` and `months % 12`. For a natural number of months they are the
      whole years and the months left over; for a negative count that is not a multiple of 12
      the floor and the truncated remainder together fall 12 short. */
  function Split(months: int): (p: (int, int))
    ensures months >= 0 ==> 12 * p.0 + p.1 == months && 0 <= p.1 < 12
    ensures months < 0 && p.1 != 0 ==> 12 * p.0 + p.1 == months - 12
    ensures months < 0 && p.1 == 0 ==> 12 * p.0 == months
  {
    (months / 12, JsRem(months, 12))
  }

  /** `${n} unit` followed by an 's' exactly when n is not 1. */
  function Count(n: int, unit: string): (r: string)
    requires unit != [] && unit[|unit| - 1] != 's'
    ensures |r| > 0 && (r[|r| - 1] == 's' <==> n != 1)
  {
    IntToString(n) + " " + unit + (if n != 1 then "s" else "")
  }

  /** `formatMonthsToYears(months)`: only the months when there is no whole year, only the
      years when there is no month left over, otherwise both. */
  function FormatMonthsToYears(months: int): string
  {
    var (years, rem) := Split(months);
    if years == 0 then Count(rem, "month")
    else if rem == 0 then Count(years, "year")
    else Count(years, "year") + " " + Count(rem, "month")
  }

  /** A count read from the front of a text, with what follows its unit word. */
  datatype Reading = NoReading | Read(count: nat, rest: string)

  /** Reads "N unit" or "N units" at the front of s. */
  function ReadCount(s: string, unit: string): Reading
  {
    var n := LeadingDigits(s);
    if n == 0 then NoReading else ReadUnit(DigitsValue(s[..n]), s[n..], unit)
  }

  /** Reads " unit" or " units" after a count. */
  function ReadUnit(count: nat, after: string, unit: string): Reading
  {
    var word := " " + unit;
    if !(word <= after) then NoReading
    else
      var rest := after[|word|..];
      if rest != [] && rest[0] == 's' then Read(count, rest[1..]) else Read(count, rest)
  }

  datatype Duration = Unreadable | Months(months: nat)

  /** Reads a text of the form "N month(s)", "N year(s)" or "N year(s) M month(s)" back as a
      number of months. */
  function ReadDuration(s: string): Duration
  {
    var asMonths := ReadCount(s, "month");
    var asYears := ReadCount(s, "year");
    if asMonths.Read? && asMonths.rest == "" then Months(asMonths.count)
    else if asYears.Read? && asYears.rest == "" then Months(12 * asYears.count)
    else if asYears.Read? && asYears.rest != [] && asYears.rest[0] == ' ' then
      var tail := ReadCount(asYears.rest[1..], "month");
      if tail.Read? && tail.rest == "" then Months(12 * asYears.count + tail.count) else Unreadable
    else Unreadable
  }

  /** A run of digits is read as its number, then the unit after it. */
  lemma ReadDigits(d: string, after: string, unit: string)
    requires d != [] && AllDigits(d)
    requires after == [] || !IsDigit(after[0])
    ensures ReadCount(d + after, unit) == ReadUnit(DigitsValue(d), after, unit)
  {
    LeadingDigitsOf(d, after);
    var s := d + after;
    assert s[..|d|] == d && s[|d|..] == after;
  }

  /** The unit word is read with or without its plural 's'. */
  lemma ReadUnitOf(count: nat, unit: string, plural: string, t: string)
    requires plural == "" || plural == "s"
    requires t == [] || t[0] == ' '
    ensures ReadUnit(count, " " + unit + plural + t, unit) == Read(count, t)
  {
    var word := " " + unit;
    var after := word + plural + t;
    assert after[..|word|] == word;
    assert after[|word|..] == plural + t;
  }

  /** The count and its word read back from a written count, whatever follows after a blank. */
  lemma ReadCountOf(n: nat, unit: string, t: string)
    requires unit != [] && unit[|unit| - 1] != 's'
    requires t == [] || t[0] == ' '
    ensures ReadCount(Count(n, unit) + t, unit) == Read(n, t)
  {
    var plural := if n != 1 then "s" else "";
    var after := " " + unit + plural + t;
    var s := Count(n, unit) + t;
    assert s == NatToString(n) + after;
    ReadDigits(NatToString(n), after, unit);
    ReadUnitOf(n, unit, plural, t);
  }

  /** The word " year" is not the word " month". */
  lemma YearIsNotMonth(count: nat, rest: string)
    ensures ReadUnit(count, " year" + rest, "month") == NoReading
  {
    assert (" year" + rest)[1] == 'y';
  }

  /** A written year count is not a month count. */
  lemma YearsAreNotMonths(n: nat, t: string)
    ensures ReadCount(Count(n, "year") + t, "month") == NoReading
  {
    var rest := (if n != 1 then "s" else "") + t;
    var s := Count(n, "year") + t;
    assert s == NatToString(n) + (" year" + rest);
    ReadDigits(NatToString(n), " year" + rest, "month");
    YearIsNotMonth(n, rest);
  }

  lemma ReadsBackMonths(rem: nat)
    ensures ReadDuration(Count(rem, "month")) == Months(rem)
  {
    ReadCountOf(rem, "month", []);
    assert Count(rem, "month") + [] == Count(rem, "month");
  }

  lemma ReadsBackYears(years: nat)
    ensures ReadDuration(Count(years, "year")) == Months(12 * years)
  {
    YearsAreNotMonths(years, []);
    ReadCountOf(years, "year", []);
    assert Count(years, "year") + [] == Count(years, "year");
  }

  /** How ReadDuration reads a year count followed by a month count. */
  lemma ReadYearsThenMonths(s: string, years: nat, monthPart: string, rem: nat)
    requires ReadCount(s, "month") == NoReading
    requires ReadCount(s, "year") == Read(years, " " + monthPart)
    requires ReadCount(monthPart, "month") == Read(rem, [])
    ensures ReadDuration(s) == Months(12 * years + rem)
  {
    assert (" " + monthPart)[1..] == monthPart;
  }

  lemma ReadsBackBoth(years: nat, rem: nat)
    ensures ReadDuration(Count(years, "year") + " " + Count(rem, "month")) == Months(12 * years + rem)
  {
    var monthPart := Count(rem, "month");
    var s := Count(years, "year") + (" " + monthPart);
    assert Count(years, "year") + " " + monthPart == s;
    YearsAreNotMonths(years, " " + monthPart);
    ReadCountOf(years, "year", " " + monthPart);
    ReadCountOf(rem, "month", []);
    assert monthPart + [] == monthPart;
    ReadYearsThenMonths(s, years, monthPart, rem);
  }

  /** For every natural number of months the text reads back as that number: 12 times the
      years plus the months left over. */
  lemma FormatReadsBack(months: nat)
    ensures ReadDuration(FormatMonthsToYears(months)) == Months(months)
  {
    var (years, rem) := Split(months);
    assert rem >= 0 && years >= 0 && 12 * years + rem == months;
    if years == 0 {
      ReadsBackMonths(rem);
    } else if rem == 0 {
      ReadsBackYears(years);
    } else {
      ReadsBackBoth(years, rem);
    }
  }

  /** Which form the text takes: months only below one year ("0 months" for none), years only
      on a whole number of years, both otherwise. */
  lemma FormatForms(months: nat)
    ensures months < 12 ==> FormatMonthsToYears(months) == Count(months, "month")
    ensures months >= 12 && months % 12 == 0 ==> FormatMonthsToYears(months) == Count(months / 12, "year")
    ensures months >= 12 && months % 12 != 0 ==>
              FormatMonthsToYears(months) == Count(months / 12, "year") + " " + Count(months % 12, "month")
  {
  }

  /** No months at all is written "0 months". */
  lemma ZeroMonths()
    ensures FormatMonthsToYears(0) == "0 months"
  {
    assert NatToString(0) == "0";
  }

  /** A value given to parseNumericInput: a number, or anything else through its `String(...)`
      text. */
  datatype Value = Number(x: real) | Text(s: string)

  /** `parseNumericInput(value)`: numbers come back as they are; other values lose every
      character but digits, '.' and '-' and are then read by parseFloat, NaN giving 0 (the
      `|| 0` turns a parsed 0 into 0 too). */
  function ParseNumericInput(value: Value): (r: real)
    ensures value.Number? ==> r == value.x
  {
    match value
    case Number(x) => x
    case Text(s) =>
      match ParseFloat(Filter(s, Numeric(true)))
      case NaN => 0.0
      case Num(x) => x
  }

  lemma {:induction false} FilterAppend(a: string, b: string, cls: CharClass)
    ensures Filter(a + b, cls) == Filter(a, cls) + Filter(b, cls)
  {
    if a == [] {
      assert a + b == b;
    } else {
      var ab := a + b;
      assert ab[0] == a[0] && ab[1..] == a[1..] + b;
      FilterAppend(a[1..], b, cls);
    }
  }

  /** A character other than a digit, '.' or '-' makes no difference wherever it sits:
      "$1,250" reads as "1250". */
  lemma NoiseIgnored(a: string, c: char, b: string)
    requires !InClass(Numeric(true), c)
    ensures ParseNumericInput(Text(a + [c] + b)) == ParseNumericInput(Text(a + b))
  {
    FilterAppend(a + [c], b, Numeric(true));
    FilterAppend(a, [c], Numeric(true));
    FilterAppend(a, b, Numeric(true));
    assert Filter([c], Numeric(true)) == [];
    assert Filter(a, Numeric(true)) + [] == Filter(a, Numeric(true));
  }

  /** Text without a digit reads as 0. */
  lemma NoDigitIsZero(s: string)
    requires forall i :: 0 <= i < |s| ==> !IsDigit(s[i])
    ensures ParseNumericInput(Text(s)) == 0.0
  {
    var kept := Filter(s, Numeric(true));
    forall i | 0 <= i < |kept|
      ensures !IsDigit(kept[i])
    {
      assert kept[i] in multiset(kept);
      assert kept[i] in multiset(s);
    }
    ParseNeedsDigit(kept);
  }

  /** The numeral of an integer reads as that integer. */
  lemma NumeralReadsBack(i: int)
    ensures ParseNumericInput(Text(IntToString(i))) == i as real
  {
    var s := IntToString(i);
    FilterKeepsAll(s, Numeric(true));
    ParseIntNumeral(i);
  }
}
