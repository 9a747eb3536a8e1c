/** Numerals as text: decimal digits, the numeral JavaScript writes for an integer in a template
    string, and `parseFloat` as a prefix parser (leading blanks, an optional sign, integer
    digits, an optional '.' and fraction digits; NaN when no digit is read). */
module NumericText {
  import opened Numbers

  predicate IsDigit(c: char)
  {
    '0' <= c <= '9'
  }

  predicate AllDigits(s: string)
  {
    forall i :: 0 <= i < |s| ==> IsDigit(s[i])
  }

  function DigitValue(c: char): nat
    requires IsDigit(c)
  {
    (c as int) - ('0' as int)
  }

  function Digit(d: nat): (c: char)
    requires d < 10
    ensures IsDigit(c) && DigitValue(c) == d
  {
    ('0' as int + d) as char
  }

  /** The number a run of decimal digits denotes. */
  function DigitsValue(s: string): nat
    requires AllDigits(s)
  {
    if s == [] then 0 else 10 * DigitsValue(s[..|s| - 1]) + DigitValue(s[|s| - 1])
  }

  /** `String(n)` for a natural number: its decimal digits, with no leading zero. */
  function NatToString(n: nat): (s: string)
    ensures s != [] && AllDigits(s)
    ensures DigitsValue(s) == n
    ensures |s| > 1 ==> s[0] != '0'
  {
    if n < 10 then [Digit(n)]
    else
      var s := NatToString(n / 10) + [Digit(n % 10)];
      assert s[..|s| - 1] == NatToString(n / 10);
      s
  }

  /** `String(i)` for an integer: a '-' in front of a negative one. */
  function IntToString(i: int): string
  {
    if i < 0 then "-" + NatToString(-i) else NatToString(i)
  }

  /** The length of the run of digits at the front of s. */
  function LeadingDigits(s: string): (n: nat)
    ensures n <= |s|
    ensures AllDigits(s[..n])
    ensures n < |s| ==> !IsDigit(s[n])
  {
    if s != [] && IsDigit(s[0]) then
      var n := 1 + LeadingDigits(s[1..]);
      assert s[..n] == [s[0]] + s[1..][..n - 1];
      n
    else 0
  }

  predicate IsBlank(c: char)
  {
    c == ' ' || c == '\t' || c == '\n' || c == '\r'
  }

  /** The length of the run of blanks `parseFloat` skips at the front of s. */
  function LeadingBlanks(s: string): (n: nat)
    ensures n <= |s|
    ensures forall i :: 0 <= i < n ==> IsBlank(s[i])
    ensures n < |s| ==> !IsBlank(s[n])
  {
    if s != [] && IsBlank(s[0]) then 1 + LeadingBlanks(s[1..]) else 0
  }

  /** What `parseFloat` returns: a number, or NaN. */
  datatype Parsed = NaN | Num(value: real)

  /** The value of fraction digits d1 d2 ... dk: their number over 10^k. */
  function Fraction(s: string): (f: real)
    requires AllDigits(s)
    ensures f >= 0.0
  {
    PowPositive(10.0, |s|);
    var p := Pow(10.0, |s|);
    var v := DigitsValue(s) as real;
    assert v / p >= 0.0 by {
      assert v / p * p == v;
    }
    v / p
  }

  /** An unsigned decimal at the front of s: integer digits, then optionally '.' and fraction
      digits; NaN unless at least one digit is read. What follows is ignored. */
  function ParseUnsigned(s: string): Parsed
  {
    var n := LeadingDigits(s);
    var rest := s[n..];
    var f := if rest != [] && rest[0] == '.' then LeadingDigits(rest[1..]) else 0;
    if n == 0 && f == 0 then NaN
    else Num(DigitsValue(s[..n]) as real + (if f == 0 then 0.0 else Fraction(rest[1..][..f])))
  }

  function Negated(p: Parsed): Parsed
  {
    match p
    case NaN => NaN
    case Num(x) => Num(-x)
  }

  /** `parseFloat(s)`: blanks skipped, then an optional '+' or '-', then ParseUnsigned. */
  function ParseFloat(s: string): Parsed
  {
    var t := s[LeadingBlanks(s)..];
    if t != [] && t[0] == '-' then Negated(ParseUnsigned(t[1..]))
    else if t != [] && t[0] == '+' then ParseUnsigned(t[1..])
    else ParseUnsigned(t)
  }

  /** An unsigned decimal is never negative. */
  lemma ParseUnsignedNonNegative(s: string)
    ensures ParseUnsigned(s).Num? ==> ParseUnsigned(s).value >= 0.0
  {
    var n := LeadingDigits(s);
    var rest := s[n..];
    var f := if rest != [] && rest[0] == '.' then LeadingDigits(rest[1..]) else 0;
    if f > 0 {
      assert Fraction(rest[1..][..f]) >= 0.0;
    }
  }

  /** A run of digits followed by anything that cannot continue a number parses as the run. */
  lemma DigitsThenJunk(a: string, t: string)
    requires a != [] && AllDigits(a)
    requires t == [] || !(IsDigit(t[0]) || t[0] == '.')
    ensures LeadingDigits(a + t) == |a|
    ensures ParseFloat(a + t) == Num(DigitsValue(a) as real)
  {
    LeadingDigitsOf(a, t);
    var s := a + t;
    assert LeadingBlanks(s) == 0;
    assert s[..|a|] == a && s[|a|..] == t;
  }

  lemma {:induction false} LeadingDigitsOf(a: string, t: string)
    requires AllDigits(a)
    requires t == [] || !IsDigit(t[0])
    ensures LeadingDigits(a + t) == |a|
  {
    if a == [] {
      assert a + t == t;
    } else {
      LeadingDigitsOf(a[1..], t);
      assert (a + t)[1..] == a[1..] + t;
    }
  }

  /** `parseFloat(String(n))` gives n back. */
  lemma ParseNatNumeral(n: nat)
    ensures ParseFloat(NatToString(n)) == Num(n as real)
  {
    DigitsThenJunk(NatToString(n), []);
    assert NatToString(n) + [] == NatToString(n);
  }

  /** `parseFloat(String(i))` gives i back, negative integers included. */
  lemma ParseIntNumeral(i: int)
    ensures ParseFloat(IntToString(i)) == Num(i as real)
  {
    if i < 0 {
      ParseNegative(NatToString(-i));
      ParseNatNumeral(-i);
    } else {
      ParseNatNumeral(i);
    }
  }

  /** A '-' in front of a numeral negates what `parseFloat` reads. */
  lemma ParseNegative(d: string)
    requires d != [] && IsDigit(d[0])
    ensures ParseFloat("-" + d) == Negated(ParseFloat(d))
  {
    var s := "-" + d;
    assert LeadingBlanks(s) == 0;
    assert s[0..] == s && s[1..] == d;
    UnsignedOfPlain(d);
  }

  /** On text starting with neither a blank nor a sign `parseFloat` is the unsigned reading. */
  lemma UnsignedOfPlain(d: string)
    requires d != [] ==> !IsBlank(d[0]) && d[0] != '-' && d[0] != '+'
    ensures ParseFloat(d) == ParseUnsigned(d)
  {
    assert LeadingBlanks(d) == 0;
    assert d[0..] == d;
  }

  /** A string without a digit is NaN to `parseFloat`. */
  lemma ParseNeedsDigit(s: string)
    requires forall i :: 0 <= i < |s| ==> !IsDigit(s[i])
    ensures ParseFloat(s) == NaN
  {
    var t := s[LeadingBlanks(s)..];
    NoDigitUnsigned(t);
    if t != [] {
      NoDigitUnsigned(t[1..]);
    }
  }

  lemma NoDigitUnsigned(u: string)
    requires forall i :: 0 <= i < |u| ==> !IsDigit(u[i])
    ensures ParseUnsigned(u) == NaN
  {
    assert LeadingDigits(u) == 0;
    if u != [] && u[0] == '.' && |u| > 1 {
      assert !IsDigit(u[1..][0]);
    }
  }
}
