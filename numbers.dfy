/** Arithmetic shared by both calculation engines: the two rounding rules,
    Python's int() truncation, the monthly rate and integer powers. Amounts
    are exact reals; floating-point drift is not modelled. */
module Numbers {

  /** JavaScript's Math.round: the nearest integer, halves towards +infinity. */
  function JsRound(x: real): int
  {
    (x + 0.5).Floor
  }

  /** Math.round picks the one integer in (x - 1/2, x + 1/2]. */
  lemma JsRoundNearest(x: real)
    ensures x - 0.5 < JsRound(x) as real <= x + 0.5
  {
  }

  lemma JsRoundUnique(x: real, n: int)
    requires x - 0.5 < n as real <= x + 0.5
    ensures JsRound(x) == n
  {
  }

  /** Math.round(x * 100) / 100: two decimal places, halves towards +infinity. */
  function JsRound2(x: real): real
  {
    JsRound(x * 100.0) as real / 100.0
  }

  /** A non-negative amount never rounds below zero. */
  lemma JsRound2NonNegative(x: real)
    requires x >= 0.0
    ensures JsRound2(x) >= 0.0
  {
    assert (x * 100.0 + 0.5).Floor >= 0;
  }

  /** Math.round(x * 10) / 10: one decimal place. */
  function JsRound1(x: real): real
  {
    JsRound(x * 10.0) as real / 10.0
  }

  /** Math.round((months / 12) * 10) / 10: a month count in years, to one decimal place. */
  function JsYears(months: int): real
  {
    JsRound1(months as real / 12.0)
  }

  /** Python's round(x) on an exact value: nearest integer, exact halves to the even neighbour. */
  function PyRoundInt(y: real): int
  {
    var f := y.Floor;
    var d := y - f as real;
    if d < 0.5 then f
    else if d > 0.5 then f + 1
    else if f % 2 == 0 then f
    else f + 1
  }

  /** Python's round(x, 2): two decimal places, exact halves to even. */
  function PyRound2(x: real): real
  {
    PyRoundInt(x * 100.0) as real / 100.0
  }

  /** round() picks a nearest integer, and the even one of two equally near. */
  lemma PyRoundNearest(y: real)
    ensures y - 0.5 <= PyRoundInt(y) as real <= y + 0.5
    ensures (PyRoundInt(y) as real - y == 0.5 || y - PyRoundInt(y) as real == 0.5) ==> PyRoundInt(y) % 2 == 0
  {
  }

  lemma PyRoundUnique(y: real, n: int)
    requires y - 0.5 < n as real < y + 0.5
    ensures PyRoundInt(y) == n
  {
  }

  /** Both two-place roundings land on a whole number of cents within half a cent. */
  lemma Round2Near(x: real)
    ensures x - 0.005 < JsRound2(x) <= x + 0.005
    ensures x - 0.005 <= PyRound2(x) <= x + 0.005
    ensures (JsRound2(x) * 100.0).Floor as real == JsRound2(x) * 100.0
    ensures (PyRound2(x) * 100.0).Floor as real == PyRound2(x) * 100.0
  {
    JsRoundNearest(x * 100.0);
    PyRoundNearest(x * 100.0);
  }

  /** The two rounding rules of the two engines. */
  datatype RoundingRule = HalfUp | HalfEven

  function Round2(rule: RoundingRule, x: real): real
  {
    match rule
    case HalfUp => JsRound2(x)
    case HalfEven => PyRound2(x)
  }

  /** Whether x has a third decimal of exactly 5 and nothing after it. */
  predicate IsTie2(x: real)
  {
    x * 100.0 - (x * 100.0).Floor as real == 0.5
  }

  /** Away from an exact tie both rules pick the nearest hundredth. */
  lemma RoundingsAgreeOffTies(x: real)
    requires !IsTie2(x)
    ensures JsRound2(x) == PyRound2(x)
  {
    var y := x * 100.0;
    var f := y.Floor;
    PyRoundNearest(y);
    if y - f as real < 0.5 {
      JsRoundUnique(y, f);
    } else {
      JsRoundUnique(y, f + 1);
    }
  }

  /** At a tie they differ: 0.125 becomes 0.13 in JavaScript and 0.12 in Python. */
  lemma RoundingsDifferAtTie()
    ensures IsTie2(0.125)
    ensures JsRound2(0.125) == 0.13
    ensures PyRound2(0.125) == 0.12
  {
    assert (0.125 * 100.0).Floor == 12;
    JsRoundUnique(12.5, 13);
  }

  /** Rounding an already rounded amount changes nothing, under either rule. */
  lemma RoundingIdempotent(x: real)
    ensures JsRound2(JsRound2(x)) == JsRound2(x)
    ensures PyRound2(PyRound2(x)) == PyRound2(x)
  {
    var n := JsRound(x * 100.0);
    assert JsRound2(x) * 100.0 == n as real;
    JsRoundUnique(n as real, n);
    var m := PyRoundInt(x * 100.0);
    assert PyRound2(x) * 100.0 == m as real;
    PyRoundUnique(m as real, m);
  }

  /** Python's int() on a float: truncation towards zero. */
  function Trunc(x: real): (n: int)
    ensures x >= 0.0 ==> n as real <= x < n as real + 1.0
    ensures x < 0.0 ==> n as real - 1.0 < x <= n as real
  {
    if x >= 0.0 then x.Floor else -((-x).Floor)
  }

  /** The interest a balance earns over one period at a periodic rate. */
  function Interest(balance: real, rate: real): real
  {
    balance * rate
  }

  /** The monthly rate every calculator derives from an annual percentage. */
  function MonthlyRate(annualPercent: real): real
  {
    annualPercent / 100.0 / 12.0
  }

  function Min(a: real, b: real): real { if a <= b then a else b }

  function Max(a: real, b: real): real { if a >= b then a else b }

  /** x to a natural power (Math.pow and ** with an integer exponent). */
  function Pow(x: real, n: nat): real
  {
    if n == 0 then 1.0 else x * Pow(x, n - 1)
  }

  lemma {:induction false} PowNonZero(x: real, n: nat)
    requires x != 0.0
    ensures Pow(x, n) != 0.0
  {
    if n > 0 {
      PowNonZero(x, n - 1);
    }
  }

  lemma {:induction false} PowPositive(x: real, n: nat)
    requires x > 0.0
    ensures Pow(x, n) > 0.0
  {
    if n > 0 {
      PowPositive(x, n - 1);
    }
  }

  lemma {:induction false} PowAtLeastOne(x: real, n: nat)
    requires x >= 1.0
    ensures Pow(x, n) >= 1.0
  {
    if n > 0 {
      PowAtLeastOne(x, n - 1);
    }
  }

  lemma {:induction false} PowAdd(x: real, m: nat, n: nat)
    ensures Pow(x, m + n) == Pow(x, m) * Pow(x, n)
  {
    if n > 0 {
      PowAdd(x, m, n - 1);
      assert Pow(x, m + n) == x * Pow(x, m + n - 1);
    }
  }

  /** x to an integer power, negative exponents giving reciprocals
      (Math.pow and Python's ** on an int exponent). */
  function IntPow(x: real, n: int): real
    requires n < 0 ==> x != 0.0
  {
    if n >= 0 then Pow(x, n) else (PowNonZero(x, -n); 1.0 / Pow(x, -n))
  }
}
