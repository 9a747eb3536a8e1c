/** The closed-form inflation projection both engines evaluate year by year:
    a value v grows to v(1+r)^y in price terms and buys only v/(1+r)^y. */
module Erosion {
  import opened Numbers

  /** The price factor cannot vanish where the projection divides by it. */
  predicate Defined(rate: real, y: int)
  {
    1.0 + rate != 0.0 || y == 0
  }

  /** (1 + rate)^y, with negative y giving the reciprocal as Math.pow and ** do. */
  function Factor(rate: real, y: int): (f: real)
    requires 1.0 + rate != 0.0 || y >= 0
    ensures Defined(rate, y) ==> f != 0.0
  {
    if 1.0 + rate != 0.0 then PowNonZero(1.0 + rate, if y >= 0 then y else -y); IntPow(1.0 + rate, y)
    else IntPow(1.0 + rate, y)
  }

  function FutureValue(v: real, rate: real, y: int): real
    requires 1.0 + rate != 0.0 || y >= 0
  {
    v * Factor(rate, y)
  }

  function PurchasingPower(v: real, rate: real, y: int): real
    requires Defined(rate, y)
  {
    v / Factor(rate, y)
  }

  function ValueEroded(v: real, rate: real, y: int): real
    requires Defined(rate, y)
  {
    v - PurchasingPower(v, rate, y)
  }

  /** Cumulative inflation as a percentage. */
  function CumulativeInflation(rate: real, y: int): real
    requires 1.0 + rate != 0.0 || y >= 0
  {
    (Factor(rate, y) - 1.0) * 100.0
  }

  /** What the future price and the present purchasing power multiply to: v squared. */
  lemma Duality(v: real, rate: real, y: int)
    requires Defined(rate, y)
    ensures FutureValue(v, rate, y) * PurchasingPower(v, rate, y) == v * v
  {
    var f := Factor(rate, y);
    assert (v * f) * (v / f) == v * v * (f / f);
  }

  /** What was eroded and what is left add up to the original value. */
  lemma ErodedPlusRemaining(v: real, rate: real, y: int)
    requires Defined(rate, y)
    ensures ValueEroded(v, rate, y) + PurchasingPower(v, rate, y) == v
  {
  }

  /** With non-negative inflation a non-negative value never buys more and never costs less. */
  lemma InflationErodes(v: real, rate: real, y: nat)
    requires rate >= 0.0 && v >= 0.0
    ensures 0.0 <= PurchasingPower(v, rate, y) <= v <= FutureValue(v, rate, y)
    ensures ValueEroded(v, rate, y) >= 0.0
    ensures CumulativeInflation(rate, y) >= 0.0
  {
    PowAtLeastOne(1.0 + rate, y);
    var f := Factor(rate, y);
    assert f >= 1.0;
    assert v * f >= v * 1.0;
    assert v / f <= v by {
      assert v == (v / f) * f;
      assert (v / f) * f >= (v / f) * 1.0;
    }
  }

  /** A year of inflation more multiplies the price by the factor once more. */
  lemma NextYear(v: real, rate: real, y: nat)
    ensures FutureValue(v, rate, y + 1) == FutureValue(v, rate, y) * (1.0 + rate)
  {
    assert Pow(1.0 + rate, y + 1) == (1.0 + rate) * Pow(1.0 + rate, y);
  }

  /** One yearly record of the inflation breakdown. */
  datatype InflationYear = InflationYear(year: int, futureValue: real, purchasingPower: real, valueEroded: real, cumulativeInflation: real)

  /** What the breakdown records for year y >= 1. */
  function InflationRow(rule: RoundingRule, v: real, rate: real, y: nat): InflationYear
    requires y >= 1 && 1.0 + rate != 0.0
  {
    InflationYear(
      y,
      Round2(rule, FutureValue(v, rate, y)),
      Round2(rule, PurchasingPower(v, rate, y)),
      Round2(rule, ValueEroded(v, rate, y)),
      Round2(rule, CumulativeInflation(rate, y)))
  }

  /** The whole breakdown for n years. */
  function InflationRows(rule: RoundingRule, v: real, rate: real, n: nat): (rows: seq<InflationYear>)
    requires 1.0 + rate != 0.0 || n == 0
    ensures |rows| == n
    ensures forall i :: 0 <= i < n ==> rows[i] == InflationRow(rule, v, rate, i + 1)
  {
    if n == 0 then [] else InflationRows(rule, v, rate, n - 1) + [InflationRow(rule, v, rate, n)]
  }
}
