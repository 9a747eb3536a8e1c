/** The month-by-month growth that the compound-interest and retirement
    calculators of both engines share: each month the balance earns interest
    at the monthly rate and then receives the fixed contribution. */
module Accrual {
  import opened Numbers

  /** One month: interest on the current balance, then the contribution. */
  function MonthStep(balance: real, rate: real, contribution: real): real
  {
    balance + Interest(balance, rate) + contribution
  }

  /** The balance after n months, starting from b. */
  function Grow(b: real, rate: real, contribution: real, n: nat): real
  {
    if n == 0 then b else MonthStep(Grow(b, rate, contribution, n - 1), rate, contribution)
  }

  /** The interest credited over the first n months, starting from b. */
  function Accrued(b: real, rate: real, contribution: real, n: nat): real
  {
    if n == 0 then 0.0
    else Accrued(b, rate, contribution, n - 1) + Interest(Grow(b, rate, contribution, n - 1), rate)
  }

  /** The money put in once `years` whole years of contributions have been made. */
  function Contributed(principal: real, contribution: real, years: nat): real
  {
    principal + years as real * (contribution * 12.0)
  }

  /** Another year adds twelve contributions. */
  lemma ContributedStep(principal: real, contribution: real, years: nat)
    ensures Contributed(principal, contribution, years + 1) == Contributed(principal, contribution, years) + contribution * 12.0
  {
  }

  /** A loop `for (year = 1; year <= years; year++)` runs this many times. */
  function Span(years: int): nat
  {
    if years > 0 then years else 0
  }

  /** The balance is always what was put in plus the interest credited. */
  lemma {:induction false} BalanceIsContributionsPlusInterest(b: real, rate: real, contribution: real, n: nat)
    ensures Grow(b, rate, contribution, n) == b + n as real * contribution + Accrued(b, rate, contribution, n)
  {
    if n > 0 {
      BalanceIsContributionsPlusInterest(b, rate, contribution, n - 1);
    }
  }

  /** Growing for m months and then for n more is growing for m + n months. */
  lemma {:induction false} GrowCompose(b: real, rate: real, contribution: real, m: nat, n: nat)
    ensures Grow(Grow(b, rate, contribution, m), rate, contribution, n) == Grow(b, rate, contribution, m + n)
  {
    if n > 0 {
      GrowCompose(b, rate, contribution, m, n - 1);
    }
  }

  /** The interest of m + n months is that of the first m plus that of the next n. */
  lemma {:induction false} AccruedCompose(b: real, rate: real, contribution: real, m: nat, n: nat)
    ensures Accrued(b, rate, contribution, m + n)
         == Accrued(b, rate, contribution, m) + Accrued(Grow(b, rate, contribution, m), rate, contribution, n)
  {
    if n > 0 {
      var start := Grow(b, rate, contribution, m);
      AccruedCompose(b, rate, contribution, m, n - 1);
      GrowCompose(b, rate, contribution, m, n - 1);
      assert m + n - 1 == m + (n - 1);
      assert Accrued(b, rate, contribution, m + n)
          == Accrued(b, rate, contribution, m + (n - 1)) + Interest(Grow(b, rate, contribution, m + (n - 1)), rate);
      assert Accrued(start, rate, contribution, n)
          == Accrued(start, rate, contribution, n - 1) + Interest(Grow(start, rate, contribution, n - 1), rate);
    }
  }

  /** The step from the end of year y to the end of year y + 1. */
  lemma YearAdvance(b: real, rate: real, contribution: real, y: nat)
    ensures Grow(Grow(b, rate, contribution, 12 * y), rate, contribution, 12) == Grow(b, rate, contribution, 12 * (y + 1))
    ensures Accrued(b, rate, contribution, 12 * y) + Accrued(Grow(b, rate, contribution, 12 * y), rate, contribution, 12)
         == Accrued(b, rate, contribution, 12 * (y + 1))
  {
    GrowCompose(b, rate, contribution, 12 * y, 12);
    AccruedCompose(b, rate, contribution, 12 * y, 12);
  }

  /** 1 + x + ... + x^(n-1): what n contributions of 1 grow to. */
  function Annuity(x: real, n: nat): real
  {
    if n == 0 then 0.0 else Annuity(x, n - 1) * x + 1.0
  }

  /** The algebra of one step of the closed form: a month multiplies the balance by
      1 + rate and adds the contribution. */
  lemma ClosedFormStep(g: real, rate: real, b: real, p: real, p': real, c: real, a: real, a': real)
    requires g == b * p + c * a && p' == (1.0 + rate) * p && a' == a * (1.0 + rate) + 1.0
    ensures MonthStep(g, rate, c) == b * p' + c * a'
  {
    assert MonthStep(g, rate, c) == g * (1.0 + rate) + c;
    assert g * (1.0 + rate) == b * (p * (1.0 + rate)) + c * (a * (1.0 + rate));
  }

  /** Closed form of the month loop: the principal compounds, and so does each contribution. */
  lemma {:induction false} GrowClosedForm(b: real, rate: real, contribution: real, n: nat)
    ensures Grow(b, rate, contribution, n) == b * Pow(1.0 + rate, n) + contribution * Annuity(1.0 + rate, n)
  {
    if n == 0 {
      assert Pow(1.0 + rate, n) == 1.0 && Annuity(1.0 + rate, n) == 0.0;
    } else {
      GrowClosedForm(b, rate, contribution, n - 1);
      ClosedFormNext(b, rate, contribution, n);
    }
  }

  /** If the closed form holds after n - 1 months, it holds after n. */
  lemma ClosedFormNext(b: real, rate: real, contribution: real, n: nat)
    requires n >= 1
    requires Grow(b, rate, contribution, n - 1) == b * Pow(1.0 + rate, n - 1) + contribution * Annuity(1.0 + rate, n - 1)
    ensures Grow(b, rate, contribution, n) == b * Pow(1.0 + rate, n) + contribution * Annuity(1.0 + rate, n)
  {
    ClosedFormStep(Grow(b, rate, contribution, n - 1), rate, b, Pow(1.0 + rate, n - 1), Pow(1.0 + rate, n),
                   contribution, Annuity(1.0 + rate, n - 1), Annuity(1.0 + rate, n));
  }

  /** With nothing added, n months turn b into b * (1 + rate)^n. */
  lemma NoContributionCompounds(b: real, rate: real, n: nat)
    ensures Grow(b, rate, 0.0, n) == b * Pow(1.0 + rate, n)
  {
    GrowClosedForm(b, rate, 0.0, n);
  }

  /** With a zero rate the balance is plain saving and no interest accrues. */
  lemma {:induction false} ZeroRateSaves(b: real, contribution: real, n: nat)
    ensures Grow(b, 0.0, contribution, n) == b + n as real * contribution
    ensures Accrued(b, 0.0, contribution, n) == 0.0
  {
    if n > 0 {
      ZeroRateSaves(b, contribution, n - 1);
    }
  }

  /** The twelve months of one year (the inner `for month` loop of every year loop). */
  method AccrueYear(balance: real, rate: real, contribution: real) returns (newBalance: real, yearlyInterest: real)
    ensures newBalance == Grow(balance, rate, contribution, 12)
    ensures yearlyInterest == Accrued(balance, rate, contribution, 12)
  {
    newBalance, yearlyInterest := balance, 0.0;
    var month := 1;
    while month <= 12
      invariant 1 <= month <= 13
      invariant newBalance == Grow(balance, rate, contribution, month - 1)
      invariant yearlyInterest == Accrued(balance, rate, contribution, month - 1)
    {
      var interest := Interest(newBalance, rate);
      yearlyInterest := yearlyInterest + interest;
      newBalance := newBalance + (interest + contribution);
      month := month + 1;
    }
  }

  /** One yearly record of a compound-interest breakdown. */
  datatype GrowthYear = GrowthYear(year: int, balance: real, totalContributions: real, yearlyInterest: real, totalInterest: real)

  /** One yearly record of a retirement projection. */
  datatype ProjectionYear = ProjectionYear(age: int, year: int, balance: real, totalContributions: real, yearlyGrowth: real)

  /** What the breakdown records for year y: every figure after y years, rounded. */
  function GrowthRow(rule: RoundingRule, principal: real, rate: real, contribution: real, y: nat): GrowthYear
    requires y >= 1
  {
    GrowthYear(
      y,
      Round2(rule, Grow(principal, rate, contribution, 12 * y)),
      Round2(rule, Contributed(principal, contribution, y)),
      Round2(rule, Accrued(Grow(principal, rate, contribution, 12 * (y - 1)), rate, contribution, 12)),
      Round2(rule, Accrued(principal, rate, contribution, 12 * y)))
  }

  /** What the projection records for year y, for a saver who is `age` now. */
  function ProjectionRow(rule: RoundingRule, age: int, savings: real, rate: real, contribution: real, y: nat): ProjectionYear
    requires y >= 1
  {
    ProjectionYear(
      age + y,
      y,
      Round2(rule, Grow(savings, rate, contribution, 12 * y)),
      Round2(rule, Contributed(savings, contribution, y)),
      Round2(rule, Accrued(Grow(savings, rate, contribution, 12 * (y - 1)), rate, contribution, 12)))
  }

  /** The whole breakdown for n years: one row per year, numbered from 1. */
  function GrowthRows(rule: RoundingRule, principal: real, rate: real, contribution: real, n: nat): (rows: seq<GrowthYear>)
    ensures |rows| == n
    ensures forall i :: 0 <= i < n ==> rows[i] == GrowthRow(rule, principal, rate, contribution, i + 1)
  {
    if n == 0 then [] else GrowthRows(rule, principal, rate, contribution, n - 1) + [GrowthRow(rule, principal, rate, contribution, n)]
  }

  /** The whole projection for n years. */
  function ProjectionRows(rule: RoundingRule, age: int, savings: real, rate: real, contribution: real, n: nat): (rows: seq<ProjectionYear>)
    ensures |rows| == n
    ensures forall i :: 0 <= i < n ==> rows[i] == ProjectionRow(rule, age, savings, rate, contribution, i + 1)
  {
    if n == 0 then [] else ProjectionRows(rule, age, savings, rate, contribution, n - 1) + [ProjectionRow(rule, age, savings, rate, contribution, n)]
  }

  /** The state of a compound-interest year loop about to run year `year`: the running figures
      are those of year - 1 whole years, and one record has been pushed per year so far. */
  predicate CompoundBefore(rule: RoundingRule, principal: real, rate: real, contribution: real, year: nat,
                           balance: real, totalContributions: real, totalInterest: real, rows: seq<GrowthYear>)
  {
    && year >= 1
    && balance == Grow(principal, rate, contribution, 12 * (year - 1))
    && totalContributions == Contributed(principal, contribution, year - 1)
    && totalInterest == Accrued(principal, rate, contribution, 12 * (year - 1))
    && rows == GrowthRows(rule, principal, rate, contribution, year - 1)
  }

  /** One pass of the year loop keeps that state, in the loop's own terms. */
  lemma CompoundYear(rule: RoundingRule, principal: real, rate: real, contribution: real, year: nat,
                     balance: real, totalContributions: real, totalInterest: real, rows: seq<GrowthYear>,
                     newBalance: real, yearlyInterest: real)
    requires CompoundBefore(rule, principal, rate, contribution, year, balance, totalContributions, totalInterest, rows)
    requires newBalance == Grow(balance, rate, contribution, 12)
    requires yearlyInterest == Accrued(balance, rate, contribution, 12)
    ensures CompoundBefore(rule, principal, rate, contribution, year + 1, newBalance,
                           totalContributions + contribution * 12.0, totalInterest + yearlyInterest,
                           rows + [GrowthYear(year, Round2(rule, newBalance), Round2(rule, totalContributions + contribution * 12.0),
                                              Round2(rule, yearlyInterest), Round2(rule, totalInterest + yearlyInterest))])
  {
    YearAdvance(principal, rate, contribution, year - 1);
    ContributedStep(principal, contribution, year - 1);
    assert year + 1 - 1 == year && (year - 1) + 1 == year;
  }

  /** The same state for the retirement projection, which keeps no interest total. */
  predicate ProjectionBefore(rule: RoundingRule, age: int, savings: real, rate: real, contribution: real, year: nat,
                             balance: real, totalContributions: real, rows: seq<ProjectionYear>)
  {
    && year >= 1
    && balance == Grow(savings, rate, contribution, 12 * (year - 1))
    && totalContributions == Contributed(savings, contribution, year - 1)
    && rows == ProjectionRows(rule, age, savings, rate, contribution, year - 1)
  }

  lemma ProjectionYearStep(rule: RoundingRule, age: int, savings: real, rate: real, contribution: real, year: nat,
                           balance: real, totalContributions: real, rows: seq<ProjectionYear>,
                           newBalance: real, yearlyInterest: real)
    requires ProjectionBefore(rule, age, savings, rate, contribution, year, balance, totalContributions, rows)
    requires newBalance == Grow(balance, rate, contribution, 12)
    requires yearlyInterest == Accrued(balance, rate, contribution, 12)
    ensures ProjectionBefore(rule, age, savings, rate, contribution, year + 1, newBalance,
                             totalContributions + contribution * 12.0,
                             rows + [ProjectionYear(age + year, year, Round2(rule, newBalance),
                                                    Round2(rule, totalContributions + contribution * 12.0),
                                                    Round2(rule, yearlyInterest))])
  {
    YearAdvance(savings, rate, contribution, year - 1);
    ContributedStep(savings, contribution, year - 1);
    assert year + 1 - 1 == year && (year - 1) + 1 == year;
  }
}
