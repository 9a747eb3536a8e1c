/** The browser-side calculation engine (src/utils/calculations.js): compound
    interest, loan payoff with its yearly summary, retirement projection and
    inflation. Each calculator is a loop that updates running totals and
    appends one rounded record per period; rounding is Math.round(x*100)/100. */
module Calculations {
  import opened Numbers
  import opened Accrual
  import opened Amortization
  import opened Erosion

  /** The error objects the calculators return instead of a result. */
  datatype CalcError =
    | PaymentTooLow(minPayment: real)  // "Monthly payment must be greater than $<min>"
    | AgesOutOfOrder                   // "Retirement age must be greater than current age."
    | NoDebts                          // "Please add at least one debt."

  datatype Result<T> = Ok(value: T) | Err(error: CalcError)

  datatype Option<T> = None | Some(value: T)

  // ---------------------------------------------------------------------------
  // Compound interest

  datatype CompoundResult = CompoundResult(
    finalBalance: real, totalContributions: real, totalInterest: real, breakdown: seq<GrowthYear>)

  /** The compound-interest result for n whole years under a rounding rule. */
  function CompoundReport(rule: RoundingRule, principal: real, rate: real, contribution: real, n: nat): CompoundResult
  {
    CompoundResult(Round2(rule, Grow(principal, rate, contribution, 12 * n)),
                   Round2(rule, Contributed(principal, contribution, n)),
                   Round2(rule, Accrued(principal, rate, contribution, 12 * n)),
                   GrowthRows(rule, principal, rate, contribution, n))
  }

  method CalculateCompoundInterest(principal: real, monthlyContribution: real, annualRate: real, years: int)
    returns (res: CompoundResult)
    ensures res == CompoundReport(HalfUp, principal, MonthlyRate(annualRate), monthlyContribution, Span(years))
    ensures res.breakdown == GrowthRows(HalfUp, principal, MonthlyRate(annualRate), monthlyContribution, Span(years))
    ensures |res.breakdown| == Span(years)
    ensures forall i :: 0 <= i < |res.breakdown| ==> res.breakdown[i].year == i + 1
    ensures res.finalBalance == JsRound2(Grow(principal, MonthlyRate(annualRate), monthlyContribution, 12 * Span(years)))
    ensures res.totalContributions == JsRound2(Contributed(principal, monthlyContribution, Span(years)))
    ensures res.totalInterest == JsRound2(Accrued(principal, MonthlyRate(annualRate), monthlyContribution, 12 * Span(years)))
    ensures years <= 0 ==> res.breakdown == [] && res.finalBalance == JsRound2(principal)
  {
    var monthlyRate := MonthlyRate(annualRate);
    var breakdown: seq<GrowthYear> := [];
    var balance := principal;
    var totalContributions := principal;
    var totalInterest := 0.0;
    var year := 1;
    while year <= years
      invariant year <= Span(years) + 1
      invariant CompoundBefore(HalfUp, principal, monthlyRate, monthlyContribution, year, balance,
                               totalContributions, totalInterest, breakdown)
    {
      var yearlyInterest;
      var newBalance;
      newBalance, yearlyInterest := AccrueYear(balance, monthlyRate, monthlyContribution);
      CompoundYear(HalfUp, principal, monthlyRate, monthlyContribution, year, balance,
                   totalContributions, totalInterest, breakdown, newBalance, yearlyInterest);
      balance := newBalance;
      totalContributions := totalContributions + monthlyContribution * 12.0;
      totalInterest := totalInterest + yearlyInterest;
      breakdown := breakdown + [GrowthYear(year, JsRound2(balance), JsRound2(totalContributions),
                                           JsRound2(yearlyInterest), JsRound2(totalInterest))];
      year := year + 1;
    }
    assert year - 1 == Span(years);
    res := CompoundResult(JsRound2(balance), JsRound2(totalContributions), JsRound2(totalInterest), breakdown);
  }

  // ---------------------------------------------------------------------------
  // Loan payoff

  datatype LoanMonth = LoanMonth(month: int, payment: real, principal: real, interest: real, balance: real, totalInterest: real)

  datatype YearSummary = YearSummary(year: int, totalPayments: real, totalPrincipal: real, totalInterest: real, endBalance: real)

  datatype LoanPlan = LoanPlan(
    totalMonths: int, totalYears: real, totalPayments: real, totalInterest: real,
    schedule: seq<LoanMonth>, annualSummary: seq<YearSummary>)

  /** What the schedule records for month k >= 1. */
  function ScheduleRow(amount: real, rate: real, payment: real, k: nat): LoanMonth
    requires k >= 1
  {
    var b := LoanBalance(amount, rate, payment, k - 1);
    LoanMonth(
      k,
      JsRound2(PaymentMade(b, rate, payment)),
      JsRound2(PrincipalPaid(b, rate, payment)),
      JsRound2(Interest(b, rate)),
      Max(0.0, JsRound2(LoanBalance(amount, rate, payment, k))),
      JsRound2(InterestPaid(amount, rate, payment, k)))
  }

  /** The schedule of the first n months. */
  function LoanSchedule(amount: real, rate: real, payment: real, n: nat): (rows: seq<LoanMonth>)
    ensures |rows| == n
    ensures forall i :: 0 <= i < n ==> rows[i] == ScheduleRow(amount, rate, payment, i + 1)
  {
    if n == 0 then [] else LoanSchedule(amount, rate, payment, n - 1) + [ScheduleRow(amount, rate, payment, n)]
  }

  /** The state of the loan loop after `month` months: the running balance, the interest so far
      and the schedule recorded so far. */
  predicate Amortized(amount: real, rate: real, payment: real, month: nat, balance: real, totalInterest: real,
                      schedule: seq<LoanMonth>)
  {
    && balance == LoanBalance(amount, rate, payment, month)
    && totalInterest == InterestPaid(amount, rate, payment, month)
    && schedule == LoanSchedule(amount, rate, payment, month)
  }

  /** One pass of the loan loop body keeps that state: from the state after `month` months,
      the values the body computes give the state after month + 1 months. */
  lemma LoanMonthStep(amount: real, rate: real, payment: real, month: nat, balance: real, totalInterest: real,
                      schedule: seq<LoanMonth>, interest: real, principalPaid: real, paid: real)
    requires Amortized(amount, rate, payment, month, balance, totalInterest, schedule)
    requires interest == Interest(balance, rate)
    requires principalPaid == Min(payment - interest, balance)
    requires paid == Min(payment, balance + interest)
    ensures Amortized(amount, rate, payment, month + 1, balance - principalPaid, totalInterest + interest,
                      schedule + [LoanMonth(month + 1, JsRound2(paid), JsRound2(principalPaid), JsRound2(interest),
                                            Max(0.0, JsRound2(balance - principalPaid)), JsRound2(totalInterest + interest))])
  {
    var row := ScheduleRow(amount, rate, payment, month + 1);
    assert LoanBalance(amount, rate, payment, month + 1) == balance - principalPaid;
    assert row.payment == JsRound2(paid);
    assert row.principal == JsRound2(principalPaid);
    assert row.interest == JsRound2(interest);
    assert row.balance == Max(0.0, JsRound2(balance - principalPaid));
    assert row.totalInterest == JsRound2(totalInterest + interest);
  }

  /** The month loop of the loan calculator: `while (balance > 0 && month < 600)`, leaving early
      once a month ends at or below the residual balance. */
  method Amortize(loanAmount: real, monthlyRate: real, monthlyPayment: real)
    returns (month: nat, totalInterest: real, schedule: seq<LoanMonth>)
    ensures month == JsLoanMonths(loanAmount, monthlyRate, monthlyPayment)
    ensures totalInterest == InterestPaid(loanAmount, monthlyRate, monthlyPayment, month)
    ensures schedule == LoanSchedule(loanAmount, monthlyRate, monthlyPayment, month)
  {
    schedule := [];
    var balance := loanAmount;
    totalInterest := 0.0;
    month := 0;
    while balance > 0.0 && month < 600
      invariant month <= MaxMonths
      invariant Amortized(loanAmount, monthlyRate, monthlyPayment, month, balance, totalInterest, schedule)
      invariant forall j :: 1 <= j <= month ==> LoanBalance(loanAmount, monthlyRate, monthlyPayment, j) > Residual
      invariant month >= 1 ==> loanAmount > 0.0
      decreases MaxMonths - month
    {
      var interest := Interest(balance, monthlyRate);
      var principalPaid := Min(monthlyPayment - interest, balance);
      var payment := Min(monthlyPayment, balance + interest);
      LoanMonthStep(loanAmount, monthlyRate, monthlyPayment, month, balance, totalInterest, schedule,
                    interest, principalPaid, payment);
      month := month + 1;
      balance := balance - principalPaid;
      totalInterest := totalInterest + interest;
      schedule := schedule + [LoanMonth(month, JsRound2(payment), JsRound2(principalPaid), JsRound2(interest),
                                        Max(0.0, JsRound2(balance)), JsRound2(totalInterest))];
      assert Amortized(loanAmount, monthlyRate, monthlyPayment, month, balance, totalInterest, schedule);
      if balance <= 0.01 {
        break;
      }
    }
    if loanAmount > 0.0 {
      FirstSettledUnique(loanAmount, monthlyRate, monthlyPayment, 1, month);
    }
  }

  /** What the loan calculator returns once the payment passes the guard. */
  function LoanPlanOf(amount: real, rate: real, payment: real): LoanPlan
  {
    var n := JsLoanMonths(amount, rate, payment);
    var schedule := LoanSchedule(amount, rate, payment, n);
    LoanPlan(n, JsYears(n), JsRound2(InterestPaid(amount, rate, payment, n) + amount),
             JsRound2(InterestPaid(amount, rate, payment, n)), schedule, YearSummaries(schedule))
  }

  method CalculateLoanPayoff(loanAmount: real, annualRate: real, monthlyPayment: real) returns (res: Result<LoanPlan>)
    ensures res.Err? <==> monthlyPayment <= Interest(loanAmount, MonthlyRate(annualRate))
    ensures res.Err? ==> res.error == PaymentTooLow(Interest(loanAmount, MonthlyRate(annualRate)))
    ensures res.Ok? ==> res.value == LoanPlanOf(loanAmount, MonthlyRate(annualRate), monthlyPayment)
  {
    var monthlyRate := MonthlyRate(annualRate);
    var minPayment := Interest(loanAmount, monthlyRate);
    if monthlyPayment <= minPayment {
      return Err(PaymentTooLow(minPayment));
    }
    var month, totalInterest, schedule := Amortize(loanAmount, monthlyRate, monthlyPayment);
    var annualSummary := SummarizeYears(schedule);
    res := Ok(LoanPlan(month, JsYears(month), JsRound2(totalInterest + loanAmount),
                       JsRound2(totalInterest), schedule, annualSummary));
  }

  /** What the plan promises: at most 600 months, numbered from 1, every recorded balance
      non-negative, every month but the last ending above the residual and the last one
      at or below it (unless the cap was hit), and one summary row per started year. */
  lemma LoanPlanShape(amount: real, rate: real, payment: real)
    ensures var plan := LoanPlanOf(amount, rate, payment);
            && plan.totalMonths == |plan.schedule| <= MaxMonths
            && (amount <= 0.0 ==> plan.schedule == [])
            && (forall i :: 0 <= i < |plan.schedule| ==> plan.schedule[i].month == i + 1)
            && (forall i :: 0 <= i < |plan.schedule| ==> plan.schedule[i].balance >= 0.0)
            && (forall j :: 1 <= j < plan.totalMonths ==> LoanBalance(amount, rate, payment, j) > Residual)
            && (0 < plan.totalMonths < MaxMonths ==> LoanBalance(amount, rate, payment, plan.totalMonths) <= Residual)
            && |plan.annualSummary| == (|plan.schedule| + 11) / 12
            && (forall k :: 0 <= k < |plan.annualSummary| ==> plan.annualSummary[k].year == k + 1)
  {
  }

  /** The columns of the schedule that the yearly summary adds up. */
  datatype Column = PaymentsColumn | PrincipalColumn | InterestColumn

  function Cell(m: LoanMonth, c: Column): real
  {
    match c
    case PaymentsColumn => m.payment
    case PrincipalColumn => m.principal
    case InterestColumn => m.interest
  }

  /** `reduce((s, m) => s + m.<column>, 0)`: the column total, added left to right. */
  function Total(s: seq<LoanMonth>, c: Column): real
  {
    if s == [] then 0.0 else Total(s[..|s| - 1], c) + Cell(s[|s| - 1], c)
  }

  /** The months of year k (k from 0): entries 12k .. 12k+11, or fewer in the last year. */
  function YearSlice(schedule: seq<LoanMonth>, k: nat): (slice: seq<LoanMonth>)
    requires 12 * k < |schedule|
    ensures 1 <= |slice| <= 12
  {
    schedule[12 * k .. if 12 * k + 12 <= |schedule| then 12 * k + 12 else |schedule|]
  }

  /** Row k of the yearly summary. */
  function SummaryRow(schedule: seq<LoanMonth>, k: nat): YearSummary
    requires 12 * k < |schedule|
  {
    var slice := YearSlice(schedule, k);
    YearSummary(k + 1, Total(slice, PaymentsColumn), Total(slice, PrincipalColumn), Total(slice, InterestColumn), slice[|slice| - 1].balance)
  }

  /** The yearly summary: one row per started year of the schedule. */
  function YearSummaries(schedule: seq<LoanMonth>): (rows: seq<YearSummary>)
    ensures |rows| == (|schedule| + 11) / 12
    ensures forall k :: 0 <= k < |rows| ==> 12 * k < |schedule| && rows[k] == SummaryRow(schedule, k)
  {
    seq((|schedule| + 11) / 12, k requires 0 <= k < (|schedule| + 11) / 12 => SummaryRow(schedule, k))
  }

  /** The `for (i = 0; i < schedule.length; i += 12)` loop that folds the schedule into years. */
  method SummarizeYears(schedule: seq<LoanMonth>) returns (summary: seq<YearSummary>)
    ensures summary == YearSummaries(schedule)
  {
    summary := [];
    var i := 0;
    while i < |schedule|
      invariant i % 12 == 0 && 0 <= i <= |schedule| + 11
      invariant i <= |schedule| || i / 12 == (|schedule| + 11) / 12
      invariant |summary| == i / 12
      invariant forall k :: 0 <= k < |summary| ==> 12 * k < |schedule| && summary[k] == SummaryRow(schedule, k)
    {
      var yearSlice := schedule[i .. if i + 12 <= |schedule| then i + 12 else |schedule|];
      var yearNum := i / 12 + 1;
      summary := summary + [YearSummary(yearNum, Total(yearSlice, PaymentsColumn), Total(yearSlice, PrincipalColumn),
                                        Total(yearSlice, InterestColumn), yearSlice[|yearSlice| - 1].balance)];
      i := i + 12;
    }
  }

  /** The column totals of a concatenation add up. */
  lemma {:induction false} TotalAppend(a: seq<LoanMonth>, b: seq<LoanMonth>, c: Column)
    ensures Total(a + b, c) == Total(a, c) + Total(b, c)
    decreases |b|
  {
    if b != [] {
      var b' := b[..|b| - 1];
      assert (a + b)[..|a + b| - 1] == a + b';
      TotalAppend(a, b', c);
    } else {
      assert a + b == a;
    }
  }

  function SummaryCell(y: YearSummary, c: Column): real
  {
    match c
    case PaymentsColumn => y.totalPayments
    case PrincipalColumn => y.totalPrincipal
    case InterestColumn => y.totalInterest
  }

  /** Each cell of a summary row is the column total of that year's months. */
  lemma SummaryCellIsYearTotal(schedule: seq<LoanMonth>, k: nat, c: Column)
    requires 12 * k < |schedule|
    ensures SummaryCell(SummaryRow(schedule, k), c) == Total(YearSlice(schedule, k), c)
  {
  }

  /** The first n rows of the yearly summary, added up in one column. */
  function SummaryTotal(schedule: seq<LoanMonth>, c: Column, n: nat): real
    requires n <= (|schedule| + 11) / 12
  {
    if n == 0 then 0.0 else SummaryTotal(schedule, c, n - 1) + SummaryCell(SummaryRow(schedule, n - 1), c)
  }

  /** The first n years of the summary account for exactly the first 12n months. */
  lemma {:induction false} SummaryTotalIsPrefixTotal(schedule: seq<LoanMonth>, c: Column, n: nat)
    requires n <= (|schedule| + 11) / 12
    ensures SummaryTotal(schedule, c, n) == Total(schedule[..if 12 * n <= |schedule| then 12 * n else |schedule|], c)
  {
    if n == 0 {
      assert schedule[..0] == [];
    } else {
      SummaryTotalIsPrefixTotal(schedule, c, n - 1);
      var lo := 12 * (n - 1);
      var hi := if 12 * n <= |schedule| then 12 * n else |schedule|;
      assert lo < |schedule| && (if 12 * (n - 1) <= |schedule| then 12 * (n - 1) else |schedule|) == lo;
      assert YearSlice(schedule, n - 1) == schedule[lo..hi];
      SummaryCellIsYearTotal(schedule, n - 1, c);
      assert schedule[..hi] == schedule[..lo] + schedule[lo..hi];
      TotalAppend(schedule[..lo], schedule[lo..hi], c);
    }
  }

  /** Summing the yearly summary gives the same totals as summing the whole schedule. */
  lemma SummaryPreservesTotals(schedule: seq<LoanMonth>, c: Column)
    ensures SummaryTotal(schedule, c, (|schedule| + 11) / 12) == Total(schedule, c)
  {
    var n := (|schedule| + 11) / 12;
    SummaryTotalIsPrefixTotal(schedule, c, n);
    assert schedule[..if 12 * n <= |schedule| then 12 * n else |schedule|] == schedule;
  }

  // ---------------------------------------------------------------------------
  // Retirement

  datatype RetirementPlan = RetirementPlan(
    retirementCorpus: real, totalContributions: real, totalGrowth: real,
    annualWithdrawal: real, monthlyWithdrawal: real,
    corpusLastsYears: Option<int>,  // None where Math.round(corpus / 0) is Infinity or NaN
    projection: seq<ProjectionYear>)

  /** The withdrawal rate parameter defaults to 4 when it is left out. */
  function WithdrawalRateOrDefault(withdrawalRate: Option<real>): real
  {
    match withdrawalRate
    case None => 4.0
    case Some(r) => r
  }

  /** The first-year withdrawal at a percentage rate of the corpus. */
  function AnnualWithdrawal(corpus: real, withdrawalRate: real): real
  {
    corpus * (withdrawalRate / 100.0)
  }

  method CalculateRetirement(currentAge: int, retirementAge: int, currentSavings: real, monthlyContribution: real,
                             expectedReturn: real, withdrawalRate: Option<real>)
    returns (res: Result<RetirementPlan>)
    ensures res.Err? <==> retirementAge <= currentAge
    ensures res.Err? ==> res.error == AgesOutOfOrder
    ensures res.Ok? ==>
              var plan, years, rate := res.value, retirementAge - currentAge, MonthlyRate(expectedReturn);
              var balance := Grow(currentSavings, rate, monthlyContribution, 12 * years);
              && plan.projection == ProjectionRows(HalfUp, currentAge, currentSavings, rate, monthlyContribution, years)
              && |plan.projection| == years
              && (forall i :: 0 <= i < years ==> plan.projection[i].age == currentAge + i + 1)
              && plan.retirementCorpus == JsRound2(balance)
              && plan.totalContributions == JsRound2(Contributed(currentSavings, monthlyContribution, years))
              && plan.totalGrowth == JsRound2(plan.retirementCorpus - Contributed(currentSavings, monthlyContribution, years))
              && plan.annualWithdrawal == JsRound2(AnnualWithdrawal(balance, WithdrawalRateOrDefault(withdrawalRate)))
              && plan.monthlyWithdrawal == JsRound2(plan.annualWithdrawal / 12.0)
              && plan.corpusLastsYears == (if plan.annualWithdrawal == 0.0 then None
                                           else Some(JsRound(plan.retirementCorpus / plan.annualWithdrawal)))
  {
    var years := retirementAge - currentAge;
    if years <= 0 {
      return Err(AgesOutOfOrder);
    }
    var wr := WithdrawalRateOrDefault(withdrawalRate);
    var monthlyRate := MonthlyRate(expectedReturn);
    var projection: seq<ProjectionYear> := [];
    var balance := currentSavings;
    var totalContributions := currentSavings;
    var year := 1;
    while year <= years
      invariant year <= years + 1
      invariant ProjectionBefore(HalfUp, currentAge, currentSavings, monthlyRate, monthlyContribution, year,
                                 balance, totalContributions, projection)
    {
      var yearlyInterest;
      var newBalance;
      newBalance, yearlyInterest := AccrueYear(balance, monthlyRate, monthlyContribution);
      ProjectionYearStep(HalfUp, currentAge, currentSavings, monthlyRate, monthlyContribution, year,
                         balance, totalContributions, projection, newBalance, yearlyInterest);
      balance := newBalance;
      totalContributions := totalContributions + monthlyContribution * 12.0;
      projection := projection + [ProjectionYear(currentAge + year, year, JsRound2(balance),
                                                 JsRound2(totalContributions), JsRound2(yearlyInterest))];
      year := year + 1;
    }
    assert year - 1 == years;
    var retirementCorpus := JsRound2(balance);
    var annualWithdrawal := JsRound2(AnnualWithdrawal(balance, wr));
    var monthlyWithdrawal := JsRound2(annualWithdrawal / 12.0);
    var corpusLastsYears := if annualWithdrawal == 0.0 then None else Some(JsRound(retirementCorpus / annualWithdrawal));
    res := Ok(RetirementPlan(retirementCorpus, JsRound2(totalContributions),
                             JsRound2(retirementCorpus - totalContributions),
                             annualWithdrawal, monthlyWithdrawal, corpusLastsYears, projection));
  }

  // ---------------------------------------------------------------------------
  // Inflation

  datatype InflationReport = InflationReport(
    currentValue: real, futureEquivalent: real, futurePurchasingPower: real, totalInflation: real,
    breakdown: seq<InflationYear>)

  /** Math.round((f - 1) * 10000) / 100 is the percentage rounded to two places. */
  lemma PercentRounding(f: real)
    ensures JsRound((f - 1.0) * 10000.0) as real / 100.0 == JsRound2((f - 1.0) * 100.0)
  {
    assert (f - 1.0) * 10000.0 == (f - 1.0) * 100.0 * 100.0;
  }

  method CalculateInflation(currentValue: real, years: int, inflationRate: real) returns (report: InflationReport)
    requires Defined(inflationRate / 100.0, years)
    ensures report.breakdown == InflationRows(HalfUp, currentValue, inflationRate / 100.0, Span(years))
    ensures |report.breakdown| == Span(years)
    ensures report.currentValue == currentValue
    ensures report.futureEquivalent == JsRound2(FutureValue(currentValue, inflationRate / 100.0, years))
    ensures report.futurePurchasingPower == JsRound2(PurchasingPower(currentValue, inflationRate / 100.0, years))
    ensures report.totalInflation == JsRound2(CumulativeInflation(inflationRate / 100.0, years))
  {
    var breakdown: seq<InflationYear> := [];
    var rate := inflationRate / 100.0;
    var year := 1;
    while year <= years
      invariant 1 <= year && year - 1 <= Span(years)
      invariant breakdown == InflationRows(HalfUp, currentValue, rate, year - 1)
    {
      var f := Factor(rate, year);
      var futureValue := FutureValue(currentValue, rate, year);
      var purchasingPower := PurchasingPower(currentValue, rate, year);
      var valueEroded := currentValue - purchasingPower;
      PercentRounding(f);
      breakdown := breakdown + [InflationYear(year, JsRound2(futureValue), JsRound2(purchasingPower),
                                              JsRound2(valueEroded), JsRound((f - 1.0) * 10000.0) as real / 100.0)];
      assert breakdown == InflationRows(HalfUp, currentValue, rate, year);
      year := year + 1;
    }
    assert year - 1 == Span(years);
    var finalFactor := Factor(rate, years);
    PercentRounding(finalFactor);
    report := InflationReport(currentValue, JsRound2(FutureValue(currentValue, rate, years)),
                              JsRound2(PurchasingPower(currentValue, rate, years)),
                              JsRound((finalFactor - 1.0) * 10000.0) as real / 100.0, breakdown);
  }
}
