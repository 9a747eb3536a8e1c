/** The calculation bodies of the Flask API (backend/app.py). Each route reads numeric fields
    from the JSON body with defaults, runs the same loops as the browser engine and answers
    with `success: True` and the figures rounded by Python's round(x, 2), or with
    `success: False` and an error (HTTP 400). */
module Backend {
  import opened Numbers
  import opened Accrual
  import opened Amortization
  import opened Erosion
  import opened Calculations

  // ---------------------------------------------------------------------------
  // Requests and responses

  /** A JSON value under a key: a number, or a value float() or int() rejects. */
  datatype Field = Number(value: real) | Malformed

  type Request = map<string, Field>

  /** Why a route answers `success: False`. */
  datatype ApiError =
    | NotANumber(key: string)           // float() or int() raised on the value under key
    | PaymentTooLow(minPayment: real)   // "Monthly payment must be greater than $<min>"
    | AgesOutOfOrder                    // "Retirement age must be greater than current age"
    | DivisionByZero                    // a price factor of 0 in the inflation route

  datatype Response<T> = Success(data: T) | Failure(error: ApiError)

  /** `float(data.get(key, default))`. */
  function FloatField(data: Request, key: string, default: real): Response<real>
  {
    if key !in data then Success(default)
    else match data[key]
      case Number(x) => Success(x)
      case Malformed => Failure(NotANumber(key))
  }

  /** `int(data.get(key, default))`: a number is truncated towards zero. */
  function IntField(data: Request, key: string, default: int): Response<int>
  {
    if key !in data then Success(default)
    else match data[key]
      case Number(x) => Success(Trunc(x))
      case Malformed => Failure(NotANumber(key))
  }

  /** The value a readable field stands for. */
  function NumberOr(data: Request, key: string, default: real): real
  {
    if key in data && data[key].Number? then data[key].value else default
  }

  /** Whether the value under a key, if any, can be read as a number. */
  predicate Readable(data: Request, key: string)
  {
    key !in data || data[key].Number?
  }

  /** The first of keys[from..], in reading order, whose value cannot be read. */
  function FirstMalformed(data: Request, keys: seq<string>, from: nat): (bad: Option<string>)
    requires from <= |keys|
    decreases |keys| - from
    ensures bad.None? <==> forall i :: from <= i < |keys| ==> Readable(data, keys[i])
    ensures bad.Some? ==> exists i :: from <= i < |keys| && keys[i] == bad.value && !Readable(data, keys[i])
                                      && forall j :: from <= j < i ==> Readable(data, keys[j])
  {
    if from == |keys| then None
    else if !Readable(data, keys[from]) then Some(keys[from])
    else FirstMalformed(data, keys, from + 1)
  }

  /** Reading one more field: a readable one passes the search on, an unreadable one ends it. */
  lemma ReadStep(data: Request, keys: seq<string>, from: nat, r: Response<real>, default: real)
    requires from < |keys|
    requires r == FloatField(data, keys[from], default)
    ensures r.Failure? ==> FirstMalformed(data, keys, from) == Some(keys[from]) && r.error == NotANumber(keys[from])
    ensures r.Success? ==> FirstMalformed(data, keys, from) == FirstMalformed(data, keys, from + 1)
                           && r.data == NumberOr(data, keys[from], default)
  {
  }

  lemma ReadIntStep(data: Request, keys: seq<string>, from: nat, r: Response<int>, default: int)
    requires from < |keys|
    requires r == IntField(data, keys[from], default)
    ensures r.Failure? ==> FirstMalformed(data, keys, from) == Some(keys[from]) && r.error == NotANumber(keys[from])
    ensures r.Success? ==> FirstMalformed(data, keys, from) == FirstMalformed(data, keys, from + 1)
                           && r.data == Trunc(NumberOr(data, keys[from], default as real))
  {
  }

  // ---------------------------------------------------------------------------
  // Compound interest

  /** The compound-interest loop with Python's rounding. */
  method PyCompound(principal: real, monthly: real, rate: real, years: int) returns (res: CompoundResult)
    ensures res == CompoundReport(HalfEven, principal, MonthlyRate(rate), monthly, Span(years))
  {
    var monthlyRate := MonthlyRate(rate);
    var breakdown: seq<GrowthYear> := [];
    var balance := principal;
    var totalContributions := principal;
    var totalInterest := 0.0;
    var year := 1;
    while year <= years
      invariant year <= Span(years) + 1
      invariant CompoundBefore(HalfEven, principal, monthlyRate, monthly, year, balance,
                               totalContributions, totalInterest, breakdown)
    {
      var yearlyInterest;
      var newBalance;
      newBalance, yearlyInterest := AccrueYear(balance, monthlyRate, monthly);
      CompoundYear(HalfEven, principal, monthlyRate, monthly, year, balance,
                   totalContributions, totalInterest, breakdown, newBalance, yearlyInterest);
      balance := newBalance;
      totalContributions := totalContributions + monthly * 12.0;
      totalInterest := totalInterest + yearlyInterest;
      breakdown := breakdown + [GrowthYear(year, PyRound2(balance), PyRound2(totalContributions),
                                           PyRound2(yearlyInterest), PyRound2(totalInterest))];
      year := year + 1;
    }
    assert year - 1 == Span(years);
    res := CompoundResult(PyRound2(balance), PyRound2(totalContributions), PyRound2(totalInterest), breakdown);
  }

  const CompoundKeys: seq<string> := ["principal", "monthly", "rate", "years"]

  /** POST /api/calculate/compound-interest. */
  method CompoundInterestRoute(data: Request) returns (r: Response<CompoundResult>)
    ensures var bad := FirstMalformed(data, CompoundKeys, 0);
            && (bad.Some? ==> r == Failure(NotANumber(bad.value)))
            && (bad.None? ==> r == Success(CompoundReport(HalfEven, NumberOr(data, "principal", 0.0),
                                                          MonthlyRate(NumberOr(data, "rate", 0.0)),
                                                          NumberOr(data, "monthly", 0.0),
                                                          Span(Trunc(NumberOr(data, "years", 0.0))))))
  {
    var principal := FloatField(data, CompoundKeys[0], 0.0);
    ReadStep(data, CompoundKeys, 0, principal, 0.0);
    if principal.Failure? {
      return Failure(principal.error);
    }
    var monthly := FloatField(data, CompoundKeys[1], 0.0);
    ReadStep(data, CompoundKeys, 1, monthly, 0.0);
    if monthly.Failure? {
      return Failure(monthly.error);
    }
    var rate := FloatField(data, CompoundKeys[2], 0.0);
    ReadStep(data, CompoundKeys, 2, rate, 0.0);
    if rate.Failure? {
      return Failure(rate.error);
    }
    var years := IntField(data, CompoundKeys[3], 0);
    ReadIntStep(data, CompoundKeys, 3, years, 0);
    if years.Failure? {
      return Failure(years.error);
    }
    var res := PyCompound(principal.data, monthly.data, rate.data, years.data);
    r := Success(res);
  }

  /** No figure of year y of the breakdown sits on an exact half cent. */
  predicate RowTieFree(principal: real, rate: real, contribution: real, y: nat)
    requires y >= 1
  {
    && !IsTie2(Grow(principal, rate, contribution, 12 * y))
    && !IsTie2(Contributed(principal, contribution, y))
    && !IsTie2(Accrued(Grow(principal, rate, contribution, 12 * (y - 1)), rate, contribution, 12))
    && !IsTie2(Accrued(principal, rate, contribution, 12 * y))
  }

  /** No printed figure of an n-year compound-interest result sits on an exact half cent. */
  predicate CompoundTieFree(principal: real, rate: real, contribution: real, n: nat)
  {
    && !IsTie2(Grow(principal, rate, contribution, 12 * n))
    && !IsTie2(Contributed(principal, contribution, n))
    && !IsTie2(Accrued(principal, rate, contribution, 12 * n))
    && forall y :: 1 <= y <= n ==> RowTieFree(principal, rate, contribution, y)
  }

  lemma {:induction false} GrowthRowsAgree(principal: real, rate: real, contribution: real, n: nat, m: nat)
    requires m <= n && CompoundTieFree(principal, rate, contribution, n)
    ensures GrowthRows(HalfUp, principal, rate, contribution, m) == GrowthRows(HalfEven, principal, rate, contribution, m)
  {
    if m > 0 {
      GrowthRowsAgree(principal, rate, contribution, n, m - 1);
      assert RowTieFree(principal, rate, contribution, m);
      RoundingsAgreeOffTies(Grow(principal, rate, contribution, 12 * m));
      RoundingsAgreeOffTies(Contributed(principal, contribution, m));
      RoundingsAgreeOffTies(Accrued(principal, rate, contribution, 12 * m));
      RoundingsAgreeOffTies(Accrued(Grow(principal, rate, contribution, 12 * (m - 1)), rate, contribution, 12));
    }
  }

  /** When no printed figure, yearly or final, sits on an exact half cent, the Python route and
      the browser calculator return the same result. */
  lemma CompoundEnginesAgree(principal: real, rate: real, contribution: real, n: nat)
    requires CompoundTieFree(principal, rate, contribution, n)
    ensures CompoundReport(HalfUp, principal, rate, contribution, n) == CompoundReport(HalfEven, principal, rate, contribution, n)
  {
    GrowthRowsAgree(principal, rate, contribution, n, n);
    RoundingsAgreeOffTies(Grow(principal, rate, contribution, 12 * n));
    RoundingsAgreeOffTies(Contributed(principal, contribution, n));
    RoundingsAgreeOffTies(Accrued(principal, rate, contribution, 12 * n));
  }

  // ---------------------------------------------------------------------------
  // Loan payoff

  datatype PyLoanMonth = PyLoanMonth(month: int, payment: real, principal: real, interest: real, balance: real)

  datatype PyLoanPlan = PyLoanPlan(totalMonths: int, totalInterest: real, totalPayments: real, schedule: seq<PyLoanMonth>)

  /** What the Python schedule records for month k >= 1. */
  function PyScheduleRow(amount: real, rate: real, payment: real, k: nat): PyLoanMonth
    requires k >= 1
  {
    var b := LoanBalance(amount, rate, payment, k - 1);
    PyLoanMonth(k, PyRound2(PaymentMade(b, rate, payment)), PyRound2(PrincipalPaid(b, rate, payment)),
                PyRound2(Interest(b, rate)), PyRound2(LoanBalance(amount, rate, payment, k)))
  }

  function PySchedule(amount: real, rate: real, payment: real, n: nat): (rows: seq<PyLoanMonth>)
    ensures |rows| == n
    ensures forall i :: 0 <= i < n ==> rows[i] == PyScheduleRow(amount, rate, payment, i + 1)
  {
    if n == 0 then [] else PySchedule(amount, rate, payment, n - 1) + [PyScheduleRow(amount, rate, payment, n)]
  }

  predicate PyAmortized(amount: real, rate: real, payment: real, month: nat, balance: real, totalInterest: real,
                        schedule: seq<PyLoanMonth>)
  {
    && balance == LoanBalance(amount, rate, payment, month)
    && totalInterest == InterestPaid(amount, rate, payment, month)
    && schedule == PySchedule(amount, rate, payment, month)
  }

  /** One pass of the loop body, balance clamped at 0 as the route does, keeps that state. */
  lemma PyLoanMonthStep(amount: real, rate: real, payment: real, month: nat, balance: real, totalInterest: real,
                        schedule: seq<PyLoanMonth>, interest: real, principalPaid: real, paid: real, clamped: real)
    requires PyAmortized(amount, rate, payment, month, balance, totalInterest, schedule)
    requires interest == Interest(balance, rate)
    requires principalPaid == Min(payment - interest, balance)
    requires paid == Min(payment, balance + interest)
    requires clamped == Max(0.0, balance - principalPaid)
    ensures PyAmortized(amount, rate, payment, month + 1, clamped, totalInterest + interest,
                        schedule + [PyLoanMonth(month + 1, PyRound2(paid), PyRound2(principalPaid), PyRound2(interest),
                                                PyRound2(clamped))])
  {
    assert LoanBalance(amount, rate, payment, month + 1) == balance - principalPaid == clamped;
  }

  /** `while balance > 0.01 and month < 600`. */
  method PyAmortize(amount: real, monthlyRate: real, payment: real)
    returns (month: nat, totalInterest: real, schedule: seq<PyLoanMonth>)
    ensures month == PyLoanMonths(amount, monthlyRate, payment)
    ensures totalInterest == InterestPaid(amount, monthlyRate, payment, month)
    ensures schedule == PySchedule(amount, monthlyRate, payment, month)
  {
    schedule := [];
    var balance := amount;
    totalInterest := 0.0;
    month := 0;
    while balance > 0.01 && month < 600
      invariant month <= MaxMonths
      invariant PyAmortized(amount, monthlyRate, payment, month, balance, totalInterest, schedule)
      invariant forall j :: 0 <= j < month ==> LoanBalance(amount, monthlyRate, payment, j) > Residual
      decreases MaxMonths - month
    {
      var interest := Interest(balance, monthlyRate);
      var principalPaid := Min(payment - interest, balance);
      var paid := Min(payment, balance + interest);
      var clamped := Max(0.0, balance - principalPaid);
      PyLoanMonthStep(amount, monthlyRate, payment, month, balance, totalInterest, schedule,
                      interest, principalPaid, paid, clamped);
      month := month + 1;
      balance := clamped;
      totalInterest := totalInterest + interest;
      schedule := schedule + [PyLoanMonth(month, PyRound2(paid), PyRound2(principalPaid), PyRound2(interest),
                                          PyRound2(balance))];
    }
    FirstSettledUnique(amount, monthlyRate, payment, 0, month);
  }

  function PyLoanPlanOf(amount: real, rate: real, payment: real): PyLoanPlan
  {
    var n := PyLoanMonths(amount, rate, payment);
    PyLoanPlan(n, PyRound2(InterestPaid(amount, rate, payment, n)),
               PyRound2(InterestPaid(amount, rate, payment, n) + amount), PySchedule(amount, rate, payment, n))
  }

  /** The loan computation once the fields are read. */
  method PyLoanPayoff(amount: real, rate: real, payment: real) returns (r: Response<PyLoanPlan>)
    ensures r.Failure? <==> payment <= Interest(amount, MonthlyRate(rate))
    ensures r.Failure? ==> r.error == ApiError.PaymentTooLow(Interest(amount, MonthlyRate(rate)))
    ensures r.Success? ==> r.data == PyLoanPlanOf(amount, MonthlyRate(rate), payment)
  {
    var monthlyRate := MonthlyRate(rate);
    var minPayment := Interest(amount, monthlyRate);
    if payment <= minPayment {
      return Failure(ApiError.PaymentTooLow(minPayment));
    }
    var month, totalInterest, schedule := PyAmortize(amount, monthlyRate, payment);
    r := Success(PyLoanPlan(month, PyRound2(totalInterest), PyRound2(totalInterest + amount), schedule));
  }

  const LoanKeys: seq<string> := ["amount", "rate", "payment"]

  /** POST /api/calculate/loan-payoff. */
  method LoanPayoffRoute(data: Request) returns (r: Response<PyLoanPlan>)
    ensures var bad := FirstMalformed(data, LoanKeys, 0);
            var amount, rate, payment := NumberOr(data, "amount", 0.0), NumberOr(data, "rate", 0.0), NumberOr(data, "payment", 0.0);
            && (bad.Some? ==> r == Failure(NotANumber(bad.value)))
            && (bad.None? && payment <= Interest(amount, MonthlyRate(rate)) ==>
                  r == Failure(ApiError.PaymentTooLow(Interest(amount, MonthlyRate(rate)))))
            && (bad.None? && payment > Interest(amount, MonthlyRate(rate)) ==>
                  r == Success(PyLoanPlanOf(amount, MonthlyRate(rate), payment)))
  {
    var amount := FloatField(data, LoanKeys[0], 0.0);
    ReadStep(data, LoanKeys, 0, amount, 0.0);
    if amount.Failure? {
      return Failure(amount.error);
    }
    var rate := FloatField(data, LoanKeys[1], 0.0);
    ReadStep(data, LoanKeys, 1, rate, 0.0);
    if rate.Failure? {
      return Failure(rate.error);
    }
    var payment := FloatField(data, LoanKeys[2], 0.0);
    ReadStep(data, LoanKeys, 2, payment, 0.0);
    if payment.Failure? {
      return Failure(payment.error);
    }
    r := PyLoanPayoff(amount.data, rate.data, payment.data);
  }

  lemma PyRound2NonNegative(x: real)
    requires x >= 0.0
    ensures PyRound2(x) >= 0.0
  {
    assert (x * 100.0).Floor >= 0;
  }

  /** The Python plan: at most 600 months, numbered from 1, every recorded balance
      non-negative, every month but the last ending above the residual and the last at or
      below it (unless the cap was hit), and a month count that is the browser's except on a
      loan of at most 0.01. */
  lemma PyLoanPlanShape(amount: real, rate: real, payment: real)
    ensures var plan := PyLoanPlanOf(amount, rate, payment);
            && plan.totalMonths == |plan.schedule| <= MaxMonths
            && (amount <= Residual ==> plan.schedule == [])
            && (forall i :: 0 <= i < |plan.schedule| ==> plan.schedule[i].month == i + 1)
            && (forall i :: 0 <= i < |plan.schedule| ==> plan.schedule[i].balance >= 0.0)
            && (forall j :: 0 <= j < plan.totalMonths ==> LoanBalance(amount, rate, payment, j) > Residual)
            && (plan.totalMonths < MaxMonths ==> LoanBalance(amount, rate, payment, plan.totalMonths) <= Residual)
            && (amount > Residual ==> plan.totalMonths == JsLoanMonths(amount, rate, payment))
  {
    var plan := PyLoanPlanOf(amount, rate, payment);
    forall i | 0 <= i < |plan.schedule|
      ensures plan.schedule[i].balance >= 0.0
    {
      PyRound2NonNegative(LoanBalance(amount, rate, payment, i + 1));
    }
    LoanMonthsDiverge(amount, rate, payment);
  }

  // ---------------------------------------------------------------------------
  // Retirement

  datatype PyRetirementPlan = PyRetirementPlan(
    retirementCorpus: real, totalContributions: real, totalGrowth: real,
    annualWithdrawal: real, monthlyWithdrawal: real, projection: seq<ProjectionYear>)

  /** The Python retirement result for a saver of a given age and `years` years to go. */
  function PyRetirementOf(age: int, savings: real, rate: real, contribution: real, years: nat, withdrawalRate: real)
    : PyRetirementPlan
  {
    var balance := Grow(savings, rate, contribution, 12 * years);
    var contributed := Contributed(savings, contribution, years);
    var annual := PyRound2(AnnualWithdrawal(balance, withdrawalRate));
    PyRetirementPlan(PyRound2(balance), PyRound2(contributed), PyRound2(balance - contributed),
                     annual, PyRound2(annual / 12.0), ProjectionRows(HalfEven, age, savings, rate, contribution, years))
  }

  /** The retirement computation once the fields are read. */
  method PyRetirement(currentAge: int, retirementAge: int, currentSavings: real, monthlyContribution: real,
                      expectedReturn: real, withdrawalRate: real)
    returns (r: Response<PyRetirementPlan>)
    ensures r.Failure? <==> retirementAge <= currentAge
    ensures r.Failure? ==> r.error == ApiError.AgesOutOfOrder
    ensures r.Success? ==> r.data == PyRetirementOf(currentAge, currentSavings, MonthlyRate(expectedReturn),
                                                    monthlyContribution, retirementAge - currentAge, withdrawalRate)
  {
    var years := retirementAge - currentAge;
    if years <= 0 {
      return Failure(ApiError.AgesOutOfOrder);
    }
    var monthlyRate := MonthlyRate(expectedReturn);
    var projection: seq<ProjectionYear> := [];
    var balance := currentSavings;
    var totalContributions := currentSavings;
    var year := 1;
    while year <= years
      invariant year <= years + 1
      invariant ProjectionBefore(HalfEven, currentAge, currentSavings, monthlyRate, monthlyContribution, year,
                                 balance, totalContributions, projection)
    {
      var yearlyGrowth;
      var newBalance;
      newBalance, yearlyGrowth := AccrueYear(balance, monthlyRate, monthlyContribution);
      ProjectionYearStep(HalfEven, currentAge, currentSavings, monthlyRate, monthlyContribution, year,
                         balance, totalContributions, projection, newBalance, yearlyGrowth);
      balance := newBalance;
      totalContributions := totalContributions + monthlyContribution * 12.0;
      projection := projection + [ProjectionYear(currentAge + year, year, PyRound2(balance),
                                                 PyRound2(totalContributions), PyRound2(yearlyGrowth))];
      year := year + 1;
    }
    assert year - 1 == years;
    var annualWithdrawal := PyRound2(AnnualWithdrawal(balance, withdrawalRate));
    r := Success(PyRetirementPlan(PyRound2(balance), PyRound2(totalContributions),
                                  PyRound2(balance - totalContributions), annualWithdrawal,
                                  PyRound2(annualWithdrawal / 12.0), projection));
  }

  const RetirementKeys: seq<string> :=
    ["currentAge", "retirementAge", "currentSavings", "monthlyContribution", "expectedReturn", "withdrawalRate"]

  /** POST /api/calculate/retirement. */
  method RetirementRoute(data: Request) returns (r: Response<PyRetirementPlan>)
    ensures var bad := FirstMalformed(data, RetirementKeys, 0);
            var age, retire := Trunc(NumberOr(data, "currentAge", 0.0)), Trunc(NumberOr(data, "retirementAge", 0.0));
            && (bad.Some? ==> r == Failure(NotANumber(bad.value)))
            && (bad.None? && retire <= age ==> r == Failure(ApiError.AgesOutOfOrder))
            && (bad.None? && retire > age ==>
                  r == Success(PyRetirementOf(age, NumberOr(data, "currentSavings", 0.0),
                                              MonthlyRate(NumberOr(data, "expectedReturn", 0.0)),
                                              NumberOr(data, "monthlyContribution", 0.0), retire - age,
                                              NumberOr(data, "withdrawalRate", 4.0))))
  {
    var age := IntField(data, RetirementKeys[0], 0);
    ReadIntStep(data, RetirementKeys, 0, age, 0);
    if age.Failure? {
      return Failure(age.error);
    }
    var retire := IntField(data, RetirementKeys[1], 0);
    ReadIntStep(data, RetirementKeys, 1, retire, 0);
    if retire.Failure? {
      return Failure(retire.error);
    }
    var savings := FloatField(data, RetirementKeys[2], 0.0);
    ReadStep(data, RetirementKeys, 2, savings, 0.0);
    if savings.Failure? {
      return Failure(savings.error);
    }
    var contribution := FloatField(data, RetirementKeys[3], 0.0);
    ReadStep(data, RetirementKeys, 3, contribution, 0.0);
    if contribution.Failure? {
      return Failure(contribution.error);
    }
    var expected := FloatField(data, RetirementKeys[4], 0.0);
    ReadStep(data, RetirementKeys, 4, expected, 0.0);
    if expected.Failure? {
      return Failure(expected.error);
    }
    var withdrawal := FloatField(data, RetirementKeys[5], 4.0);
    ReadStep(data, RetirementKeys, 5, withdrawal, 4.0);
    if withdrawal.Failure? {
      return Failure(withdrawal.error);
    }
    r := PyRetirement(age.data, retire.data, savings.data, contribution.data, expected.data, withdrawal.data);
  }

  /** The Python growth figure is exactly the interest credited, rounded once; the browser
      rounds the corpus first and subtracts afterwards. */
  lemma PyGrowthIsInterest(age: int, savings: real, rate: real, contribution: real, years: nat, withdrawalRate: real)
    ensures var plan := PyRetirementOf(age, savings, rate, contribution, years, withdrawalRate);
            plan.totalGrowth == PyRound2(Accrued(savings, rate, contribution, 12 * years))
  {
    var balance := Grow(savings, rate, contribution, 12 * years);
    BalanceIsContributionsPlusInterest(savings, rate, contribution, 12 * years);
    assert (12 * years) as real * contribution == years as real * (contribution * 12.0);
    assert balance - Contributed(savings, contribution, years) == Accrued(savings, rate, contribution, 12 * years);
  }

  /** Rounding before subtracting can move the growth figure by a cent: a corpus of 1.006 with
      0.004 paid in reads 1.01 in the browser and 1.00 in Python. */
  lemma GrowthRoundingOrderMatters()
    ensures JsRound2(JsRound2(1.006) - 0.004) == 1.01
    ensures PyRound2(1.006 - 0.004) == 1.0
  {
    JsRoundUnique(100.6, 101);
    assert JsRound2(1.006) == 1.01;
    PyRoundUnique(100.2, 100);
  }

  // ---------------------------------------------------------------------------
  // Inflation

  /** The inflation report for a value, a yearly rate and a year count the factor allows. */
  function InflationReportOf(rule: RoundingRule, v: real, rate: real, years: int): InflationReport
    requires Defined(rate, years)
  {
    InflationReport(v, Round2(rule, FutureValue(v, rate, years)), Round2(rule, PurchasingPower(v, rate, years)),
                    Round2(rule, CumulativeInflation(rate, years)), InflationRows(rule, v, rate, Span(years)))
  }

  /** The inflation computation once the fields are read: a price factor of 0 (a rate of
      -100%) fails at the first division by it, or at raising 0.0 to a negative power. */
  method PyInflation(currentValue: real, years: int, inflationRate: real) returns (r: Response<InflationReport>)
    ensures r.Failure? <==> !Defined(inflationRate / 100.0, years)
    ensures r.Failure? ==> r.error == DivisionByZero
    ensures r.Success? ==> Defined(inflationRate / 100.0, years) &&
                           r.data == InflationReportOf(HalfEven, currentValue, inflationRate / 100.0, years)
  {
    var rate := inflationRate / 100.0;
    var breakdown: seq<InflationYear> := [];
    var year := 1;
    while year <= years
      invariant 1 <= year && year - 1 <= Span(years)
      invariant year > 1 ==> 1.0 + rate != 0.0
      invariant breakdown == InflationRows(HalfEven, currentValue, rate, year - 1)
    {
      var f := Factor(rate, year);
      if f == 0.0 {
        return Failure(DivisionByZero);
      }
      var futureValue := FutureValue(currentValue, rate, year);
      var purchasingPower := PurchasingPower(currentValue, rate, year);
      breakdown := breakdown + [InflationYear(year, PyRound2(futureValue), PyRound2(purchasingPower),
                                              PyRound2(currentValue - purchasingPower),
                                              PyRound2(CumulativeInflation(rate, year)))];
      assert breakdown == InflationRows(HalfEven, currentValue, rate, year);
      year := year + 1;
    }
    assert year - 1 == Span(years);
    if 1.0 + rate == 0.0 && years < 0 {
      return Failure(DivisionByZero);
    }
    r := Success(InflationReport(currentValue, PyRound2(FutureValue(currentValue, rate, years)),
                                 PyRound2(PurchasingPower(currentValue, rate, years)),
                                 PyRound2(CumulativeInflation(rate, years)), breakdown));
  }

  const InflationKeys: seq<string> := ["currentValue", "years", "inflationRate"]

  /** POST /api/calculate/inflation. */
  method InflationRoute(data: Request) returns (r: Response<InflationReport>)
    ensures var bad := FirstMalformed(data, InflationKeys, 0);
            var v, years, rate := NumberOr(data, "currentValue", 0.0), Trunc(NumberOr(data, "years", 0.0)),
                                  NumberOr(data, "inflationRate", 0.0) / 100.0;
            && (bad.Some? ==> r == Failure(NotANumber(bad.value)))
            && (bad.None? && !Defined(rate, years) ==> r == Failure(DivisionByZero))
            && (bad.None? && Defined(rate, years) ==> r == Success(InflationReportOf(HalfEven, v, rate, years)))
  {
    var v := FloatField(data, InflationKeys[0], 0.0);
    ReadStep(data, InflationKeys, 0, v, 0.0);
    if v.Failure? {
      return Failure(v.error);
    }
    var years := IntField(data, InflationKeys[1], 0);
    ReadIntStep(data, InflationKeys, 1, years, 0);
    if years.Failure? {
      return Failure(years.error);
    }
    var rate := FloatField(data, InflationKeys[2], 0.0);
    ReadStep(data, InflationKeys, 2, rate, 0.0);
    if rate.Failure? {
      return Failure(rate.error);
    }
    r := PyInflation(v.data, years.data, rate.data);
  }
}
