/** The month-by-month loan amortisation that both engines run: each month
    the balance accrues interest, the fixed payment covers that interest and
    as much principal as is left, and the loop stops at a small residual
    balance or after 600 months. */
module Amortization {
  import opened Numbers

  /** The iteration cap of both loan loops (50 years). */
  const MaxMonths: nat := 600

  /** A balance at or below this is treated as paid off. */
  const Residual: real := 0.01

  /** The principal part of a month's payment: never more than the balance. */
  function PrincipalPaid(balance: real, rate: real, payment: real): (p: real)
    ensures p <= balance
    ensures p == balance || p == payment - Interest(balance, rate)
  {
    Min(payment - Interest(balance, rate), balance)
  }

  /** The amount paid in a month: the full payment, or less in the final month. */
  function PaymentMade(balance: real, rate: real, payment: real): (p: real)
    ensures p <= payment && p <= balance + Interest(balance, rate)
    ensures p == payment || p == balance + Interest(balance, rate)
  {
    Min(payment, balance + Interest(balance, rate))
  }

  /** The balance after one month; the principal part cannot overshoot it. */
  function NextBalance(balance: real, rate: real, payment: real): (b: real)
    ensures b >= 0.0
  {
    balance - PrincipalPaid(balance, rate, payment)
  }

  /** The running balance after k months of the loop. */
  function LoanBalance(amount: real, rate: real, payment: real, k: nat): real
  {
    if k == 0 then amount else NextBalance(LoanBalance(amount, rate, payment, k - 1), rate, payment)
  }

  /** The interest charged over the first k months. */
  function InterestPaid(amount: real, rate: real, payment: real, k: nat): real
  {
    if k == 0 then 0.0
    else InterestPaid(amount, rate, payment, k - 1) + Interest(LoanBalance(amount, rate, payment, k - 1), rate)
  }

  /** The fixed payment exceeds the first month's interest (the feasibility guard). */
  predicate Feasible(amount: real, rate: real, payment: real)
  {
    payment > Interest(amount, rate)
  }

  /** The first month m >= k at which the balance is at most the residual, or the cap. */
  function FirstSettled(amount: real, rate: real, payment: real, k: nat): (m: nat)
    requires k <= MaxMonths
    decreases MaxMonths - k
    ensures k <= m <= MaxMonths
    ensures forall j :: k <= j < m ==> LoanBalance(amount, rate, payment, j) > Residual
    ensures m < MaxMonths ==> LoanBalance(amount, rate, payment, m) <= Residual
  {
    if k == MaxMonths || LoanBalance(amount, rate, payment, k) <= Residual then k
    else FirstSettled(amount, rate, payment, k + 1)
  }

  /** Those three facts pin the month down: any m that has them is FirstSettled's. */
  lemma {:induction false} FirstSettledUnique(amount: real, rate: real, payment: real, k: nat, m: nat)
    requires k <= m <= MaxMonths
    requires forall j :: k <= j < m ==> LoanBalance(amount, rate, payment, j) > Residual
    requires m < MaxMonths ==> LoanBalance(amount, rate, payment, m) <= Residual
    ensures FirstSettled(amount, rate, payment, k) == m
    decreases m - k
  {
    if k < m {
      FirstSettledUnique(amount, rate, payment, k + 1, m);
    }
  }

  /** Months the JavaScript loop runs (`while balance > 0`, break once the balance is at most 0.01). */
  function JsLoanMonths(amount: real, rate: real, payment: real): nat
  {
    if amount <= 0.0 then 0 else FirstSettled(amount, rate, payment, 1)
  }

  /** Months the Python loop runs (`while balance > 0.01 and month < 600`). */
  function PyLoanMonths(amount: real, rate: real, payment: real): nat
  {
    FirstSettled(amount, rate, payment, 0)
  }

  /** Every balance the loop produces is non-negative, so clamping it at 0 changes nothing. */
  lemma BalanceNeverNegative(amount: real, rate: real, payment: real, k: nat)
    requires k >= 1
    ensures LoanBalance(amount, rate, payment, k) >= 0.0
    ensures Max(0.0, LoanBalance(amount, rate, payment, k)) == LoanBalance(amount, rate, payment, k)
  {
  }

  /** The two loops disagree only on a feasible loan of at most 0.01: JavaScript
      records one month, Python none. */
  lemma LoanMonthsDiverge(amount: real, rate: real, payment: real)
    ensures Feasible(amount, rate, payment) && 0.0 < amount <= Residual ==>
              JsLoanMonths(amount, rate, payment) == 1 && PyLoanMonths(amount, rate, payment) == 0
    ensures amount > Residual ==> JsLoanMonths(amount, rate, payment) == PyLoanMonths(amount, rate, payment)
    ensures amount <= 0.0 ==> JsLoanMonths(amount, rate, payment) == PyLoanMonths(amount, rate, payment) == 0
  {
    if Feasible(amount, rate, payment) && 0.0 < amount <= Residual {
      assert LoanBalance(amount, rate, payment, 1) < amount;
    } else if amount > Residual {
      var m := FirstSettled(amount, rate, payment, 1);
      FirstSettledUnique(amount, rate, payment, 0, m);
    }
  }

  /** One month of a feasible loan at a non-negative rate lowers a positive balance. */
  lemma MonthLowersBalance(amount: real, b: real, rate: real, payment: real)
    requires rate >= 0.0 && 0.0 <= b <= amount && Feasible(amount, rate, payment)
    ensures 0.0 <= NextBalance(b, rate, payment) <= b
    ensures b > 0.0 ==> NextBalance(b, rate, payment) < b
  {
    assert b * rate <= amount * rate by {
      assert (amount - b) * rate >= 0.0;
    }
  }

  /** With a non-negative rate and a feasible payment the balance falls every month
      until it reaches 0, and never rises above the amount borrowed. */
  lemma {:induction false} BalanceFalls(amount: real, rate: real, payment: real, k: nat)
    requires rate >= 0.0 && amount >= 0.0 && Feasible(amount, rate, payment)
    ensures 0.0 <= LoanBalance(amount, rate, payment, k + 1) <= LoanBalance(amount, rate, payment, k) <= amount
    ensures LoanBalance(amount, rate, payment, k) > 0.0 ==>
              LoanBalance(amount, rate, payment, k + 1) < LoanBalance(amount, rate, payment, k)
  {
    if k > 0 {
      BalanceFalls(amount, rate, payment, k - 1);
    }
    MonthLowersBalance(amount, LoanBalance(amount, rate, payment, k), rate, payment);
  }
}
