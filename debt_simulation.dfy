/** The multi-debt payoff simulation behind the snowball and avalanche plans:
    every month each debt still open accrues interest and receives its minimum
    payment, and the first open debt also receives the extra pool (the extra
    payment plus the minimums of the debts already paid off). */
module DebtSimulation {
  import opened Numbers

  /** A debt as entered: `{name, balance, rate, minPayment}`, rate an annual percentage. */
  datatype Debt = Debt(name: string, balance: real, rate: real, minPayment: real)

  /** A debt being paid down: the entered debt with its running balance and paid-off flag. */
  datatype DebtState = DebtState(debt: Debt, currentBalance: real, paidOff: bool)

  /** One raw timeline record, pushed at the end of every simulated month. */
  datatype TimelineEntry = TimelineEntry(month: int, totalBalance: real, totalInterest: real, debtsRemaining: int)

  /** The iteration cap of the simulation (50 years). */
  const MaxMonths: nat := 600

  /** A debt whose balance ends a month at or below this is paid off. */
  const PaidOffResidual: real := 0.01

  /** `{...d, currentBalance: d.balance, paidOff: false}`. */
  function Start(d: Debt): DebtState
  {
    DebtState(d, d.balance, false)
  }

  function Starts(debts: seq<Debt>): (s: seq<DebtState>)
    ensures |s| == |debts|
    ensures forall i :: 0 <= i < |s| ==> s[i] == Start(debts[i])
  {
    seq(|debts|, i requires 0 <= i < |debts| => Start(debts[i]))
  }

  /** `debts.map(d => d.name)`. */
  function Names(debts: seq<Debt>): (names: seq<string>)
    ensures |names| == |debts|
    ensures forall i :: 0 <= i < |debts| ==> names[i] == debts[i].name
  {
    seq(|debts|, i requires 0 <= i < |debts| => debts[i].name)
  }

  /** `some(d => !d.paidOff)`. */
  predicate AnyUnpaid(s: seq<DebtState>)
  {
    exists i :: 0 <= i < |s| && !s[i].paidOff
  }

  /** `findIndex(d => !d.paidOff)`: the first open debt, or -1. */
  function FirstUnpaid(s: seq<DebtState>): (i: int)
    ensures -1 <= i < |s|
    ensures i >= 0 ==> !s[i].paidOff && forall j :: 0 <= j < i ==> s[j].paidOff
    ensures i == -1 ==> forall j :: 0 <= j < |s| ==> s[j].paidOff
  {
    if s == [] then -1
    else if !s[0].paidOff then 0
    else
      var r := FirstUnpaid(s[1..]);
      if r == -1 then -1 else r + 1
  }

  /** The minimums of the debts already paid off, added in order. */
  function FreedMinimums(s: seq<DebtState>): real
  {
    if s == [] then 0.0
    else FreedMinimums(s[..|s| - 1]) + (if s[|s| - 1].paidOff then s[|s| - 1].debt.minPayment else 0.0)
  }

  /** `reduce((s, d) => s + d.currentBalance, 0)`. */
  function TotalBalance(s: seq<DebtState>): real
  {
    if s == [] then 0.0 else TotalBalance(s[..|s| - 1]) + s[|s| - 1].currentBalance
  }

  /** `filter(d => !d.paidOff).length`. */
  function Remaining(s: seq<DebtState>): (n: nat)
    ensures n <= |s|
  {
    if s == [] then 0 else Remaining(s[..|s| - 1]) + (if s[|s| - 1].paidOff then 0 else 1)
  }

  /** What one debt's month produces: its new state, the interest it accrued and what was paid on it. */
  datatype Settlement = Settlement(state: DebtState, interest: real, paid: real)

  /** One open debt's month: interest at rate/100/12 on the current balance, then its minimum
      (plus the pool when it is the target), never more than balance plus interest; a balance
      left at or below 0.01 marks the debt paid off. */
  function SettleDebt(d: DebtState, isTarget: bool, pool: real): (r: Settlement)
    requires !d.paidOff
  {
    var interest := Interest(d.currentBalance, MonthlyRate(d.debt.rate));
    var payment := Min(if isTarget then d.debt.minPayment + pool else d.debt.minPayment, d.currentBalance + interest);
    var balance := Max(0.0, d.currentBalance - (payment - interest));
    if balance <= PaidOffResidual then Settlement(d.(currentBalance := 0.0, paidOff := true), interest, payment)
    else Settlement(d.(currentBalance := balance), interest, payment)
  }

  /** A debt's month never pays more than is owed or offered, never leaves a negative balance,
      and leaves either a paid-off debt at 0 or an open one above the residual. */
  lemma SettleDebtFacts(d: DebtState, isTarget: bool, pool: real)
    requires !d.paidOff
    ensures var r := SettleDebt(d, isTarget, pool);
            && (r.state.debt == d.debt)
            && (r.interest == Interest(d.currentBalance, MonthlyRate(d.debt.rate)))
            && (r.paid <= d.currentBalance + r.interest)
            && (r.paid <= (if isTarget then d.debt.minPayment + pool else d.debt.minPayment))
            && (r.state.currentBalance >= 0.0)
            && (r.state.paidOff <==> r.state.currentBalance == 0.0)
            && (!r.state.paidOff ==> r.state.currentBalance == d.currentBalance - (r.paid - r.interest) > PaidOffResidual)
  {
  }

  /** The debts after a month, with the month's interest and payments. */
  datatype MonthTally = MonthTally(debts: seq<DebtState>, interest: real, paid: real)

  /** The rest of a month's pass over the debts, from index i on, with the interest and
      payments summed so far. The target is looked up afresh at every open debt, so once
      the target is paid off the next open debt receives the whole pool in the same month. */
  function SettleFrom(s: seq<DebtState>, pool: real, i: nat, interest: real, paid: real): MonthTally
    requires i <= |s|
    decreases |s| - i
  {
    if i == |s| then MonthTally(s, interest, paid)
    else if s[i].paidOff then SettleFrom(s, pool, i + 1, interest, paid)
    else
      var r := SettleDebt(s[i], i == FirstUnpaid(s), pool);
      SettleFrom(s[i := r.state], pool, i + 1, interest + r.interest, paid + r.paid)
  }

  /** A whole month of the simulation, starting from the debts as they stand. */
  function SettleMonth(s: seq<DebtState>, extra: real): MonthTally
  {
    SettleFrom(s, extra + FreedMinimums(s), 0, 0.0, 0.0)
  }

  /** The timeline record of a month. */
  function MonthEntry(month: int, s: seq<DebtState>, totalInterest: real): TimelineEntry
  {
    TimelineEntry(month, JsRound2(TotalBalance(s)), JsRound2(totalInterest), Remaining(s))
  }

  /** Where the month loop ends. */
  datatype Outcome = Outcome(debts: seq<DebtState>, months: nat, totalInterest: real, totalPaid: real,
                             timeline: seq<TimelineEntry>)

  /** The rest of the month loop `while (activeDebts.some(d => !d.paidOff) && month < 600)`
      from the given state. */
  function Run(extra: real, s: seq<DebtState>, month: nat, totalInterest: real, totalPaid: real,
               timeline: seq<TimelineEntry>): Outcome
    requires month <= MaxMonths
    decreases MaxMonths - month
  {
    if !AnyUnpaid(s) || month >= MaxMonths then Outcome(s, month, totalInterest, totalPaid, timeline)
    else
      var t := SettleMonth(s, extra);
      Run(extra, t.debts, month + 1, totalInterest + t.interest, totalPaid + t.paid,
          timeline + [MonthEntry(month + 1, t.debts, totalInterest + t.interest)])
  }

  /** The whole simulation of a debt list in a given order. */
  function Simulated(debts: seq<Debt>, extra: real): Outcome
  {
    Run(extra, Starts(debts), 0, 0.0, 0.0, [])
  }

  /** What `simulatePayoff` returns (before its timeline is resampled). */
  datatype Payoff = Payoff(totalMonths: int, totalYears: real, totalInterest: real, totalPaid: real,
                           rawTimeline: seq<TimelineEntry>, payoffOrder: seq<string>)

  function PayoffOf(debts: seq<Debt>, extra: real): Payoff
  {
    var o := Simulated(debts, extra);
    Payoff(o.months, JsYears(o.months), JsRound2(o.totalInterest), JsRound2(o.totalPaid),
           o.timeline, Names(debts))
  }

  // ---------------------------------------------------------------------------
  // The loops

  /** `let extra = extraPayment; activeDebts.forEach(d => { if (d.paidOff) extra += d.minPayment; })`. */
  method PooledExtra(activeDebts: array<DebtState>, extraPayment: real) returns (extra: real)
    ensures extra == extraPayment + FreedMinimums(activeDebts[..])
  {
    extra := extraPayment;
    var i := 0;
    while i < activeDebts.Length
      invariant 0 <= i <= activeDebts.Length
      invariant extra == extraPayment + FreedMinimums(activeDebts[..i])
    {
      assert activeDebts[..i + 1][..i] == activeDebts[..i];
      if activeDebts[i].paidOff {
        extra := extra + activeDebts[i].debt.minPayment;
      }
      i := i + 1;
    }
    assert activeDebts[..i] == activeDebts[..];
  }

  /** The per-debt loop body computes exactly SettleDebt. */
  lemma SettleDebtIs(d: DebtState, isTarget: bool, pool: real, interest: real, payment: real, updated: DebtState)
    requires !d.paidOff
    requires interest == Interest(d.currentBalance, MonthlyRate(d.debt.rate))
    requires payment == Min(if isTarget then d.debt.minPayment + pool else d.debt.minPayment, d.currentBalance + interest)
    requires var b := Max(0.0, d.currentBalance - (payment - interest));
             updated == if b <= PaidOffResidual then d.(currentBalance := 0.0, paidOff := true) else d.(currentBalance := b)
    ensures SettleDebt(d, isTarget, pool) == Settlement(updated, interest, payment)
  {
  }

  /** One open debt's pass of the per-debt loop keeps the rest of the month unchanged. */
  lemma SettleStep(s: seq<DebtState>, pool: real, i: nat, interest: real, paid: real, isTarget: bool, r: Settlement)
    requires i < |s| && !s[i].paidOff
    requires isTarget == (i == FirstUnpaid(s))
    requires r == SettleDebt(s[i], isTarget, pool)
    ensures SettleFrom(s, pool, i, interest, paid) == SettleFrom(s[i := r.state], pool, i + 1, interest + r.interest, paid + r.paid)
  {
  }

  /** The per-debt loop of one month, updating the debt records in place. */
  method SettleDebts(activeDebts: array<DebtState>, extra: real) returns (monthInterest: real, monthPaid: real)
    modifies activeDebts
    ensures MonthTally(activeDebts[..], monthInterest, monthPaid) == SettleFrom(old(activeDebts[..]), extra, 0, 0.0, 0.0)
  {
    monthInterest, monthPaid := 0.0, 0.0;
    var idx := 0;
    while idx < activeDebts.Length
      invariant 0 <= idx <= activeDebts.Length
      invariant SettleFrom(activeDebts[..], extra, idx, monthInterest, monthPaid) == SettleFrom(old(activeDebts[..]), extra, 0, 0.0, 0.0)
    {
      if !activeDebts[idx].paidOff {
        ghost var before, interestBefore, paidBefore := activeDebts[..], monthInterest, monthPaid;
        var debt := activeDebts[idx];
        var interest := Interest(debt.currentBalance, MonthlyRate(debt.debt.rate));
        monthInterest := monthInterest + interest;
        var payment := debt.debt.minPayment;
        var isTarget := idx == FirstUnpaid(activeDebts[..]);
        if isTarget {
          payment := payment + extra;
        }
        payment := Min(payment, debt.currentBalance + interest);
        var principal := payment - interest;
        var updated := debt.(currentBalance := Max(0.0, debt.currentBalance - principal));
        monthPaid := monthPaid + payment;
        if updated.currentBalance <= 0.01 {
          updated := updated.(paidOff := true, currentBalance := 0.0);
        }
        activeDebts[idx] := updated;
        SettleDebtIs(debt, isTarget, extra, interest, payment, updated);
        SettleStep(before, extra, idx, interestBefore, paidBefore, isTarget, Settlement(updated, interest, payment));
        assert activeDebts[..] == before[idx := updated];
        assert SettleFrom(activeDebts[..], extra, idx + 1, monthInterest, monthPaid) == SettleFrom(old(activeDebts[..]), extra, 0, 0.0, 0.0);
      }
      idx := idx + 1;
    }
  }

  /** The body of the month loop, up to the timeline record: pool the extra, then pay every open debt. */
  method SimulateMonth(activeDebts: array<DebtState>, extraPayment: real) returns (monthInterest: real, monthPaid: real)
    modifies activeDebts
    ensures MonthTally(activeDebts[..], monthInterest, monthPaid) == SettleMonth(old(activeDebts[..]), extraPayment)
  {
    var extra := PooledExtra(activeDebts, extraPayment);
    monthInterest, monthPaid := SettleDebts(activeDebts, extra);
  }

  /** One pass of the month loop, in the loop's own terms. */
  lemma RunStep(extra: real, s: seq<DebtState>, month: nat, totalInterest: real, totalPaid: real,
                timeline: seq<TimelineEntry>, after: seq<DebtState>, monthInterest: real, monthPaid: real)
    requires month < MaxMonths && AnyUnpaid(s)
    requires MonthTally(after, monthInterest, monthPaid) == SettleMonth(s, extra)
    ensures Run(extra, s, month, totalInterest, totalPaid, timeline)
         == Run(extra, after, month + 1, totalInterest + monthInterest, totalPaid + monthPaid,
                timeline + [TimelineEntry(month + 1, JsRound2(TotalBalance(after)), JsRound2(totalInterest + monthInterest),
                                          Remaining(after))])
  {
  }

  /** The month loop has nothing left to do once every debt is paid off or the cap is reached. */
  lemma RunDone(extra: real, s: seq<DebtState>, month: nat, totalInterest: real, totalPaid: real,
                timeline: seq<TimelineEntry>)
    requires month <= MaxMonths && (!AnyUnpaid(s) || month == MaxMonths)
    ensures Run(extra, s, month, totalInterest, totalPaid, timeline) == Outcome(s, month, totalInterest, totalPaid, timeline)
  {
  }

  /** `simulatePayoff(debts, extraPayment)`: the month loop over the debt records. */
  method SimulatePayoff(debts: seq<Debt>, extraPayment: real) returns (p: Payoff)
    ensures p == PayoffOf(debts, extraPayment)
  {
    var activeDebts := new DebtState[|debts|](i requires 0 <= i < |debts| => Start(debts[i]));
    assert activeDebts[..] == Starts(debts);
    var month: nat := 0;
    var totalInterest, totalPaid := 0.0, 0.0;
    var rawTimeline: seq<TimelineEntry> := [];
    ghost var goal := Run(extraPayment, activeDebts[..], month, totalInterest, totalPaid, rawTimeline);
    while AnyUnpaid(activeDebts[..]) && month < 600
      invariant month <= MaxMonths
      invariant Run(extraPayment, activeDebts[..], month, totalInterest, totalPaid, rawTimeline) == goal
      decreases MaxMonths - month
    {
      ghost var before := activeDebts[..];
      var monthInterest, monthPaid := SimulateMonth(activeDebts, extraPayment);
      RunStep(extraPayment, before, month, totalInterest, totalPaid, rawTimeline, activeDebts[..], monthInterest, monthPaid);
      month := month + 1;
      totalInterest := totalInterest + monthInterest;
      totalPaid := totalPaid + monthPaid;
      rawTimeline := rawTimeline + [TimelineEntry(month, JsRound2(TotalBalance(activeDebts[..])), JsRound2(totalInterest),
                                                  Remaining(activeDebts[..]))];
    }
    RunDone(extraPayment, activeDebts[..], month, totalInterest, totalPaid, rawTimeline);
    p := Payoff(month, JsYears(month), JsRound2(totalInterest), JsRound2(totalPaid), rawTimeline, Names(debts));
  }
}

/** What the simulation promises: a bounded month count, a timeline numbered 1..months,
    balances that stay non-negative, paid-off debts that stay paid off at balance 0, and
    the pool reaching a second debt in the month the first is cleared. */
module DebtSimulationFacts {
  import opened Numbers
  import opened DebtSimulation

  /** Every paid-off debt has balance 0. */
  predicate Tidy(s: seq<DebtState>)
  {
    forall j :: 0 <= j < |s| ==> s[j].paidOff ==> s[j].currentBalance == 0.0
  }

  /** A debt that has been through a month: non-negative, and at balance 0 exactly when paid off. */
  predicate Sound(d: DebtState)
  {
    d.currentBalance >= 0.0 && (d.paidOff <==> d.currentBalance == 0.0)
  }

  /** r is s after a pass over the debts from index i on: same debts, the ones before i and
      the paid-off ones untouched, and the ones from i on sound. */
  predicate KeptFrom(s: seq<DebtState>, r: seq<DebtState>, i: nat)
  {
    && |r| == |s|
    && forall j :: 0 <= j < |s| ==>
         && r[j].debt == s[j].debt
         && (j < i || s[j].paidOff ==> r[j] == s[j])
         && (i <= j ==> Sound(r[j]))
  }

  /** The per-debt pass leaves the debts already visited and the paid-off ones alone,
      and leaves every debt it visits sound. */
  lemma {:induction false} SettleFromKeeps(s: seq<DebtState>, pool: real, i: nat, interest: real, paid: real)
    requires i <= |s| && Tidy(s)
    decreases |s| - i
    ensures KeptFrom(s, SettleFrom(s, pool, i, interest, paid).debts, i)
  {
    if i < |s| {
      if s[i].paidOff {
        SettleFromKeeps(s, pool, i + 1, interest, paid);
      } else {
        var st := SettleDebt(s[i], i == FirstUnpaid(s), pool);
        SettleDebtFacts(s[i], i == FirstUnpaid(s), pool);
        var s' := s[i := st.state];
        assert Tidy(s');
        SettleFromKeeps(s', pool, i + 1, interest + st.interest, paid + st.paid);
        var r := SettleFrom(s', pool, i + 1, interest + st.interest, paid + st.paid).debts;
        assert r == SettleFrom(s, pool, i, interest, paid).debts;
        forall j | 0 <= j < |s|
          ensures r[j].debt == s[j].debt
          ensures j < i || s[j].paidOff ==> r[j] == s[j]
          ensures i <= j ==> Sound(r[j])
        {
          if j == i {
            assert r[j] == s'[j];
          }
        }
      }
    }
  }

  /** After a month every debt is sound, and nothing paid off has changed. */
  lemma SettleMonthKeeps(s: seq<DebtState>, extra: real)
    requires Tidy(s)
    ensures var r := SettleMonth(s, extra).debts;
            && |r| == |s|
            && (forall j :: 0 <= j < |s| ==> r[j].debt == s[j].debt)
            && (forall j :: 0 <= j < |s| && s[j].paidOff ==> r[j] == s[j])
            && (forall j :: 0 <= j < |s| ==> Sound(r[j]))
            && Tidy(r)
  {
    SettleFromKeeps(s, extra + FreedMinimums(s), 0, 0.0, 0.0);
    var r := SettleMonth(s, extra).debts;
    assert forall j :: 0 <= j < |s| ==> Sound(r[j]);
  }

  lemma {:induction false} TotalBalanceNonNegative(s: seq<DebtState>)
    requires forall j :: 0 <= j < |s| ==> s[j].currentBalance >= 0.0
    ensures TotalBalance(s) >= 0.0
  {
    if s != [] {
      TotalBalanceNonNegative(s[..|s| - 1]);
    }
  }

  /** Debts that stay paid off can only lower the count of open debts. */
  lemma {:induction false} RemainingSticky(s: seq<DebtState>, r: seq<DebtState>)
    requires |r| == |s|
    requires forall j :: 0 <= j < |s| && s[j].paidOff ==> r[j].paidOff
    ensures Remaining(r) <= Remaining(s)
  {
    if s != [] {
      RemainingSticky(s[..|s| - 1], r[..|r| - 1]);
    }
  }

  /** The month loop runs at most 600 months, stops early only when every debt is paid off,
      and records one timeline entry per month, numbered from 1. */
  lemma {:induction false} RunShape(extra: real, s: seq<DebtState>, month: nat, totalInterest: real, totalPaid: real,
                                    timeline: seq<TimelineEntry>)
    requires month <= MaxMonths && |timeline| == month
    requires forall i :: 0 <= i < month ==> timeline[i].month == i + 1
    decreases MaxMonths - month
    ensures var o := Run(extra, s, month, totalInterest, totalPaid, timeline);
            && month <= o.months <= MaxMonths
            && |o.timeline| == o.months
            && o.timeline[..month] == timeline
            && (forall i :: 0 <= i < o.months ==> o.timeline[i].month == i + 1)
            && (o.months < MaxMonths ==> !AnyUnpaid(o.debts))
            && (AnyUnpaid(s) && month < MaxMonths ==> o.months > month)
  {
    if AnyUnpaid(s) && month < MaxMonths {
      var t := SettleMonth(s, extra);
      var timeline' := timeline + [MonthEntry(month + 1, t.debts, totalInterest + t.interest)];
      RunShape(extra, t.debts, month + 1, totalInterest + t.interest, totalPaid + t.paid, timeline');
      var o := Run(extra, t.debts, month + 1, totalInterest + t.interest, totalPaid + t.paid, timeline');
      assert o.timeline[..month] == o.timeline[..month + 1][..month];
    }
  }

  /** From any state the month loop can reach, the debts keep their identity, paid-off debts
      stay as they are, and every debt a month has passed over is sound. */
  lemma {:induction false} RunKeepsDebts(extra: real, s: seq<DebtState>, month: nat, totalInterest: real, totalPaid: real,
                                         timeline: seq<TimelineEntry>)
    requires month <= MaxMonths && |timeline| == month && Tidy(s)
    decreases MaxMonths - month
    ensures var o := Run(extra, s, month, totalInterest, totalPaid, timeline);
            && |o.timeline| >= month
            && (|o.timeline| == month ==> o.debts == s)
            && |o.debts| == |s|
            && (forall j :: 0 <= j < |s| ==> o.debts[j].debt == s[j].debt)
            && (forall j :: 0 <= j < |s| && s[j].paidOff ==> o.debts[j] == s[j])
            && (|o.timeline| > month ==> forall j :: 0 <= j < |s| ==> Sound(o.debts[j]))
  {
    if AnyUnpaid(s) && month < MaxMonths {
      var t := SettleMonth(s, extra);
      SettleMonthKeeps(s, extra);
      var entry := MonthEntry(month + 1, t.debts, totalInterest + t.interest);
      RunKeepsDebts(extra, t.debts, month + 1, totalInterest + t.interest, totalPaid + t.paid, timeline + [entry]);
    }
  }

  /** From any state the month loop can reach, every recorded total balance is non-negative
      and the count of open debts never rises. */
  lemma {:induction false} RunTimeline(extra: real, s: seq<DebtState>, month: nat, totalInterest: real, totalPaid: real,
                                       timeline: seq<TimelineEntry>)
    requires month <= MaxMonths && |timeline| == month && Tidy(s)
    decreases MaxMonths - month
    ensures var o := Run(extra, s, month, totalInterest, totalPaid, timeline);
            && |o.timeline| >= month
            && o.timeline[..month] == timeline
            && (forall i :: month <= i < |o.timeline| ==> o.timeline[i].totalBalance >= 0.0)
            && (forall i :: month <= i < |o.timeline| ==> 0 <= o.timeline[i].debtsRemaining <= Remaining(s))
            && (forall i :: month <= i && i + 1 < |o.timeline| ==> o.timeline[i + 1].debtsRemaining <= o.timeline[i].debtsRemaining)
  {
    if AnyUnpaid(s) && month < MaxMonths {
      var t := SettleMonth(s, extra);
      SettleMonthKeeps(s, extra);
      RemainingSticky(s, t.debts);
      TotalBalanceNonNegative(t.debts);
      JsRound2NonNegative(TotalBalance(t.debts));
      var entry := MonthEntry(month + 1, t.debts, totalInterest + t.interest);
      assert entry.totalBalance >= 0.0 && 0 <= entry.debtsRemaining <= Remaining(s);
      RunTimeline(extra, t.debts, month + 1, totalInterest + t.interest, totalPaid + t.paid, timeline + [entry]);
      var o := Run(extra, t.debts, month + 1, totalInterest + t.interest, totalPaid + t.paid, timeline + [entry]);
      assert o == Run(extra, s, month, totalInterest, totalPaid, timeline);
      assert o.timeline[..month + 1] == timeline + [entry];
      assert o.timeline[..month] == timeline;
      assert o.timeline[month] == entry;
    }
  }

  lemma {:induction false} RemainingAllOpen(s: seq<DebtState>)
    requires forall j :: 0 <= j < |s| ==> !s[j].paidOff
    ensures Remaining(s) == |s|
  {
    if s != [] {
      RemainingAllOpen(s[..|s| - 1]);
    }
  }

  /** A whole simulation: at most 600 months and at least one when there is a debt, one timeline
      entry per month numbered from 1, every debt paid off unless the cap was hit, every final
      balance sound, the recorded total balance never negative and the open-debt count never rising. */
  lemma SimulationShape(debts: seq<Debt>, extra: real)
    ensures var o := Simulated(debts, extra);
            && o.months <= MaxMonths
            && |o.timeline| == o.months
            && (forall i :: 0 <= i < o.months ==> o.timeline[i].month == i + 1)
            && (|debts| > 0 <==> o.months >= 1)
            && |o.debts| == |debts|
            && (forall j :: 0 <= j < |debts| ==> o.debts[j].debt == debts[j])
            && (o.months < MaxMonths ==> forall j :: 0 <= j < |debts| ==> o.debts[j].paidOff)
            && (o.months >= 1 ==> forall j :: 0 <= j < |debts| ==> Sound(o.debts[j]))
            && (forall i :: 0 <= i < o.months ==> o.timeline[i].totalBalance >= 0.0)
            && (forall i :: 0 <= i < o.months ==> 0 <= o.timeline[i].debtsRemaining <= |debts|)
            && (forall i :: 0 <= i && i + 1 < o.months ==> o.timeline[i + 1].debtsRemaining <= o.timeline[i].debtsRemaining)
  {
    var s := Starts(debts);
    RemainingAllOpen(s);
    if |debts| > 0 {
      assert !s[0].paidOff;
    }
    RunShape(extra, s, 0, 0.0, 0.0, []);
    RunKeepsDebts(extra, s, 0, 0.0, 0.0, []);
    RunTimeline(extra, s, 0, 0.0, 0.0, []);
  }

  lemma {:induction false} TotalBalanceZero(s: seq<DebtState>)
    requires forall j :: 0 <= j < |s| ==> s[j].currentBalance == 0.0
    ensures TotalBalance(s) == 0.0
  {
    if s != [] {
      TotalBalanceZero(s[..|s| - 1]);
    }
  }

  lemma {:induction false} RemainingNone(s: seq<DebtState>)
    requires forall j :: 0 <= j < |s| ==> s[j].paidOff
    ensures Remaining(s) == 0
  {
    if s != [] {
      RemainingNone(s[..|s| - 1]);
    }
  }

  /** The last recorded entry describes the final state: once a month has run, the final
      timeline entry is the one written for the debts and interest the loop ends with. */
  lemma {:induction false} RunLast(extra: real, s: seq<DebtState>, month: nat, totalInterest: real, totalPaid: real,
                                   timeline: seq<TimelineEntry>)
    requires month <= MaxMonths && |timeline| == month
    decreases MaxMonths - month
    ensures var o := Run(extra, s, month, totalInterest, totalPaid, timeline);
            && month <= o.months && |o.timeline| == o.months
            && (o.months == month ==> o == Outcome(s, month, totalInterest, totalPaid, timeline))
            && (o.months > month ==> o.timeline[o.months - 1] == MonthEntry(o.months, o.debts, o.totalInterest))
  {
    if AnyUnpaid(s) && month < MaxMonths {
      var t := SettleMonth(s, extra);
      var entry := MonthEntry(month + 1, t.debts, totalInterest + t.interest);
      RunLast(extra, t.debts, month + 1, totalInterest + t.interest, totalPaid + t.paid, timeline + [entry]);
    }
  }

  /** A simulation that ends before the 600-month cap records, in its last month, a zero total
      balance and no open debt. */
  lemma SimulationEnds(debts: seq<Debt>, extra: real)
    ensures var o := Simulated(debts, extra);
            var last := |o.timeline| - 1;
            o.months < MaxMonths && last >= 0 ==>
              o.timeline[last].totalBalance == 0.0 && o.timeline[last].debtsRemaining == 0
  {
    var o := Simulated(debts, extra);
    RunLast(extra, Starts(debts), 0, 0.0, 0.0, []);
    SimulationShape(debts, extra);
    if o.months < MaxMonths && |o.timeline| >= 1 {
      TotalBalanceZero(o.debts);
      RemainingNone(o.debts);
    }
  }

  /** The first open debt is found by its position. */
  lemma FirstUnpaidIs(s: seq<DebtState>, j: nat)
    requires j < |s| && !s[j].paidOff
    requires forall k :: 0 <= k < j ==> s[k].paidOff
    ensures FirstUnpaid(s) == j
  {
  }

  /** The pass steps over paid-off debts without changing anything. */
  lemma {:induction false} SkipPaidOff(s: seq<DebtState>, pool: real, k: nat, j: nat, interest: real, paid: real)
    requires k <= j <= |s|
    requires forall m :: k <= m < j ==> s[m].paidOff
    decreases j - k
    ensures SettleFrom(s, pool, k, interest, paid) == SettleFrom(s, pool, j, interest, paid)
  {
    if k < j {
      SkipPaidOff(s, pool, k + 1, j, interest, paid);
    }
  }

  /** The target is looked up afresh at every debt, so when the month's payment clears the
      target, the next open debt becomes the target in the same pass: it is offered its
      minimum plus the whole pool again, although the pool was already paid towards the
      debt just cleared. */
  lemma PoolPassesOn(s: seq<DebtState>, pool: real, j: nat, interest: real, paid: real)
    requires 0 <= FirstUnpaid(s) < j < |s|
    requires SettleDebt(s[FirstUnpaid(s)], true, pool).state.paidOff
    requires !s[j].paidOff && forall k :: FirstUnpaid(s) < k < j ==> s[k].paidOff
    ensures var i := FirstUnpaid(s);
            var r := SettleDebt(s[i], true, pool);
            var q := SettleDebt(s[j], true, pool);
            SettleFrom(s, pool, i, interest, paid)
            == SettleFrom(s[i := r.state][j := q.state], pool, j + 1,
                          interest + r.interest + q.interest, paid + r.paid + q.paid)
  {
    var i := FirstUnpaid(s);
    var r := SettleDebt(s[i], true, pool);
    var s1 := s[i := r.state];
    assert SettleFrom(s, pool, i, interest, paid) == SettleFrom(s1, pool, i + 1, interest + r.interest, paid + r.paid);
    SkipPaidOff(s1, pool, i + 1, j, interest + r.interest, paid + r.paid);
    FirstUnpaidIs(s1, j);
    assert s1[j] == s[j];
  }

  /** The pool is not used up: with debts of 10 and 100 at 0%, minimums of 5 and an extra 50,
      the first month clears the first debt and still pays the second its minimum plus the
      whole 50, leaving 45. */
  lemma PoolReachesNextDebtInSameMonth()
    ensures var s := Starts([Debt("A", 10.0, 0.0, 5.0), Debt("B", 100.0, 0.0, 5.0)]);
            var t := SettleMonth(s, 50.0);
            && |t.debts| == 2
            && t.debts[0].paidOff
            && t.debts[1].currentBalance == 45.0
            && t.paid == 65.0
  {
    var a, b := Debt("A", 10.0, 0.0, 5.0), Debt("B", 100.0, 0.0, 5.0);
    var s := Starts([a, b]);
    assert s == [Start(a), Start(b)];
    assert FreedMinimums(s) == 0.0 by {
      assert s[..|s| - 1] == [Start(a)];
      assert [Start(a)][..0] == [];
      assert FreedMinimums([Start(a)]) == 0.0;
    }
    assert FirstUnpaid(s) == 0;
    var r0 := SettleDebt(s[0], true, 50.0);
    assert r0 == Settlement(DebtState(a, 0.0, true), 0.0, 10.0);
    var s1 := s[0 := r0.state];
    assert FirstUnpaid(s1) == 1 by {
      assert s1[1..] == [Start(b)];
    }
    var r1 := SettleDebt(s1[1], true, 50.0);
    assert r1 == Settlement(DebtState(b, 45.0, false), 0.0, 55.0);
    var s2 := s1[1 := r1.state];
    assert SettleFrom(s, 50.0, 0, 0.0, 0.0) == SettleFrom(s1, 50.0, 1, 0.0, 10.0);
    assert SettleFrom(s1, 50.0, 1, 0.0, 10.0) == SettleFrom(s2, 50.0, 2, 0.0, 65.0);
  }
}
