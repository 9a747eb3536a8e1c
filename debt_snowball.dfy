/** `calculateDebtSnowball`: the snowball order (smallest balance first), the avalanche order
    (highest rate first) and a minimum-payments-only baseline, each simulated month by month,
    resampled onto one shared list of month checkpoints and compared with the baseline. */
module DebtSnowball {
  import opened Numbers
  import opened Calculations
  import opened DebtSimulation
  import opened DebtSimulationFacts
  import opened DebtOrdering
  import opened TimelineSampling

  /** One strategy's result once its raw timeline has been replaced by the resampled one. */
  datatype Strategy = Strategy(totalMonths: int, totalYears: real, totalInterest: real, totalPaid: real,
                               timeline: seq<TimelineEntry>, payoffOrder: seq<string>)

  datatype DebtPlan = DebtPlan(
    snowball: Strategy, avalanche: Strategy, minimumOnly: Strategy,
    interestSavedSnowball: real, interestSavedAvalanche: real,
    timeSavedSnowball: int, timeSavedAvalanche: int)

  /** The extra payment parameter defaults to 0 when it is left out. */
  function ExtraOrDefault(extraPayment: Option<real>): real
  {
    match extraPayment
    case None => 0.0
    case Some(x) => x
  }

  function StrategyOf(p: Payoff, checkpoints: seq<int>): Strategy
  {
    Strategy(p.totalMonths, p.totalYears, p.totalInterest, p.totalPaid,
             Resampled(p.rawTimeline, checkpoints), p.payoffOrder)
  }

  /** Three simulated plans, resampled onto their shared checkpoints, and the savings of the
      first two against the third. */
  function PlanFrom(snowball: Payoff, avalanche: Payoff, minimum: Payoff): DebtPlan
  {
    var checkpoints := CheckpointList(snowball.totalMonths, avalanche.totalMonths, minimum.totalMonths);
    DebtPlan(StrategyOf(snowball, checkpoints), StrategyOf(avalanche, checkpoints), StrategyOf(minimum, checkpoints),
             JsRound2(minimum.totalInterest - snowball.totalInterest),
             JsRound2(minimum.totalInterest - avalanche.totalInterest),
             minimum.totalMonths - snowball.totalMonths,
             minimum.totalMonths - avalanche.totalMonths)
  }

  /** The snowball order and the avalanche order with the extra payment, and the entered order
      with none. */
  function DebtPlanOf(debts: seq<Debt>, extra: real): DebtPlan
  {
    PlanFrom(PayoffOf(SortDebts(ByBalance, debts), extra), PayoffOf(SortDebts(ByRateDescending, debts), extra),
             PayoffOf(debts, 0.0))
  }

  /** A missing or empty debt list is refused; otherwise the three plans are computed. */
  method CalculateDebtSnowball(debts: Option<seq<Debt>>, extraPayment: Option<real>) returns (res: Result<DebtPlan>)
    ensures res.Err? <==> debts.None? || debts.value == []
    ensures res.Err? ==> res.error == NoDebts
    ensures res.Ok? ==> res.value == DebtPlanOf(debts.value, ExtraOrDefault(extraPayment))
  {
    if debts.None? || |debts.value| == 0 {
      return Err(NoDebts);
    }
    var list := debts.value;
    var extra := ExtraOrDefault(extraPayment);
    var snowball := SimulatePayoff(SortDebts(ByBalance, list), extra);
    var avalanche := SimulatePayoff(SortDebts(ByRateDescending, list), extra);
    var minimum := SimulatePayoff(list, 0.0);
    var checkpoints := Checkpoints(snowball.totalMonths, avalanche.totalMonths, minimum.totalMonths);
    var snowballTimeline := SampleTimeline(snowball.rawTimeline, checkpoints);
    var avalancheTimeline := SampleTimeline(avalanche.rawTimeline, checkpoints);
    var minimumTimeline := SampleTimeline(minimum.rawTimeline, checkpoints);
    var plan := DebtPlan(
      Strategy(snowball.totalMonths, snowball.totalYears, snowball.totalInterest, snowball.totalPaid,
               snowballTimeline, snowball.payoffOrder),
      Strategy(avalanche.totalMonths, avalanche.totalYears, avalanche.totalInterest, avalanche.totalPaid,
               avalancheTimeline, avalanche.payoffOrder),
      Strategy(minimum.totalMonths, minimum.totalYears, minimum.totalInterest, minimum.totalPaid,
               minimumTimeline, minimum.payoffOrder),
      JsRound2(minimum.totalInterest - snowball.totalInterest),
      JsRound2(minimum.totalInterest - avalanche.totalInterest),
      minimum.totalMonths - snowball.totalMonths,
      minimum.totalMonths - avalanche.totalMonths);
    assert plan == PlanFrom(snowball, avalanche, minimum);
    res := Ok(plan);
  }

  /** What every strategy of an n-debt plan shows on the shared checkpoints: between 1 and 600
      months, one name per debt, one chart point per checkpoint carrying that checkpoint's
      month, balances never negative, open-debt counts between 0 and n, and, when the plan
      finishes before the cap, a zero balance and no open debt from its final month on. */
  predicate StrategyShape(x: Strategy, n: nat, checkpoints: seq<int>)
  {
    && 1 <= x.totalMonths <= DebtSimulation.MaxMonths
    && |x.payoffOrder| == n
    && |x.timeline| == |checkpoints|
    && (forall k :: 0 <= k < |checkpoints| ==> x.timeline[k].month == checkpoints[k])
    && (forall k :: 0 <= k < |checkpoints| ==>
          x.timeline[k].totalBalance >= 0.0 && 0 <= x.timeline[k].debtsRemaining <= n)
    && (x.totalMonths < DebtSimulation.MaxMonths ==>
          forall k :: 0 <= k < |checkpoints| && checkpoints[k] >= x.totalMonths ==>
            x.timeline[k].totalBalance == 0.0 && x.timeline[k].debtsRemaining == 0)
  }

  lemma StrategyFacts(debts: seq<Debt>, extra: real, checkpoints: seq<int>)
    requires debts != []
    ensures StrategyShape(StrategyOf(PayoffOf(debts, extra), checkpoints), |debts|, checkpoints)
  {
    var o := Simulated(debts, extra);
    var x := StrategyOf(PayoffOf(debts, extra), checkpoints);
    SimulationShape(debts, extra);
    SimulationEnds(debts, extra);
    assert x.timeline == Resampled(o.timeline, checkpoints);
    forall k | 0 <= k < |checkpoints|
      ensures x.timeline[k].month == checkpoints[k]
      ensures x.timeline[k].totalBalance >= 0.0 && 0 <= x.timeline[k].debtsRemaining <= |debts|
      ensures x.totalMonths < DebtSimulation.MaxMonths && checkpoints[k] >= x.totalMonths ==>
                x.timeline[k].totalBalance == 0.0 && x.timeline[k].debtsRemaining == 0
    {
      assert x.timeline[k] == SampleAt(o.timeline, checkpoints[k]);
      SampleAtFacts(o.timeline, checkpoints[k]);
      SampleAtBounds(o.timeline, checkpoints[k], |debts|);
      if o.months < DebtSimulation.MaxMonths && checkpoints[k] >= o.months {
        SampledAfterPayoff(o.timeline, checkpoints[k]);
      }
    }
  }

  /** For any non-empty debt list: the checkpoints are increasing and are exactly the multiples
      of 12 up to the longest plan together with the three plans' lengths, and each of the
      three strategies has the shape StrategyShape describes on them. */
  lemma DebtPlanShape(debts: seq<Debt>, extra: real)
    requires debts != []
    ensures var p := DebtPlanOf(debts, extra);
            var checkpoints := CheckpointList(p.snowball.totalMonths, p.avalanche.totalMonths, p.minimumOnly.totalMonths);
            && Increasing(checkpoints)
            && (forall m :: m in checkpoints <==>
                  IsCheckpoint(m, p.snowball.totalMonths, p.avalanche.totalMonths, p.minimumOnly.totalMonths))
            && StrategyShape(p.snowball, |debts|, checkpoints)
            && StrategyShape(p.avalanche, |debts|, checkpoints)
            && StrategyShape(p.minimumOnly, |debts|, checkpoints)
            && p.timeSavedSnowball == p.minimumOnly.totalMonths - p.snowball.totalMonths
            && p.timeSavedAvalanche == p.minimumOnly.totalMonths - p.avalanche.totalMonths
  {
    var snowballDebts, avalancheDebts := SortDebts(ByBalance, debts), SortDebts(ByRateDescending, debts);
    SortPermutes(ByBalance, debts);
    SortPermutes(ByRateDescending, debts);
    var p := DebtPlanOf(debts, extra);
    var checkpoints := CheckpointList(p.snowball.totalMonths, p.avalanche.totalMonths, p.minimumOnly.totalMonths);
    CheckpointListMembers(p.snowball.totalMonths, p.avalanche.totalMonths, p.minimumOnly.totalMonths);
    StrategyFacts(snowballDebts, extra, checkpoints);
    StrategyFacts(avalancheDebts, extra, checkpoints);
    StrategyFacts(debts, 0.0, checkpoints);
  }

  /** The snowball plan works through the debts in ascending balance and the avalanche plan in
      descending rate; both list every entered debt exactly once, and debts that tie keep
      their entered order. */
  lemma PayoffOrders(debts: seq<Debt>, extra: real, k: real)
    ensures var p := DebtPlanOf(debts, extra);
            && p.snowball.payoffOrder == Names(SortDebts(ByBalance, debts))
            && p.avalanche.payoffOrder == Names(SortDebts(ByRateDescending, debts))
            && p.minimumOnly.payoffOrder == Names(debts)
            && Sorted(ByBalance, SortDebts(ByBalance, debts))
            && Sorted(ByRateDescending, SortDebts(ByRateDescending, debts))
            && multiset(SortDebts(ByBalance, debts)) == multiset(debts)
            && multiset(SortDebts(ByRateDescending, debts)) == multiset(debts)
            && WithKey(ByBalance, SortDebts(ByBalance, debts), k) == WithKey(ByBalance, debts, k)
            && WithKey(ByRateDescending, SortDebts(ByRateDescending, debts), k) == WithKey(ByRateDescending, debts, k)
  {
    SortSorts(ByBalance, debts);
    SortSorts(ByRateDescending, debts);
    SortPermutes(ByBalance, debts);
    SortPermutes(ByRateDescending, debts);
    SortStable(ByBalance, debts, k);
    SortStable(ByRateDescending, debts, k);
  }
}
