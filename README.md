# Personal finance calculators, modelled in Dafny

The application is a financial calculator. Its engine is `src/utils/calculations.js`, which has five parts:

- compound interest with monthly contributions;
- loan amortisation with a yearly summary;
- retirement projection with a withdrawal estimate;
- inflation erosion;
- a debt payoff planner that compares the snowball order, the avalanche order and minimum payments.

A Flask backend, `backend/app.py`, repeats the first four calculators in Python. Two helper files serve the input forms:

- `src/utils/useValidatedInput.js` sanitises and validates typed numbers;
- `src/utils/formatters.js` writes month counts as years and months, and reads typed amounts back as numbers.

The model keeps the source's own form.

- Loops that update running totals are `method`s with `while` loops. Each is proved equal to a specification function over exact reals.
- The debt simulation changes its debt records in place inside `activeDebts.forEach`. In the model that array is an `array<DebtState>` that the month method updates one element at a time.
- Pure helpers are functions. Properties that relate several calls are lemmas.

Amounts are exact `real`s. The two rounding functions the program uses are modelled exactly:

- JavaScript `Math.round(x * 100) / 100`, which rounds halves up (`JsRound2`);
- Python `round(x, 2)`, which rounds halves to even (`PyRound2`).

Both engines share one set of specification functions for the monthly step. The model proves where they agree and exhibits where they differ:

- at an exact tie in rounding;
- on a loan whose amount is already at or below the 0.01 residual;
- in the retirement total growth, which JavaScript computes from the rounded corpus and Python from the exact balance.

Modules (debt_simulation.dfy holds two, the others one each):

| file | module | models |
|---|---|---|
| numbers.dfy | Numbers | the two roundings, truncation toward zero, powers, monthly interest |
| accrual.dfy | Accrual | the compound and retirement monthly step, with totals and per-year rows |
| amortization.dfy | Amortization | the loan monthly step, the 600-month cap, the 0.01 residual |
| erosion.dfy | Erosion | the inflation closed form |
| calculations.dfy | Calculations | the four JavaScript calculators |
| debt_simulation.dfy | DebtSimulation | `simulatePayoff` over a mutable array of debt states |
| debt_simulation.dfy | DebtSimulationFacts | properties of the whole simulation |
| debt_ordering.dfy | DebtOrdering | the two stable sorts |
| timeline_sampling.dfy | TimelineSampling | the month checkpoints and `sampleTimeline` |
| debt_snowball.dfy | DebtSnowball | `calculateDebtSnowball` |
| backend.dfy | Backend | the four Flask route bodies |
| numeric_text.dfy | NumericText | decimal numerals and JavaScript `parseFloat` |
| validated_input.dfy | ValidatedInput | `sanitizeNumericInput` and `validateNumericValue` |
| formatters.dfy | Formatters | `formatMonthsToYears` and `parseNumericInput` |

## Model

| member | source | states |
|---|---|---|
| Numbers.JsRoundNearest | src/utils/calculations.js:32-35 | Math.round gives an integer within half a unit of its argument, halves going up |
| Numbers.JsRoundUnique | src/utils/calculations.js:32-35 | the only integer in (x - 1/2, x + 1/2] is what Math.round gives |
| Numbers.JsRound2NonNegative | src/utils/calculations.js:82 | rounding a non-negative amount to cents keeps it non-negative |
| Numbers.PyRoundNearest | backend/app.py:59-62 | Python round lands within half a unit and picks the even neighbour at an exact half |
| Numbers.PyRoundUnique | backend/app.py:59-62 | away from a tie, the nearest integer is what Python round gives |
| Numbers.Round2Near | backend/app.py:68-70 | both cent roundings move an amount by at most half a cent and give whole cents |
| Numbers.RoundingsAgreeOffTies | backend/app.py:59-62 | off an exact half cent, the JavaScript and Python cent roundings agree |
| Numbers.RoundingsDifferAtTie | src/utils/calculations.js:40-42 | at 0.125 JavaScript gives 0.13 and Python 0.12 |
| Numbers.RoundingIdempotent | src/utils/calculations.js:32-35 | rounding an already rounded amount to cents changes nothing, in both engines |
| Numbers.Trunc | backend/app.py:41 | Python int() of a float truncates toward zero: the bounds for either sign |
| Numbers.PowNonZero | src/utils/calculations.js:177-178 | a power of a non-zero base is non-zero, so an inflation factor can be divided by |
| Numbers.PowPositive | src/utils/calculations.js:177-178 | a power of a positive base is positive |
| Numbers.PowAtLeastOne | src/utils/calculations.js:177-178 | a power of a base of at least 1 is at least 1 |
| Numbers.PowAdd | src/utils/calculations.js:177-178 | x^(m+n) = x^m * x^n |
| Accrual.ContributedStep | src/utils/calculations.js:28 | each year adds twelve monthly contributions to the contributed total |
| Accrual.BalanceIsContributionsPlusInterest | src/utils/calculations.js:24-27 | after n months the balance is the start, plus n contributions, plus the interest accrued |
| Accrual.GrowCompose | src/utils/calculations.js:21-37 | growing m months and then n months is the same as growing m+n months |
| Accrual.AccruedCompose | src/utils/calculations.js:21-37 | the interest over m+n months is the interest over m months plus the interest over the next n |
| Accrual.YearAdvance | src/utils/calculations.js:21-29 | one more year of twelve months advances both the balance and the interest to year y+1 |
| Accrual.ClosedFormStep | src/utils/calculations.js:24-26 | one monthly step keeps the closed form b(1+r)^n + c((1+r)^n - 1)/r |
| Accrual.GrowClosedForm | src/utils/calculations.js:21-37 | the month-by-month balance equals the closed-form annuity formula for every n |
| Accrual.ClosedFormNext | src/utils/calculations.js:24-26 | the closed form at n-1 gives the closed form at n |
| Accrual.NoContributionCompounds | src/utils/calculations.js:21-37 | with no contributions the balance is b(1+r)^n |
| Accrual.ZeroRateSaves | src/utils/calculations.js:21-37 | at zero rate the balance is the start plus the contributions, and no interest accrues |
| Accrual.AccrueYear | src/utils/calculations.js:23-28 | the twelve-month inner loop leaves the balance and the yearly interest of the specification |
| Accrual.GrowthRows | src/utils/calculations.js:31-36 | the breakdown has one row per year, row i being year i+1's rounded state |
| Accrual.ProjectionRows | src/utils/calculations.js:139-146 | the retirement projection has one row per year, with age and year counted from 1 |
| Accrual.CompoundYear | src/utils/calculations.js:21-37 | one pass of the year loop takes the loop invariant from year y to year y+1 and appends that year's row |
| Accrual.ProjectionYearStep | src/utils/calculations.js:132-147 | one pass of the retirement year loop keeps the projection invariant |
| Amortization.PrincipalPaid | src/utils/calculations.js:72 | the principal paid is never more than the balance: the balance itself or payment less interest |
| Amortization.PaymentMade | src/utils/calculations.js:73 | the amount paid is at most the payment and at most what is owed, and is one of the two |
| Amortization.NextBalance | src/utils/calculations.js:71-74 | the balance after a month is never negative |
| Amortization.FirstSettled | src/utils/calculations.js:69-87 | the loan ends at the first month whose balance is at or below 0.01, or at 600 months |
| Amortization.FirstSettledUnique | src/utils/calculations.js:69-87 | any month count with that property is the one the loop stops at |
| Amortization.BalanceNeverNegative | src/utils/calculations.js:82 | every balance after a payment is non-negative, so the Math.max(0, ...) clamp never changes it |
| Amortization.LoanMonthsDiverge | backend/app.py:100 | a positive amount at or below 0.01 takes 1 month in JavaScript and 0 in Python; above 0.01 both agree; a non-positive amount takes 0 months in both |
| Amortization.MonthLowersBalance | src/utils/calculations.js:71-74 | with a payment above the interest, a month strictly lowers a positive balance and never raises or negates it |
| Amortization.BalanceFalls | src/utils/calculations.js:69-87 | along the whole schedule the balance falls monotonically from the loan amount towards 0 |
| Erosion.Factor | src/utils/calculations.js:177-178 | the inflation factor is non-zero wherever it is divided by |
| Erosion.Duality | src/utils/calculations.js:177-178 | the future value times the purchasing power is the current value squared |
| Erosion.ErodedPlusRemaining | src/utils/calculations.js:178-179 | the value eroded plus the purchasing power left is the current value |
| Erosion.InflationErodes | src/utils/calculations.js:176-188 | with non-negative inflation, purchasing power is at most the value, which is at most the future value, and the erosion and cumulative inflation are non-negative |
| Erosion.NextYear | src/utils/calculations.js:177 | each year multiplies the future value by 1 + rate |
| Erosion.InflationRows | src/utils/calculations.js:176-188 | the breakdown has one row per year, row i being year i+1 |
| Calculations.CalculateCompoundInterest | src/utils/calculations.js:14-45 | the result is the compound report of the specification: one row per year numbered from 1, final balance, contributions and interest as the rounded closed totals; no years gives the principal alone |
| Calculations.LoanSchedule | src/utils/calculations.js:77-84 | the schedule has one row per month, row i being month i+1 |
| Calculations.LoanMonthStep | src/utils/calculations.js:70-86 | one pass of the loan loop keeps the amortisation invariant and appends that month's rounded row |
| Calculations.Amortize | src/utils/calculations.js:64-87 | the loop stops at the first month at or below the residual (or 600) with the interest total and schedule of the specification |
| Calculations.CalculateLoanPayoff | src/utils/calculations.js:54-111 | a payment at or below the first month's interest is refused with that interest; otherwise the plan of the specification |
| Calculations.LoanPlanShape | src/utils/calculations.js:64-110 | the plan has totalMonths rows numbered from 1, at most 600, all balances non-negative, none settled before the last, and ceil(months/12) yearly summaries numbered from 1 |
| Calculations.YearSlice | src/utils/calculations.js:91-92 | a year of the schedule has 1 to 12 months |
| Calculations.YearSummaries | src/utils/calculations.js:89-101 | one summary per started year, each the totals of that year's months |
| Calculations.SummarizeYears | src/utils/calculations.js:89-101 | the grouping loop builds exactly the yearly summaries of the specification |
| Calculations.TotalAppend | src/utils/calculations.js:96-98 | a column total over two runs of months is the sum of their totals |
| Calculations.SummaryCellIsYearTotal | src/utils/calculations.js:94-99 | each summary cell is the total of its column over that year's months |
| Calculations.SummaryTotalIsPrefixTotal | src/utils/calculations.js:89-101 | adding the first n yearly summaries totals the first 12n months |
| Calculations.SummaryPreservesTotals | src/utils/calculations.js:89-101 | the yearly summaries together total exactly what the schedule totals: no month lost or counted twice |
| Calculations.CalculateRetirement | src/utils/calculations.js:123-163 | ages out of order are refused; otherwise one projection row per year with age from currentAge+1, corpus, contributions, growth from the rounded corpus, withdrawals at the rate given (4 by default), and corpus-lasts years absent when the withdrawal is 0 |
| Calculations.PercentRounding | src/utils/calculations.js:186 | rounding (f-1)*10000 and dividing by 100 is rounding the percentage (f-1)*100 to cents |
| Calculations.CalculateInflation | src/utils/calculations.js:172-200 | one row per year and the final future value, purchasing power and total inflation of the closed form, each rounded |
| DebtSimulation.Starts | src/utils/calculations.js:290-294 | every debt starts at its balance, not paid off, in the entered order |
| DebtSimulation.Names | src/utils/calculations.js:356 | the payoff order lists the debt names in the order simulated |
| DebtSimulation.FirstUnpaid | src/utils/calculations.js:322 | the target is the first debt not yet paid off, every earlier one being paid off; -1 when all are |
| DebtSimulation.Remaining | src/utils/calculations.js:345 | the debts remaining are at most the number of debts |
| DebtSimulation.SettleDebtFacts | src/utils/calculations.js:314-334 | one debt's month: interest at rate/100/12; payment at most what is owed and at most its minimum (plus the pool for the target); balance non-negative; paid off exactly when the balance is 0; an open debt keeps more than 0.01 |
| DebtSimulation.PooledExtra | src/utils/calculations.js:303-308 | the pool is the extra payment plus the minimums of the debts already paid off |
| DebtSimulation.SettleDebtIs | src/utils/calculations.js:316-334 | the in-place update of one debt matches the specification's settlement |
| DebtSimulation.SettleStep | src/utils/calculations.js:313-335 | settling debt i and moving on equals settling from i |
| DebtSimulation.SettleDebts | src/utils/calculations.js:310-335 | the forEach over the array leaves the debts, interest and payment of the specification's month |
| DebtSimulation.SimulateMonth | src/utils/calculations.js:302-335 | one month of the in-place simulation equals the specification's month |
| DebtSimulation.RunStep | src/utils/calculations.js:301-347 | one pass of the month loop advances the run and appends that month's timeline entry |
| DebtSimulation.RunDone | src/utils/calculations.js:301 | the loop stops when no debt is open or at 600 months |
| DebtSimulation.SimulatePayoff | src/utils/calculations.js:289-358 | the imperative simulation returns the payoff of the specification |
| DebtSimulationFacts.SettleFromKeeps | src/utils/calculations.js:313-335 | a month's pass keeps each debt's identity, leaves paid-off debts alone and keeps every debt sound |
| DebtSimulationFacts.SettleMonthKeeps | src/utils/calculations.js:313-335 | a month keeps the number of debts and their identities, leaves paid-off debts alone and keeps every debt sound |
| DebtSimulationFacts.TotalBalanceNonNegative | src/utils/calculations.js:343 | the total balance of non-negative balances is non-negative |
| DebtSimulationFacts.RemainingSticky | src/utils/calculations.js:345 | a paid-off debt stays paid off, so the debts remaining never rise |
| DebtSimulationFacts.RunShape | src/utils/calculations.js:301-347 | the run ends within 600 months with one timeline entry per month numbered from 1, and before 600 only when every debt is paid off |
| DebtSimulationFacts.RunKeepsDebts | src/utils/calculations.js:301-347 | across the run, debts keep their identity and paid-off debts stay as they were |
| DebtSimulationFacts.RunTimeline | src/utils/calculations.js:341-346 | every timeline entry has a non-negative total balance; its debts remaining are bounded and never rise |
| DebtSimulationFacts.RemainingAllOpen | src/utils/calculations.js:290-294 | at the start every debt is open |
| DebtSimulationFacts.SimulationShape | src/utils/calculations.js:289-358 | the whole simulation: at most 600 months, a timeline entry per month numbered from 1, at least one month exactly when there are debts, every debt paid off when it ends early, balances non-negative, remaining counts non-rising |
| DebtSimulationFacts.TotalBalanceZero | src/utils/calculations.js:343 | when every balance is 0 the total is 0 |
| DebtSimulationFacts.RemainingNone | src/utils/calculations.js:345 | when every debt is paid off none remain |
| DebtSimulationFacts.RunLast | src/utils/calculations.js:341-346 | the last timeline entry describes the final month's debts |
| DebtSimulationFacts.SimulationEnds | src/utils/calculations.js:341-347 | a plan that ends before 600 months ends with a zero balance and no debt remaining |
| DebtSimulationFacts.FirstUnpaidIs | src/utils/calculations.js:322 | an open debt with only paid-off debts before it is the one findIndex finds |
| DebtSimulationFacts.SkipPaidOff | src/utils/calculations.js:314 | the pass steps over paid-off debts, changing nothing |
| DebtSimulationFacts.PoolPassesOn | src/utils/calculations.js:313-335 | for any debts and pool: when the target is cleared, the next open debt becomes the target in the same pass and is offered its minimum plus the whole pool again |
| DebtSimulationFacts.PoolReachesNextDebtInSameMonth | src/utils/calculations.js:303-334 | worked example: debts of 10 and 100 with minimums of 5 and an extra 50; the first is cleared and the second still gets 5 + 50, ending at 45, so the month pays 65 although 60 was on offer |
| DebtOrdering.InsertPermutes | src/utils/calculations.js:212 | inserting adds exactly one entry |
| DebtOrdering.InsertLowerBound | src/utils/calculations.js:212 | inserting keeps a common lower bound on the keys |
| DebtOrdering.ConsSorted | src/utils/calculations.js:212 | a key placed before keys no smaller keeps the list sorted |
| DebtOrdering.InsertSorted | src/utils/calculations.js:212 | inserting into a sorted list keeps it sorted |
| DebtOrdering.SortPermutes | src/utils/calculations.js:212-216 | each sort lists the same debts, each as often as entered |
| DebtOrdering.SortSorts | src/utils/calculations.js:212-216 | snowball ascends by balance and avalanche descends by rate |
| DebtOrdering.WithKeyAppend | src/utils/calculations.js:212-216 | the debts with a given key in two lists joined are those of the first, then those of the second |
| DebtOrdering.WithKeyAbove | src/utils/calculations.js:212-216 | a sorted list that starts above a key holds none with that key |
| DebtOrdering.InsertKeepsTies | src/utils/calculations.js:212-216 | an inserted debt goes after every debt with its key |
| DebtOrdering.SortStable | src/utils/calculations.js:212-216 | debts that tie keep their entered order, as Array.prototype.sort is stable |
| TimelineSampling.Longest | src/utils/calculations.js:224-228 | the longest of the three plans is at least each and is one of them |
| TimelineSampling.AddMonth | src/utils/calculations.js:231-237 | adding a month to an increasing set keeps it increasing and adds exactly that month |
| TimelineSampling.ConsIncreasing | src/utils/calculations.js:238 | a month below all others placed first keeps the list increasing |
| TimelineSampling.YearMarks | src/utils/calculations.js:232-234 | the yearly marks are increasing and start at the first mark |
| TimelineSampling.MultipleBelow | src/utils/calculations.js:232 | two distinct multiples of 12 are at least 12 apart |
| TimelineSampling.YearMarksMembers | src/utils/calculations.js:232-234 | the marks are exactly the multiples of 12 in range |
| TimelineSampling.CheckpointListMembers | src/utils/calculations.js:231-238 | the checkpoints are increasing and are exactly the positive multiples of 12 up to the longest plan and the three plan lengths |
| TimelineSampling.Checkpoints | src/utils/calculations.js:224-238 | the set-building loop and sort produce exactly that increasing list |
| TimelineSampling.IncreasingUnique | src/utils/calculations.js:238 | two increasing lists with the same members are equal |
| TimelineSampling.CheckpointsDetermined | src/utils/calculations.js:238 | any increasing list of exactly the checkpoints is the checkpoint list |
| TimelineSampling.LastAtOrBefore | src/utils/calculations.js:268-274 | the index found is of an entry at or before the target month with none after it; -1 when there is none |
| TimelineSampling.FindAtOrBefore | src/utils/calculations.js:268-274 | the backward search loop finds that index |
| TimelineSampling.SampleTimeline | src/utils/calculations.js:265-287 | the map over the checkpoints gives the sample of the specification at each checkpoint |
| TimelineSampling.SampleAtFacts | src/utils/calculations.js:276-285 | each sample carries its checkpoint month; inside the plan it is that month's entry; after a paid-off plan it is zero with the final interest; after an unfinished plan it repeats the last entry; before month 1 it is zero |
| TimelineSampling.SampleAtBounds | src/utils/calculations.js:276-285 | a sample's balance is non-negative and its debts remaining are bounded as the raw entries are |
| TimelineSampling.SampledAfterPayoff | src/utils/calculations.js:277-283 | after a plan ends with everything paid a sample shows zero balance and no debt |
| DebtSnowball.CalculateDebtSnowball | src/utils/calculations.js:208-259 | a missing or empty list is refused; otherwise the three plans of the specification, extra defaulting to 0 |
| DebtSnowball.StrategyFacts | src/utils/calculations.js:241-243 | a strategy's timeline has one sample per checkpoint at that month, with non-negative balance, bounded remaining counts, and zero after a payoff |
| DebtSnowball.DebtPlanShape | src/utils/calculations.js:224-257 | the shared checkpoints are increasing and exactly the yearly marks and plan lengths; each strategy has that shape; time saved is the minimum plan's months less the strategy's |
| DebtSnowball.PayoffOrders | src/utils/calculations.js:211-220 | snowball pays by ascending balance and avalanche by descending rate, each listing every debt once with ties in entered order; the minimum plan keeps the entered order |
| Backend.FirstMalformed | backend/app.py:38-41 | the first key, in reading order, whose value its reader (float() or int()) rejects, or none when every key reads |
| Backend.ReadStep | backend/app.py:38-40 | float(data.get(k, default)) fails exactly at the first malformed key, else gives the number or the default |
| Backend.ReadIntStep | backend/app.py:41 | int(data.get(k, default)) likewise, truncating toward zero |
| Backend.PyCompound | backend/app.py:43-73 | the Python compound loop gives the report of the shared specification with half-to-even rounding |
| Backend.CompoundInterestRoute | backend/app.py:35-75 | a malformed field gives an error naming it; otherwise the compound report of the fields read with their defaults |
| Backend.GrowthRowsAgree | backend/app.py:57-63 | where no rounded amount is an exact half cent, the Python breakdown rows equal the JavaScript ones |
| Backend.CompoundEnginesAgree | backend/app.py:65-73 | off exact half cents, the Python and JavaScript compound reports are equal |
| Backend.PySchedule | backend/app.py:108-114 | the Python schedule has one row per month, row i being month i+1 |
| Backend.PyLoanMonthStep | backend/app.py:101-114 | one pass of the Python loan loop keeps its invariant and appends the month's rounded row |
| Backend.PyAmortize | backend/app.py:95-114 | the Python loop runs while the balance exceeds 0.01, up to 600 months, with the interest and schedule of the specification |
| Backend.PyLoanPayoff | backend/app.py:86-123 | a payment at or below the first month's interest is refused; otherwise the Python plan of the specification |
| Backend.LoanPayoffRoute | backend/app.py:79-126 | malformed fields, then a payment too low, then the plan |
| Backend.PyRound2NonNegative | backend/app.py:113 | Python rounding of a non-negative amount stays non-negative |
| Backend.PyLoanPlanShape | backend/app.py:95-123 | the Python plan has one row per month numbered from 1, at most 600, non-negative balances; an amount at or below 0.01 gives no rows; above 0.01 its length equals the JavaScript one |
| Backend.PyRetirement | backend/app.py:140-176 | ages out of order are refused; otherwise the Python retirement plan of the specification |
| Backend.RetirementRoute | backend/app.py:130-178 | malformed fields, then ages out of order, then the plan, with withdrawalRate defaulting to 4 |
| Backend.PyGrowthIsInterest | backend/app.py:171 | the Python total growth is the rounded interest accrued, computed from the unrounded balance |
| Backend.GrowthRoundingOrderMatters | src/utils/calculations.js:157 | rounding the corpus before subtracting (JavaScript) and after (Python) can differ by a cent |
| Backend.PyInflation | backend/app.py:189-215 | a factor (1+rate)**y of 0 raised to a negative power or divided by fails with a division by zero; otherwise the closed-form report |
| Backend.InflationRoute | backend/app.py:182-217 | malformed fields, then the division by zero, then the report |
| NumericText.Digit | src/utils/formatters.js:49-51 | a digit value in 0..9 has a digit character denoting it |
| NumericText.NatToString | src/utils/formatters.js:49-51 | a natural number's numeral is non-empty decimal digits with no leading zero, denoting the number |
| NumericText.LeadingDigits | src/utils/useValidatedInput.js:30 | the run of digits at the front: all digits, followed by a non-digit or the end |
| NumericText.LeadingBlanks | src/utils/useValidatedInput.js:30 | the run of blanks parseFloat skips, followed by a non-blank or the end |
| NumericText.Fraction | src/utils/useValidatedInput.js:30 | the value of fraction digits is non-negative |
| NumericText.ParseUnsignedNonNegative | src/utils/useValidatedInput.js:30 | an unsigned decimal reads as a non-negative number |
| NumericText.DigitsThenJunk | src/utils/useValidatedInput.js:30 | parseFloat reads a leading run of digits and ignores what follows it |
| NumericText.LeadingDigitsOf | src/utils/useValidatedInput.js:30 | digits followed by a non-digit end where the digits end |
| NumericText.ParseNatNumeral | src/utils/formatters.js:61 | parseFloat of a natural number's numeral gives the number back |
| NumericText.ParseIntNumeral | src/utils/formatters.js:61 | parseFloat of an integer's numeral gives the integer back, negatives included |
| NumericText.ParseNegative | src/utils/formatters.js:61 | a leading '-' negates what parseFloat reads |
| NumericText.UnsignedOfPlain | src/utils/useValidatedInput.js:30 | text with no blank or sign in front is read unsigned |
| NumericText.ParseNeedsDigit | src/utils/useValidatedInput.js:30-31 | text without a digit is NaN to parseFloat |
| NumericText.NoDigitUnsigned | src/utils/useValidatedInput.js:30-31 | an unsigned reading without a digit is NaN |
| ValidatedInput.Filter | src/utils/useValidatedInput.js:10-11 | the characters kept are in the class and are taken from the input |
| ValidatedInput.FilterCount | src/utils/useValidatedInput.js:10-11 | every character of the class is kept as often as it occurs; every other is dropped |
| ValidatedInput.IndexOf | src/utils/useValidatedInput.js:14-15 | the first position of a character, or -1 when it is absent |
| ValidatedInput.CollapseDots | src/utils/useValidatedInput.js:13-15 | at most one '.' is left: everything up to the first '.', then the rest with its dots removed; text without a dot is unchanged |
| ValidatedInput.DotsAround | src/utils/useValidatedInput.js:14-15 | the text splits at its first dot, and the dots are that one plus those after it |
| ValidatedInput.FilterKeepsAll | src/utils/useValidatedInput.js:10-11 | text already in the class passes unchanged |
| ValidatedInput.TidyMinus | src/utils/useValidatedInput.js:20-21 | with negatives allowed and a first '-' past the front, every '-' is removed and every other character kept; otherwise the text is unchanged; so the result has no '-' or starts with one |
| ValidatedInput.DotPass | src/utils/useValidatedInput.js:13-18 | at most one '.' when decimals are allowed and none otherwise; nothing is added |
| ValidatedInput.SubsequenceReflexive | src/utils/useValidatedInput.js:6-24 | every text is a subsequence of itself |
| ValidatedInput.SubsequenceTransitive | src/utils/useValidatedInput.js:6-24 | a subsequence of a subsequence is a subsequence |
| ValidatedInput.SubsequenceConcat | src/utils/useValidatedInput.js:15 | subsequences of two parts joined are a subsequence of the parts joined |
| ValidatedInput.FilterSubsequence | src/utils/useValidatedInput.js:11 | filtering keeps the kept characters in order |
| ValidatedInput.CollapseSubsequence | src/utils/useValidatedInput.js:15 | collapsing dots keeps the remaining characters in order |
| ValidatedInput.SanitizeShape | src/utils/useValidatedInput.js:6-24 | empty gives ""; only digits, '.' and (when allowed) '-' are left; at most one '.' (none without decimals); any '-' means the text starts with '-'; no '-' without negatives |
| ValidatedInput.SanitizeSubsequence | src/utils/useValidatedInput.js:6-24 | sanitising only deletes characters: the output is a subsequence of the input |
| ValidatedInput.DotPassKeeps | src/utils/useValidatedInput.js:13-18 | text that already has an allowed number of dots passes the dot rule unchanged |
| ValidatedInput.TidyMinusKeeps | src/utils/useValidatedInput.js:20-21 | text with no '-' or starting with one passes the minus rule unchanged |
| ValidatedInput.SanitizeIdempotent | src/utils/useValidatedInput.js:6-24 | sanitising sanitised text changes nothing |
| ValidatedInput.SanitizedNotNegative | src/utils/useValidatedInput.js:10-21 | with negatives not allowed, the sanitised text never parses to a negative number |
| ValidatedInput.ValidateNumericValue | src/utils/useValidatedInput.js:26-35 | empty is an error exactly when required; every error names the field; non-empty is valid exactly when it parses and lies within the bounds given |
| ValidatedInput.ValidationOrder | src/utils/useValidatedInput.js:30-33 | not-a-number exactly for NaN; below-min exactly when below a given min; above-max exactly when within the min and above a given max |
| ValidatedInput.ValidationReadsPrefix | src/utils/useValidatedInput.js:30-34 | digits followed by junk validate as the number of the digits, as parseFloat reads a prefix |
| Formatters.JsRem | src/utils/formatters.js:48 | JavaScript % is below the divisor in size and takes the sign of the dividend |
| Formatters.Split | src/utils/formatters.js:47-48 | for a natural count, whole years and 0..11 months left; for a negative count the floor and the truncated remainder as they combine |
| Formatters.Count | src/utils/formatters.js:49-51 | a count is written with its unit and ends in 's' exactly when the count is not 1 |
| Formatters.ReadDigits | src/utils/formatters.js:49-51 | the numeral at the front of a written count reads back as its number |
| Formatters.ReadUnitOf | src/utils/formatters.js:49-51 | the unit reads back with or without its plural 's' |
| Formatters.ReadCountOf | src/utils/formatters.js:49-51 | a written count reads back as that count and unit |
| Formatters.YearIsNotMonth | src/utils/formatters.js:50-51 | the year word is not read as the month word |
| Formatters.YearsAreNotMonths | src/utils/formatters.js:50-51 | a written year count is not read as months |
| Formatters.ReadsBackMonths | src/utils/formatters.js:49 | "N month(s)" reads back as N months |
| Formatters.ReadsBackYears | src/utils/formatters.js:50 | "N year(s)" reads back as 12N months |
| Formatters.ReadYearsThenMonths | src/utils/formatters.js:51 | a year count then a month count after a blank read back as their sum in months |
| Formatters.ReadsBackBoth | src/utils/formatters.js:51 | "Y year(s) M month(s)" reads back as 12Y+M months |
| Formatters.FormatReadsBack | src/utils/formatters.js:46-52 | every natural number of months is written so that it reads back as exactly that number |
| Formatters.FormatForms | src/utils/formatters.js:46-52 | months only below a year, years only on a whole number of years, both otherwise |
| Formatters.ZeroMonths | src/utils/formatters.js:49 | no months at all is written "0 months" |
| Formatters.ParseNumericInput | src/utils/formatters.js:59-62 | a number comes back unchanged |
| Formatters.FilterAppend | src/utils/formatters.js:61 | the character filter works part by part |
| Formatters.NoiseIgnored | src/utils/formatters.js:61 | a character other than a digit, '.' or '-' makes no difference wherever it sits |
| Formatters.NoDigitIsZero | src/utils/formatters.js:61 | text with no digit reads as 0 |
| Formatters.NumeralReadsBack | src/utils/formatters.js:61 | the numeral of any integer reads back as that integer |

## Left out

- Floating point: every amount is an exact real. IEEE-754 rounding drift, NaN and Infinity are not modelled. The two roundings to cents are modelled exactly on those reals.
- Calculations.CalculateInflation: requires 1 + rate to be non-zero unless years is 0. Outside that, JavaScript divides by a zero factor and gives Infinity or NaN, which exact reals cannot represent.
- Calculations.CalculateRetirement: corpusLastsYears is None where JavaScript gives Infinity or NaN, which is the case of a zero annual withdrawal.
- Calculations.CalculateRetirement: the missing withdrawalRate, which the default parameter turns into 4, is an Option. DebtSnowball.CalculateDebtSnowball treats a missing extraPayment, which defaults to 0, the same way.
- Backend: Flask routing, request.json, CORS and the JSON encoding of responses are left out. A request is a map from keys to fields. A field is `Malformed` when the reader its key uses rejects it: float() for the amount and rate keys, int() for years, currentAge and retirementAge. So a string such as "5.5" is `Malformed` under years and `Number(5.5)` under principal; which values each reader accepts is not itself modelled.
- Backend: the text of exception messages is replaced by an error datatype.
- Backend: the Python retirement plan has no totalYears, annualSummary or corpusLastsYears, because app.py computes none of them.
- Array.prototype.sort is modelled as a stable insertion sort, with the same order on ties as the ECMAScript stable sort.
- NumericText.ParseFloat: reads digits, an optional '.' and fraction digits. The exponent part and the literal "Infinity" of JavaScript parseFloat are not read.
- NumericText.ParseFloat: the blanks it skips are space, tab and line breaks. Other Unicode white space is not modelled.
- ValidatedInput.SanitizeNumericInput: values enter as text. The String(...) conversion of non-string values is not modelled.
- ValidatedInput.SanitizeNumericInput: the min and max options are accepted by the source but never used, so they are not parameters.
- ValidatedInput.SanitizeNumericInput and ValidatedInput.ValidateNumericValue: the option defaults (allowDecimal true, allowNegative false, required true, fieldName "Value") are constants (DefaultAllowDecimal, DefaultAllowNegative, DefaultRequired, DefaultFieldName) rather than optional parameters; every call passes all options.
- ValidatedInput.ValidateNumericValue: messages are a Verdict datatype naming the field and the problem, rather than the English sentences.
- Formatters.FormatMonthsToYears: months are integers. Non-integer month counts are not modelled.
- Formatters.ParseNumericInput: non-numbers enter as text, with String(value) already applied.
- The React hook useValidatedInputs, the pages, and the locale formatting helpers formatCurrency, formatNumber and formatPercent are not part of this model.
