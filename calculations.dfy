/**
 * The metrics aggregator: one total function from a household snapshot to
 * the calculation results, with divide-by-zero guards, the twelve milestone
 * rules and the "years / money saved" heuristics.
 */
module Calculations {
  import opened Types

  /** Nominal annual interest rate of the standard-interest heuristic. */
  const StandardAnnualRate: real := 0.06

  function Max(a: real, b: real): real { if a >= b then a else b }

  function Min(a: real, b: real): real { if a <= b then a else b }

  /** JavaScript's Math.round: the nearest integer, halves rounded up. */
  function JsRound(x: real): (n: int)
    ensures n as real - 0.5 <= x < n as real + 0.5
  {
    (x + 0.5).Floor
  }

  /** Math.max(1, n): the guarded divisor of every monthly average. */
  function MonthDivisor(n: nat): (d: real)
    ensures d >= 1.0
    ensures n >= 1 ==> d == n as real
    ensures n == 0 ==> d == 1.0
  {
    if n >= 1 then n as real else 1.0
  }

  /** Left fold of `f` over the rows, as Array.prototype.reduce from 0. */
  function SumOver(ms: seq<MonthlyRecord>, f: MonthlyRecord -> real): real
    decreases |ms|
  {
    if |ms| == 0 then 0.0 else SumOver(ms[..|ms| - 1], f) + f(ms[|ms| - 1])
  }

  function Credit(m: MonthlyRecord): real { m.credit }
  function Debit(m: MonthlyRecord): real { m.debit }
  function OneOffCredits(m: MonthlyRecord): real { m.oneOffCreditsRemoved }
  function OneOffDebits(m: MonthlyRecord): real { m.oneOffDebitsRemoved }
  function RecordedReduction(m: MonthlyRecord): real { m.actualDebtReduction }

  /** Credit of a month with the one-off credits removed. */
  function UnderlyingIncome(m: MonthlyRecord): real { m.credit - m.oneOffCreditsRemoved }

  /** Debit of a month with the one-off debits removed. */
  function UnderlyingExpense(m: MonthlyRecord): real { m.debit - m.oneOffDebitsRemoved }

  /** Net debt reduction of a month; one-off debits are not subtracted. */
  function NetReduction(m: MonthlyRecord): real { m.credit - m.debit - m.oneOffCreditsRemoved }

  /**
   * `monthlyData[0].loanBalance + (debit - credit) || previousBalance6Months`:
   * with no record the sum is NaN, and NaN and 0 are both falsy.
   */
  function OpeningBalance(data: CoachingData): (b: real)
    ensures |data.monthlyData| == 0 ==> b == data.previousBalance6Months
    ensures |data.monthlyData| > 0 ==>
      var f := data.monthlyData[0];
      && (f.loanBalance + (f.debit - f.credit) != 0.0 ==> b - f.debit + f.credit == f.loanBalance)
      && (f.loanBalance + (f.debit - f.credit) == 0.0 ==> b == data.previousBalance6Months)
  {
    if |data.monthlyData| > 0 then
      var first := data.monthlyData[0];
      var net := first.loanBalance + (first.debit - first.credit);
      if net != 0.0 then net else data.previousBalance6Months
    else
      data.previousBalance6Months
  }

  /** The redraw records that are not excluded, in their original order. */
  function ActiveRedraws(rs: seq<RedrawRecord>): (active: seq<RedrawRecord>)
    ensures |active| <= |rs|
    ensures forall r :: r in active <==> r in rs && !r.excluded
    decreases |rs|
  {
    if |rs| == 0 then []
    else
      var rest := ActiveRedraws(rs[..|rs| - 1]);
      var last := rs[|rs| - 1];
      assert rs == rs[..|rs| - 1] + [last];
      if last.excluded then rest else rest + [last]
  }

  function SumAmounts(rs: seq<RedrawRecord>): real
    decreases |rs|
  {
    if |rs| == 0 then 0.0 else SumAmounts(rs[..|rs| - 1]) + rs[|rs| - 1].amount
  }

  /** Sum of the amounts of the non-excluded redraws. */
  function ActiveRedrawTotal(rs: seq<RedrawRecord>): real
  {
    SumAmounts(ActiveRedraws(rs))
  }

  /** `monthlyData.slice(-6)`: the last six rows, or all of them when fewer. */
  function LastSix(ms: seq<MonthlyRecord>): (tail: seq<MonthlyRecord>)
    ensures |tail| == if |ms| <= 6 then |ms| else 6
    ensures ms == ms[..|ms| - |tail|] + tail
  {
    if |ms| <= 6 then ms else ms[|ms| - 6..]
  }

  function YesNo(b: bool): StepStatus { if b then Yes else No }

  /** The twelve milestone rules; only step 10 consults the overrides. */
  function StepsStatus(data: CoachingData, avgMonthlyExpenses: real, savingsRate: real): (s: map<int, StepStatus>)
    ensures forall k :: k in s <==> 1 <= k <= 12
  {
    map[
      1 := YesNo(data.currentAvailableRedraw >= 2000.0),
      2 := YesNo(data.currentAvailableRedraw >= avgMonthlyExpenses),
      3 := YesNo(!data.hasExternalDebts),
      4 := YesNo(data.currentAvailableRedraw >= avgMonthlyExpenses * 3.0),
      5 := YesNo(data.currentLoanBalance <= data.settlementLoanAmount * 0.9),
      6 := Discretion,
      7 := YesNo(data.currentLoanBalance <= data.settlementLoanAmount * 0.75),
      8 := YesNo(savingsRate >= data.firstReportSavingsRate * 1.1),
      9 := YesNo(data.currentLoanBalance <= data.settlementLoanAmount * 0.5),
      10 := if 10 in data.manualOverrides then data.manualOverrides[10] else No,
      11 := YesNo(data.currentLoanBalance <= data.settlementLoanAmount * 0.25),
      12 := YesNo(data.currentLoanBalance <= 0.0)
    ]
  }

  /** Months until the balance is cleared at a net monthly reduction (at least 1). */
  function MonthsRemaining(balance: real, monthlyReduction: real): real
  {
    balance / Max(1.0, monthlyReduction)
  }

  /** Whole years saved against a nominal 30-year loan. */
  function YearsSaved(monthsRemaining: real): (years: int)
    ensures years >= 0
    ensures monthsRemaining >= 0.0 ==> years <= 30
  {
    JsRound(Max(0.0, 30.0 - monthsRemaining / 12.0))
  }

  /** The simplified "interest saved" heuristic with a fixed factor. */
  function MoneySaved(monthsRemaining: real, monthlyInterest: real, factor: real): (saved: real)
    ensures saved >= 0.0
  {
    Max(0.0, monthsRemaining * monthlyInterest * factor)
  }

  function TotalDebtReduction(data: CoachingData): real
  {
    OpeningBalance(data) - data.currentLoanBalance
  }

  function AvgMonthlyDebtReduction(data: CoachingData): real
  {
    TotalDebtReduction(data) / MonthDivisor(|data.monthlyData|)
  }

  function AvgMonthlyIncome(data: CoachingData): real
  {
    SumOver(data.monthlyData, UnderlyingIncome) / MonthDivisor(|data.monthlyData|)
  }

  function AvgMonthlyExpenses(data: CoachingData): real
  {
    SumOver(data.monthlyData, UnderlyingExpense) / MonthDivisor(|data.monthlyData|)
  }

  function SavingsRate(data: CoachingData): real
  {
    SavingsRatePercent(AvgMonthlyIncome(data), AvgMonthlyExpenses(data))
  }

  /** The clamped figures of the savings sentence. */
  function Sentence(savingsRate: real): (s: SavingsSentence)
    ensures s.saved >= 0.0 && s.saved >= savingsRate
    ensures s.saved + s.spent == 100.0
    ensures savingsRate >= 0.0 ==> s.saved == savingsRate
    ensures savingsRate < 0.0 ==> s.saved == 0.0 && s.spent == 100.0
  {
    var savedVal := Max(0.0, savingsRate);
    SavingsSentence(savedVal, 100.0 - savedVal)
  }

  function BeatingPreviousPercent(data: CoachingData): real
  {
    if data.firstReportSavingsRate > 0.0
    then (SavingsRate(data) - data.firstReportSavingsRate) / data.firstReportSavingsRate * 100.0
    else 0.0
  }

  function CurrentLVR(data: CoachingData): real
  {
    if data.currentPropertyValuation > 0.0
    then data.currentLoanBalance / data.currentPropertyValuation * 100.0
    else 0.0
  }

  /** The bank's share is the LVR capped at 100; the household owns the rest. */
  function Ownership(lvr: real): (h: HomeOwnership)
    ensures h.youOwn + h.bankOwns == 100.0
    ensures h.bankOwns <= 100.0 && h.bankOwns <= lvr
    ensures lvr <= 100.0 ==> h.bankOwns == lvr
  {
    var bankOwns := Min(100.0, lvr);
    HomeOwnership(100.0 - bankOwns, bankOwns)
  }

  function StandardMonthlyInterest(data: CoachingData): real
  {
    data.currentLoanBalance * StandardAnnualRate / 12.0
  }

  function MonthsRemainingBase(data: CoachingData): real
  {
    MonthsRemaining(data.currentLoanBalance, AvgMonthlyDebtReduction(data))
  }

  function MonthsRemainingFlex(data: CoachingData): real
  {
    MonthsRemaining(data.currentLoanBalance, AvgMonthlyDebtReduction(data) + data.proposedFlexAmount)
  }

  function PerformCalculations(data: CoachingData): (r: CalculationResults)
    ensures forall k :: k in r.stepsStatus <==> 1 <= k <= 12
    ensures r.homeOwnership.youOwn + r.homeOwnership.bankOwns == 100.0
    ensures r.homeOwnership.bankOwns <= 100.0
    ensures r.savingsRateSentence.saved >= 0.0
    ensures r.savingsRateSentence.saved + r.savingsRateSentence.spent == 100.0
    ensures r.yearsSavedBase >= 0 && r.yearsSavedFlex >= 0
    ensures r.moneySavedBase >= 0.0 && r.moneySavedFlex >= 0.0
  {
    var avgMonthlyExpenses := AvgMonthlyExpenses(data);
    var savingsRate := SavingsRate(data);
    var totalAdditionalRedraws := ActiveRedrawTotal(data.additionalRedraws);
    var currentLVR := CurrentLVR(data);
    var interest := StandardMonthlyInterest(data);
    CalculationResults(
      totalDebtReduction := TotalDebtReduction(data),
      avgMonthlyDebtReduction := AvgMonthlyDebtReduction(data),
      avgMonthlyIncome := AvgMonthlyIncome(data),
      avgMonthlyExpenses := avgMonthlyExpenses,
      savingsRate := savingsRate,
      savingsRateSentence := Sentence(savingsRate),
      totalAdditionalRedraws := totalAdditionalRedraws,
      avgMonthlyAdditionalRedraws := totalAdditionalRedraws / MonthDivisor(|data.monthlyData|),
      currentLVR := currentLVR,
      homeOwnership := Ownership(currentLVR),
      stepsStatus := StepsStatus(data, avgMonthlyExpenses, savingsRate),
      monthsToDebtFree := MonthsRemainingBase(data),
      last6MonthsReduction := SumOver(LastSix(data.monthlyData), NetReduction),
      yearsSavedBase := YearsSaved(MonthsRemainingBase(data)),
      moneySavedBase := MoneySaved(MonthsRemainingBase(data), interest, 0.5),
      yearsSavedFlex := YearsSaved(MonthsRemainingFlex(data)),
      moneySavedFlex := MoneySaved(MonthsRemainingFlex(data), interest, 0.8),
      beatingPreviousPercent := BeatingPreviousPercent(data))
  }

  // ---------------------------------------------------------------------
  // Folds

  lemma {:induction false} SumOverDifference(ms: seq<MonthlyRecord>, f: MonthlyRecord -> real,
                                             g: MonthlyRecord -> real, h: MonthlyRecord -> real)
    requires forall m :: f(m) == g(m) - h(m)
    ensures SumOver(ms, f) == SumOver(ms, g) - SumOver(ms, h)
    decreases |ms|
  {
    if |ms| > 0 {
      SumOverDifference(ms[..|ms| - 1], f, g, h);
    }
  }

  lemma {:induction false} SumOverAgrees(ms: seq<MonthlyRecord>, f: MonthlyRecord -> real, g: MonthlyRecord -> real)
    requires forall i :: 0 <= i < |ms| ==> f(ms[i]) == g(ms[i])
    ensures SumOver(ms, f) == SumOver(ms, g)
    decreases |ms|
  {
    if |ms| > 0 {
      SumOverAgrees(ms[..|ms| - 1], f, g);
    }
  }

  lemma {:induction false} SumOverCons(m: MonthlyRecord, ms: seq<MonthlyRecord>, f: MonthlyRecord -> real)
    ensures SumOver([m] + ms, f) == f(m) + SumOver(ms, f)
    decreases |ms|
  {
    if |ms| > 0 {
      assert ([m] + ms)[..|ms|] == [m] + ms[..|ms| - 1];
      SumOverCons(m, ms[..|ms| - 1], f);
    }
  }

  // ---------------------------------------------------------------------
  // Averages, income, expenses

  /** With no monthly record the divisor is 1, so every average is its total. */
  lemma NoMonthsAveragesAreTotals(data: CoachingData)
    requires |data.monthlyData| == 0
    ensures TotalDebtReduction(data) == data.previousBalance6Months - data.currentLoanBalance
    ensures AvgMonthlyDebtReduction(data) == TotalDebtReduction(data)
    ensures AvgMonthlyIncome(data) == 0.0 && AvgMonthlyExpenses(data) == 0.0 && SavingsRate(data) == 0.0
    ensures var r := PerformCalculations(data);
      && r.avgMonthlyAdditionalRedraws == r.totalAdditionalRedraws
      && r.last6MonthsReduction == 0.0
  {
  }

  /** Averages multiplied back by the guarded divisor give the one-off-adjusted totals. */
  lemma UnderlyingTotals(data: CoachingData)
    ensures var d := MonthDivisor(|data.monthlyData|);
      && AvgMonthlyIncome(data) * d
         == SumOver(data.monthlyData, Credit) - SumOver(data.monthlyData, OneOffCredits)
      && AvgMonthlyExpenses(data) * d
         == SumOver(data.monthlyData, Debit) - SumOver(data.monthlyData, OneOffDebits)
  {
    SumOverDifference(data.monthlyData, UnderlyingIncome, Credit, OneOffCredits);
    SumOverDifference(data.monthlyData, UnderlyingExpense, Debit, OneOffDebits);
  }

  /** The two guarded ratios: no income means a 0% rate, no baseline means 0% improvement. */
  lemma RatioGuards(data: CoachingData)
    ensures AvgMonthlyIncome(data) <= 0.0 ==> SavingsRate(data) == 0.0
    ensures data.firstReportSavingsRate <= 0.0 ==> BeatingPreviousPercent(data) == 0.0
  {
  }

  /** The average reduction times the guarded divisor is the unclamped total. */
  lemma DebtReductionAverage(data: CoachingData)
    ensures AvgMonthlyDebtReduction(data) * MonthDivisor(|data.monthlyData|) == TotalDebtReduction(data)
  {
  }

  /** A single month that grew the balance gives a negative, unclamped reduction. */
  lemma NegativeReductionExample(data: CoachingData)
    requires |data.monthlyData| == 1
    requires data.monthlyData[0].debit == 1000.0 && data.monthlyData[0].credit == 1500.0
    requires data.monthlyData[0].loanBalance == 99000.0 && data.currentLoanBalance == 99000.0
    ensures OpeningBalance(data) == 98500.0
    ensures TotalDebtReduction(data) == -500.0 && AvgMonthlyDebtReduction(data) == -500.0
  {
  }

  /** Improvement over the first report is positive exactly when the rate went up. */
  lemma ImprovementSign(data: CoachingData)
    requires data.firstReportSavingsRate > 0.0
    ensures BeatingPreviousPercent(data) > 0.0 <==> SavingsRate(data) > data.firstReportSavingsRate
    ensures BeatingPreviousPercent(data) >= 10.0 <==> SavingsRate(data) >= data.firstReportSavingsRate * 1.1
  {
    var sr := SavingsRate(data);
    var f := data.firstReportSavingsRate;
    var q := (sr - f) / f;
    assert q * f == sr - f;
    assert BeatingPreviousPercent(data) == q * 100.0;
    ScaledThreshold(q, 0.1, f, sr - f);
    ScaledThreshold(q, 0.0, f, sr - f);
  }

  /** For a positive f with q·f = d, comparing q with t is comparing d with t·f. */
  lemma ScaledThreshold(q: real, t: real, f: real, d: real)
    requires f > 0.0 && q * f == d
    ensures q >= t <==> d >= t * f
    ensures q > t <==> d > t * f
  {
    assert (q - t) * f == d - t * f;
    if q > t {
      assert (q - t) * f > 0.0;
    } else if q == t {
      assert d == t * f;
    } else {
      assert (t - q) * f > 0.0;
    }
  }

  lemma MulCancel(a: real, b: real, f: real)
    requires f > 0.0
    ensures a * f >= b * f <==> a >= b
    ensures a * f > b * f <==> a > b
  {
    if a < b {
      assert (b - a) * f > 0.0;
    }
    if a > b {
      assert (a - b) * f > 0.0;
    }
  }

  // ---------------------------------------------------------------------
  // Redraw totals

  lemma ActiveRedrawTotalAppend(rs: seq<RedrawRecord>, r: RedrawRecord)
    ensures ActiveRedrawTotal(rs + [r]) == ActiveRedrawTotal(rs) + (if r.excluded then 0.0 else r.amount)
  {
    assert (rs + [r])[..|rs|] == rs;
  }

  /** Replacing an excluded record by another excluded record leaves the total alone. */
  lemma {:induction false} ExcludedChangeIgnored(rs: seq<RedrawRecord>, i: nat, r: RedrawRecord)
    requires i < |rs| && rs[i].excluded && r.excluded
    ensures ActiveRedrawTotal(rs[i := r]) == ActiveRedrawTotal(rs)
    decreases |rs|
  {
    var n := |rs|;
    var init := rs[..n - 1];
    assert rs == init + [rs[n - 1]];
    if i == n - 1 {
      assert rs[i := r] == init + [r];
      ActiveRedrawTotalAppend(init, r);
      ActiveRedrawTotalAppend(init, rs[n - 1]);
    } else {
      assert rs[i := r] == init[i := r] + [rs[n - 1]];
      ExcludedChangeIgnored(init, i, r);
      ActiveRedrawTotalAppend(init[i := r], rs[n - 1]);
      ActiveRedrawTotalAppend(init, rs[n - 1]);
    }
  }

  /** Only the non-excluded records reach the aggregate. */
  lemma RedrawTotalsIgnoreExcluded(data: CoachingData, r: RedrawRecord)
    requires r.excluded
    ensures PerformCalculations(data.(additionalRedraws := data.additionalRedraws + [r])) == PerformCalculations(data)
  {
    ActiveRedrawTotalAppend(data.additionalRedraws, r);
    CalculationInputsDetermineResults(data.(additionalRedraws := data.additionalRedraws + [r]), data);
  }

  // ---------------------------------------------------------------------
  // Loan-to-value and ownership

  lemma NoValuationNoLVR(data: CoachingData)
    requires data.currentPropertyValuation <= 0.0
    ensures CurrentLVR(data) == 0.0
    ensures Ownership(CurrentLVR(data)) == HomeOwnership(100.0, 0.0)
  {
  }

  /**
   * With a positive valuation the bank's share is the LVR capped at 100; it
   * is only capped above, so a negative balance gives a negative share.
   */
  lemma OwnershipSplit(data: CoachingData)
    requires data.currentPropertyValuation > 0.0
    ensures CurrentLVR(data) * data.currentPropertyValuation == data.currentLoanBalance * 100.0
    ensures var h := Ownership(CurrentLVR(data));
      && (data.currentLoanBalance >= 0.0 ==> 0.0 <= h.bankOwns <= 100.0 && 0.0 <= h.youOwn <= 100.0)
      && (data.currentLoanBalance < 0.0 ==> h.bankOwns < 0.0)
      && (data.currentLoanBalance >= data.currentPropertyValuation <==> h.youOwn == 0.0)
  {
    var v := data.currentPropertyValuation;
    var q := data.currentLoanBalance / v;
    assert q * v == data.currentLoanBalance;
    assert CurrentLVR(data) == q * 100.0;
    MulCancel(q, 1.0, v);
    MulCancel(q, 0.0, v);
  }

  // ---------------------------------------------------------------------
  // The twelve steps

  lemma StepRules(data: CoachingData, avgMonthlyExpenses: real, savingsRate: real)
    ensures var s := StepsStatus(data, avgMonthlyExpenses, savingsRate);
      && s[6] == Discretion
      && s[10] == (if 10 in data.manualOverrides then data.manualOverrides[10] else No)
      && (s[12] == Yes <==> data.currentLoanBalance <= 0.0)
      && (s[3] == Yes <==> !data.hasExternalDebts)
      && (s[1] == Yes <==> data.currentAvailableRedraw >= 2000.0)
      && (s[8] == Yes <==> savingsRate >= data.firstReportSavingsRate * 1.1)
  {
  }

  /** The buffer steps 2 and 4 and the debt-down steps 5, 7, 9 and 11, in both directions. */
  lemma ThresholdStepRules(data: CoachingData, avgMonthlyExpenses: real, savingsRate: real)
    ensures var s := StepsStatus(data, avgMonthlyExpenses, savingsRate);
      && (s[2] == Yes <==> data.currentAvailableRedraw >= avgMonthlyExpenses)
      && (s[4] == Yes <==> data.currentAvailableRedraw >= avgMonthlyExpenses * 3.0)
      && (s[5] == Yes <==> data.currentLoanBalance <= data.settlementLoanAmount * 0.9)
      && (s[7] == Yes <==> data.currentLoanBalance <= data.settlementLoanAmount * 0.75)
      && (s[9] == Yes <==> data.currentLoanBalance <= data.settlementLoanAmount * 0.5)
      && (s[11] == Yes <==> data.currentLoanBalance <= data.settlementLoanAmount * 0.25)
  {
  }

  /** Every step other than 6 and 10 is calculated as YES or NO. */
  lemma StepsYesOrNo(data: CoachingData, avgMonthlyExpenses: real, savingsRate: real)
    ensures var s := StepsStatus(data, avgMonthlyExpenses, savingsRate);
      forall k :: 1 <= k <= 12 && k != 6 && k != 10 ==> s[k] == Yes || s[k] == No
  {
  }

  /** With a non-negative settlement amount the debt-down steps are nested. */
  lemma DebtStepsNested(data: CoachingData, avgMonthlyExpenses: real, savingsRate: real)
    requires data.settlementLoanAmount >= 0.0
    ensures var s := StepsStatus(data, avgMonthlyExpenses, savingsRate);
      && (s[12] == Yes ==> s[11] == Yes)
      && (s[11] == Yes ==> s[9] == Yes)
      && (s[9] == Yes ==> s[7] == Yes)
      && (s[7] == Yes ==> s[5] == Yes)
  {
  }

  /** With non-negative average expenses, three months' buffer implies one month's. */
  lemma BufferStepsNested(data: CoachingData, avgMonthlyExpenses: real, savingsRate: real)
    requires avgMonthlyExpenses >= 0.0
    ensures var s := StepsStatus(data, avgMonthlyExpenses, savingsRate);
      s[4] == Yes ==> s[2] == Yes
  {
  }

  /**
   * The snapshot fields the aggregator reads; the overrides only through
   * step 10. Two snapshots that agree on them have the same results.
   */
  predicate SameCalculationInputs(d1: CoachingData, d2: CoachingData)
  {
    && d1.monthlyData == d2.monthlyData
    && d1.previousBalance6Months == d2.previousBalance6Months
    && d1.currentLoanBalance == d2.currentLoanBalance
    && ActiveRedrawTotal(d1.additionalRedraws) == ActiveRedrawTotal(d2.additionalRedraws)
    && d1.currentAvailableRedraw == d2.currentAvailableRedraw
    && d1.hasExternalDebts == d2.hasExternalDebts
    && d1.settlementLoanAmount == d2.settlementLoanAmount
    && d1.firstReportSavingsRate == d2.firstReportSavingsRate
    && d1.currentPropertyValuation == d2.currentPropertyValuation
    && d1.proposedFlexAmount == d2.proposedFlexAmount
    && (10 in d1.manualOverrides <==> 10 in d2.manualOverrides)
    && (10 in d1.manualOverrides ==> d1.manualOverrides[10] == d2.manualOverrides[10])
  }

  lemma CalculationInputsDetermineResults(d1: CoachingData, d2: CoachingData)
    requires SameCalculationInputs(d1, d2)
    ensures PerformCalculations(d1) == PerformCalculations(d2)
  {
    SameInputsSameAverages(d1, d2);
    SameInputsSameProjections(d1, d2);
    SameInputsSameSteps(d1, d2, AvgMonthlyExpenses(d1), SavingsRate(d1));
  }

  lemma SameInputsSameSteps(d1: CoachingData, d2: CoachingData, avgMonthlyExpenses: real, savingsRate: real)
    requires SameCalculationInputs(d1, d2)
    ensures StepsStatus(d1, avgMonthlyExpenses, savingsRate) == StepsStatus(d2, avgMonthlyExpenses, savingsRate)
  {
  }

  lemma SameInputsSameAverages(d1: CoachingData, d2: CoachingData)
    requires SameCalculationInputs(d1, d2)
    ensures TotalDebtReduction(d1) == TotalDebtReduction(d2)
    ensures AvgMonthlyDebtReduction(d1) == AvgMonthlyDebtReduction(d2)
    ensures AvgMonthlyIncome(d1) == AvgMonthlyIncome(d2)
    ensures AvgMonthlyExpenses(d1) == AvgMonthlyExpenses(d2)
    ensures SavingsRate(d1) == SavingsRate(d2)
    ensures BeatingPreviousPercent(d1) == BeatingPreviousPercent(d2)
  {
  }

  lemma SameInputsSameProjections(d1: CoachingData, d2: CoachingData)
    requires SameCalculationInputs(d1, d2)
    ensures CurrentLVR(d1) == CurrentLVR(d2)
    ensures StandardMonthlyInterest(d1) == StandardMonthlyInterest(d2)
    ensures MonthsRemainingBase(d1) == MonthsRemainingBase(d2)
    ensures MonthsRemainingFlex(d1) == MonthsRemainingFlex(d2)
  {
    SameInputsSameAverages(d1, d2);
  }

  /** Overrides of any step other than 10 do not reach the results at all. */
  lemma OverridesReachOnlyStepTen(data: CoachingData, overrides: map<int, StepStatus>)
    requires (10 in overrides) == (10 in data.manualOverrides)
    requires 10 in overrides ==> overrides[10] == data.manualOverrides[10]
    ensures PerformCalculations(data.(manualOverrides := overrides)) == PerformCalculations(data)
  {
    CalculationInputsDetermineResults(data.(manualOverrides := overrides), data);
  }

  // ---------------------------------------------------------------------
  // Trailing six months

  /** With consistent rows the trailing figure is the sum of the rows' own reductions. */
  lemma TrailingReductionOfConsistentRows(data: CoachingData)
    requires forall i :: 0 <= i < |data.monthlyData| ==> Consistent(data.monthlyData[i])
    ensures PerformCalculations(data).last6MonthsReduction
         == SumOver(LastSix(data.monthlyData), RecordedReduction)
  {
    var ms := data.monthlyData;
    var t := LastSix(ms);
    forall i | 0 <= i < |t| ensures NetReduction(t[i]) == t[i].actualDebtReduction {
      assert t[i] == ms[|ms| - |t| + i];
    }
    SumOverAgrees(t, NetReduction, RecordedReduction);
  }

  /** Once six rows exist, a new row slides the window: the oldest of the six drops out. */
  lemma TrailingWindowSlides(ms: seq<MonthlyRecord>, m: MonthlyRecord)
    requires |ms| >= 6
    ensures SumOver(LastSix(ms + [m]), NetReduction)
         == SumOver(LastSix(ms), NetReduction) - NetReduction(LastSix(ms)[0]) + NetReduction(m)
  {
    var t := LastSix(ms);
    var t' := LastSix(ms + [m]);
    assert t' == t[1..] + [m];
    assert t == [t[0]] + t[1..];
    SumOverCons(t[0], t[1..], NetReduction);
    assert (t[1..] + [m])[..|t[1..]|] == t[1..];
  }

  // ---------------------------------------------------------------------
  // Projection heuristics

  lemma {:induction false} DivisionAntitone(x: real, p: real, q: real)
    requires x >= 0.0 && 1.0 <= p <= q
    ensures x / q <= x / p
  {
    var a := x / p;
    var b := x / q;
    assert a * p == x && b * q == x;
    assert b * p <= b * q;
    assert b * p <= a * p;
  }

  lemma {:induction false} JsRoundMonotone(x: real, y: real)
    requires x <= y
    ensures JsRound(x) <= JsRound(y)
  {
  }

  /** For a non-negative balance, years saved lie in [0, 30]. */
  lemma YearsSavedBounds(data: CoachingData)
    requires data.currentLoanBalance >= 0.0
    ensures MonthsRemainingBase(data) >= 0.0 && MonthsRemainingFlex(data) >= 0.0
    ensures 0 <= YearsSaved(MonthsRemainingBase(data)) <= 30
    ensures 0 <= YearsSaved(MonthsRemainingFlex(data)) <= 30
  {
  }

  /** A non-negative flex amount never lengthens the projection or loses years saved. */
  lemma {:induction false} FlexNotSlower(data: CoachingData)
    requires data.currentLoanBalance >= 0.0 && data.proposedFlexAmount >= 0.0
    ensures var r := PerformCalculations(data);
      && MonthsRemaining(data.currentLoanBalance, r.avgMonthlyDebtReduction + data.proposedFlexAmount)
         <= r.monthsToDebtFree
      && r.yearsSavedFlex >= r.yearsSavedBase
  {
    var r := PerformCalculations(data);
    var b := data.currentLoanBalance;
    var a := r.avgMonthlyDebtReduction;
    var f := data.proposedFlexAmount;
    DivisionAntitone(b, Max(1.0, a), Max(1.0, a + f));
    var mb := MonthsRemaining(b, a);
    var mf := MonthsRemaining(b, a + f);
    JsRoundMonotone(Max(0.0, 30.0 - mb / 12.0), Max(0.0, 30.0 - mf / 12.0));
  }
}
