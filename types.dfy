/**
 * Record shapes of the coaching tool: the household snapshot that every
 * editor replaces as a whole, the monthly performance rows, the redraw
 * records, and the derived calculation results. Money is `real`.
 */
module Types {

  /** The tri-state milestone status ('YES', 'NO', 'AT YOUR DISCRETION'). */
  datatype StepStatus = Yes | No | Discretion

  datatype ReviewPeriodType = NinetyDays | SixMonths | TwelveMonths

  datatype WeeklySpendingDay = Mon | Tue | Wed | Thu | Fri | Sat | Sun

  /** One discretionary withdrawal; `excluded` records are kept but not summed. */
  datatype RedrawRecord = RedrawRecord(
    id: string,
    date: string,
    amount: real,
    description: string,
    excluded: bool,
    month: Option<string>)

  datatype Option<T> = None | Some(value: T)

  datatype FinancialGoal = FinancialGoal(id: string, goal: string, progress: real)

  /** One calendar month of account activity. */
  datatype MonthlyRecord = MonthlyRecord(
    month: string,
    debit: real,
    credit: real,
    loanBalance: real,
    oneOffDebitsRemoved: real,
    oneOffCreditsRemoved: real,
    redraws: real,
    actualDebtReduction: real,
    savingsRate: real)

  /** The household snapshot (the aggregate root). */
  datatype CoachingData = CoachingData(
    clientEmail: string,
    settlementDate: string,
    settlementLoanAmount: real,
    householdNames: string,
    propertyAddress: string,
    propertyImageUrl: string,
    startDate: string,
    endDate: string,
    originalDebtFreeDate: string,
    previousOODDate: string,
    firstReportSavingsRate: real,
    previousBalance90Days: real,
    previousBalance6Months: real,
    previousLoan90Days: real,
    previousLoan6Months: real,
    monthlyData: seq<MonthlyRecord>,
    currentLoanBalance: real,
    currentAvailableRedraw: real,
    additionalRedraws: seq<RedrawRecord>,
    weeklySpendingAmount: real,
    proposedWeeklySpendingAmount: real,
    weeklySpendingDay: WeeklySpendingDay,
    hasExternalDebts: bool,
    currentPropertyValuation: real,
    proposedFlexAmount: real,
    reviewPeriodType: ReviewPeriodType,
    recommendations: seq<string>,
    closingThoughts: string,
    financialGoals: seq<FinancialGoal>,
    rawRedrawsText: string,
    coachNotes: string,
    manualOverrides: map<int, StepStatus>)

  /**
   * The numbers of the sentence "For every $100 you earn, you save $X and
   * you spend $Y"; the text formatting itself is not modelled.
   */
  datatype SavingsSentence = SavingsSentence(saved: real, spent: real)

  datatype HomeOwnership = HomeOwnership(youOwn: real, bankOwns: real)

  /**
   * The derived results. `monthsToDebtFree` is the number of months that
   * the source adds to today's date to render `currentDebtFreeDate`.
   */
  datatype CalculationResults = CalculationResults(
    totalDebtReduction: real,
    avgMonthlyDebtReduction: real,
    avgMonthlyIncome: real,
    avgMonthlyExpenses: real,
    savingsRate: real,
    savingsRateSentence: SavingsSentence,
    totalAdditionalRedraws: real,
    avgMonthlyAdditionalRedraws: real,
    currentLVR: real,
    homeOwnership: HomeOwnership,
    stepsStatus: map<int, StepStatus>,
    monthsToDebtFree: real,
    last6MonthsReduction: real,
    yearsSavedBase: int,
    moneySavedBase: real,
    yearsSavedFlex: int,
    moneySavedFlex: real,
    beatingPreviousPercent: real)

  /** The savings-rate formula shared by the aggregator and the row editor. */
  function SavingsRatePercent(income: real, expenses: real): (rate: real)
    ensures income <= 0.0 ==> rate == 0.0
    ensures income > 0.0 ==> rate * income == (income - expenses) * 100.0
    ensures income > 0.0 && expenses >= 0.0 ==> rate <= 100.0
    ensures income > 0.0 && expenses <= income ==> rate >= 0.0
  {
    if income > 0.0 then (income - expenses) / income * 100.0 else 0.0
  }

  /**
   * The row invariant kept by the row editor: the derived columns agree with
   * credit, debit and the one-off credits.
   */
  predicate Consistent(m: MonthlyRecord)
  {
    && m.actualDebtReduction == m.credit - m.debit - m.oneOffCreditsRemoved
    && m.savingsRate == SavingsRatePercent(m.credit, m.debit)
  }
}
