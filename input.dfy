/**
 * The data-entry editors: one field of the snapshot, one cell of the
 * monthly table (with the derived columns recomputed), and a new month
 * appended to the table.
 *
 * The table handlers read the rows the editor was rendered with and write
 * the result into the latest snapshot; `rendered` is that render-time copy.
 */
module Input {
  import opened Types
  import opened Calculations

  // ---------------------------------------------------------------------
  // Monthly rows

  /** The columns of a monthly row. */
  datatype RowField =
    | MonthLabel | DebitCol | CreditCol | LoanBalanceCol | OneOffDebitsCol
    | OneOffCreditsCol | RedrawsCol | DebtReductionCol | SavingsRateCol

  datatype RowValue = Label(text: string) | Amount(value: real)

  /** `updateMonthlyData(index, field, value)`: the column and the value written into it. */
  datatype RowEdit =
    | SetMonth(name: string)
    | SetDebit(debit: real)
    | SetCredit(credit: real)
    | SetLoanBalance(balance: real)
    | SetOneOffDebits(oneOffDebits: real)
    | SetOneOffCredits(oneOffCredits: real)
    | SetRedraws(redraws: real)
    | SetDebtReduction(reduction: real)
    | SetSavingsRate(rate: real)

  function FieldOf(e: RowEdit): RowField
  {
    match e
    case SetMonth(_) => MonthLabel
    case SetDebit(_) => DebitCol
    case SetCredit(_) => CreditCol
    case SetLoanBalance(_) => LoanBalanceCol
    case SetOneOffDebits(_) => OneOffDebitsCol
    case SetOneOffCredits(_) => OneOffCreditsCol
    case SetRedraws(_) => RedrawsCol
    case SetDebtReduction(_) => DebtReductionCol
    case SetSavingsRate(_) => SavingsRateCol
  }

  function ValueOf(e: RowEdit): RowValue
  {
    match e
    case SetMonth(l) => Label(l)
    case SetDebit(x) => Amount(x)
    case SetCredit(x) => Amount(x)
    case SetLoanBalance(x) => Amount(x)
    case SetOneOffDebits(x) => Amount(x)
    case SetOneOffCredits(x) => Amount(x)
    case SetRedraws(x) => Amount(x)
    case SetDebtReduction(x) => Amount(x)
    case SetSavingsRate(x) => Amount(x)
  }

  function Get(m: MonthlyRecord, f: RowField): RowValue
  {
    match f
    case MonthLabel => Label(m.month)
    case DebitCol => Amount(m.debit)
    case CreditCol => Amount(m.credit)
    case LoanBalanceCol => Amount(m.loanBalance)
    case OneOffDebitsCol => Amount(m.oneOffDebitsRemoved)
    case OneOffCreditsCol => Amount(m.oneOffCreditsRemoved)
    case RedrawsCol => Amount(m.redraws)
    case DebtReductionCol => Amount(m.actualDebtReduction)
    case SavingsRateCol => Amount(m.savingsRate)
  }

  /** `{ ...row, [field]: value }`. */
  function Assign(m: MonthlyRecord, e: RowEdit): MonthlyRecord
  {
    match e
    case SetMonth(l) => m.(month := l)
    case SetDebit(x) => m.(debit := x)
    case SetCredit(x) => m.(credit := x)
    case SetLoanBalance(x) => m.(loanBalance := x)
    case SetOneOffDebits(x) => m.(oneOffDebitsRemoved := x)
    case SetOneOffCredits(x) => m.(oneOffCreditsRemoved := x)
    case SetRedraws(x) => m.(redraws := x)
    case SetDebtReduction(x) => m.(actualDebtReduction := x)
    case SetSavingsRate(x) => m.(savingsRate := x)
  }

  /** Edits of credit, debit or one-off credits recompute the two derived columns. */
  predicate Recomputes(e: RowEdit)
  {
    e.SetCredit? || e.SetDebit? || e.SetOneOffCredits?
  }

  predicate Derived(f: RowField)
  {
    f == DebtReductionCol || f == SavingsRateCol
  }

  /** The row after the edit, as the handler leaves it. */
  function EditedRow(m: MonthlyRecord, e: RowEdit): (r: MonthlyRecord)
    ensures Get(r, FieldOf(e)) == ValueOf(e)
    ensures forall f :: f != FieldOf(e) && !(Derived(f) && Recomputes(e)) ==> Get(r, f) == Get(m, f)
    ensures Recomputes(e) ==> Consistent(r)
  {
    var row := Assign(m, e);
    if Recomputes(e) then
      row.(actualDebtReduction := row.credit - row.debit - row.oneOffCreditsRemoved,
           savingsRate := if row.credit > 0.0 then (row.credit - row.debit) / row.credit * 100.0 else 0.0)
    else row
  }

  /**
   * Copies the rendered rows into a fresh array, edits row `index` in place,
   * recomputes its derived columns when credit, debit or one-off credits
   * changed, and stores the copy in the latest snapshot.
   */
  method UpdateMonthlyData(prev: CoachingData, rendered: seq<MonthlyRecord>, index: nat, e: RowEdit)
    returns (next: CoachingData)
    requires index < |rendered|
    ensures next == prev.(monthlyData := rendered[index := EditedRow(rendered[index], e)])
  {
    var newData := new MonthlyRecord[|rendered|](i requires 0 <= i < |rendered| => rendered[i]);
    assert newData[..] == rendered;
    newData[index] := Assign(newData[index], e);
    if e.SetCredit? || e.SetDebit? || e.SetOneOffCredits? {
      var credit := newData[index].credit;
      var debit := newData[index].debit;
      var removed := newData[index].oneOffCreditsRemoved;
      newData[index] := newData[index].(actualDebtReduction := credit - debit - removed);
      newData[index] := newData[index].(savingsRate := if credit > 0.0 then ((credit - debit) / credit) * 100.0 else 0.0);
    }
    next := prev.(monthlyData := newData[..]);
  }

  /** The month names used for new rows. */
  const MonthNames: seq<string> := ["January", "February", "March", "April", "May", "June", "July",
                                    "August", "September", "October", "November", "December"]

  /** The row `addMonth` builds from the rendered snapshot. */
  function NextRow(rendered: CoachingData): (r: MonthlyRecord)
    ensures r.month == MonthNames[|rendered.monthlyData| % 12]
    ensures r.debit == 0.0 && r.credit == 0.0 && r.oneOffDebitsRemoved == 0.0
    ensures r.oneOffCreditsRemoved == 0.0 && r.redraws == 0.0
    ensures r.actualDebtReduction == 0.0 && r.savingsRate == 0.0
    ensures |rendered.monthlyData| > 0 && rendered.monthlyData[|rendered.monthlyData| - 1].loanBalance != 0.0
            ==> r.loanBalance == rendered.monthlyData[|rendered.monthlyData| - 1].loanBalance
    ensures (|rendered.monthlyData| == 0 || rendered.monthlyData[|rendered.monthlyData| - 1].loanBalance == 0.0)
            ==> r.loanBalance == rendered.settlementLoanAmount
  {
    var rows := rendered.monthlyData;
    var carried := if |rows| > 0 && rows[|rows| - 1].loanBalance != 0.0
                   then rows[|rows| - 1].loanBalance else rendered.settlementLoanAmount;
    MonthlyRecord(MonthNames[|rows| % 12], 0.0, 0.0, carried, 0.0, 0.0, 0.0, 0.0, 0.0)
  }

  /** `addMonth`: the new row, built from the rendered snapshot, appended to the latest rows. */
  function AddMonth(prev: CoachingData, rendered: CoachingData): (next: CoachingData)
    ensures next.(monthlyData := prev.monthlyData) == prev
    ensures |next.monthlyData| == |prev.monthlyData| + 1
    ensures next.monthlyData[..|prev.monthlyData|] == prev.monthlyData
    ensures next.monthlyData[|prev.monthlyData|] == NextRow(rendered)
  {
    prev.(monthlyData := prev.monthlyData + [NextRow(rendered)])
  }

  // ---------------------------------------------------------------------
  // Row properties

  /** The edited row obeys the same savings-rate formula as the aggregator. */
  lemma RecomputedRateFormula(m: MonthlyRecord, e: RowEdit)
    requires Recomputes(e)
    ensures var r := EditedRow(m, e);
      && r.actualDebtReduction == r.credit - r.debit - r.oneOffCreditsRemoved
      && (r.credit > 0.0 ==> r.savingsRate * r.credit == (r.credit - r.debit) * 100.0)
      && (r.credit <= 0.0 ==> r.savingsRate == 0.0)
  {
  }

  /** Editing any other column leaves the derived columns as they were. */
  lemma OtherEditKeepsDerived(m: MonthlyRecord, e: RowEdit)
    requires !Recomputes(e) && !Derived(FieldOf(e))
    ensures EditedRow(m, e).actualDebtReduction == m.actualDebtReduction
    ensures EditedRow(m, e).savingsRate == m.savingsRate
  {
    assert Get(EditedRow(m, e), DebtReductionCol) == Get(m, DebtReductionCol);
    assert Get(EditedRow(m, e), SavingsRateCol) == Get(m, SavingsRateCol);
  }

  /** A consistent row stays consistent under every edit except a direct write to a derived column. */
  lemma EditKeepsConsistent(m: MonthlyRecord, e: RowEdit)
    requires Consistent(m) && !Derived(FieldOf(e))
    ensures Consistent(EditedRow(m, e))
  {
  }

  /** Applying the same edit twice is applying it once. */
  lemma EditIdempotent(m: MonthlyRecord, e: RowEdit)
    ensures EditedRow(EditedRow(m, e), e) == EditedRow(m, e)
  {
  }

  /** With a fresh render, only row `index` changes and the table keeps its length. */
  lemma UpdateTouchesOneRow(rows: seq<MonthlyRecord>, index: nat, e: RowEdit)
    requires index < |rows|
    ensures var out := rows[index := EditedRow(rows[index], e)];
      && |out| == |rows|
      && (forall i :: 0 <= i < |rows| && i != index ==> out[i] == rows[i])
      && Get(out[index], FieldOf(e)) == ValueOf(e)
  {
  }

  /** A table of consistent rows stays consistent after a non-derived edit. */
  lemma UpdateKeepsTableConsistent(rows: seq<MonthlyRecord>, index: nat, e: RowEdit)
    requires index < |rows| && !Derived(FieldOf(e))
    requires forall i :: 0 <= i < |rows| ==> Consistent(rows[i])
    ensures var out := rows[index := EditedRow(rows[index], e)];
      forall i :: 0 <= i < |out| ==> Consistent(out[i])
  {
    EditKeepsConsistent(rows[index], e);
  }

  /** A new row is consistent: its reduction and rate are those of an empty month. */
  lemma NextRowConsistent(rendered: CoachingData)
    ensures Consistent(NextRow(rendered))
    ensures NetReduction(NextRow(rendered)) == 0.0
  {
  }

  /** Month labels cycle: twelve more rows give the same label again. */
  lemma LabelsCycle(rendered: CoachingData, extra: seq<MonthlyRecord>)
    requires |extra| == 12
    ensures NextRow(rendered.(monthlyData := rendered.monthlyData + extra)).month == NextRow(rendered).month
  {
    var n := |rendered.monthlyData|;
    assert |rendered.monthlyData + extra| == n + 12;
    assert (n + 12) % 12 == n % 12;
  }

  /**
   * The first month added to an empty table opens at the settlement amount,
   * which the aggregator then takes as the opening balance when it is non-zero.
   */
  lemma FirstMonthOpensAtSettlement(data: CoachingData)
    requires |data.monthlyData| == 0
    ensures var next := AddMonth(data, data);
      && next.monthlyData == [NextRow(data)]
      && NextRow(data).loanBalance == data.settlementLoanAmount
      && OpeningBalance(next) == (if data.settlementLoanAmount != 0.0 then data.settlementLoanAmount
                                  else data.previousBalance6Months)
  {
  }

  // ---------------------------------------------------------------------
  // Snapshot fields

  /** The fields of the snapshot. */
  datatype SnapshotField =
    | ClientEmail | SettlementDate | SettlementLoanAmount | HouseholdNames | PropertyAddress
    | PropertyImageUrl | StartDate | EndDate | OriginalDebtFreeDate | PreviousOODDate
    | FirstReportSavingsRate | PreviousBalance90Days | PreviousBalance6Months
    | PreviousLoan90Days | PreviousLoan6Months | MonthlyData | CurrentLoanBalance
    | CurrentAvailableRedraw | AdditionalRedraws | WeeklySpendingAmount
    | ProposedWeeklySpendingAmount | WeeklySpendingDayField | HasExternalDebts
    | CurrentPropertyValuation | ProposedFlexAmount | ReviewPeriod | Recommendations
    | ClosingThoughts | FinancialGoals | RawRedrawsText | CoachNotes | ManualOverrides

  datatype FieldValue =
    | Text(s: string)
    | Money(x: real)
    | Flag(b: bool)
    | Day(d: WeeklySpendingDay)
    | Period(p: ReviewPeriodType)
    | Rows(rows: seq<MonthlyRecord>)
    | RedrawList(redraws: seq<RedrawRecord>)
    | Lines(lines: seq<string>)
    | Goals(goals: seq<FinancialGoal>)
    | Overrides(overrides: map<int, StepStatus>)

  /** The value field `f` holds. */
  function Read(d: CoachingData, f: SnapshotField): FieldValue
  {
    match f
    case ClientEmail => Text(d.clientEmail)
    case SettlementDate => Text(d.settlementDate)
    case SettlementLoanAmount => Money(d.settlementLoanAmount)
    case HouseholdNames => Text(d.householdNames)
    case PropertyAddress => Text(d.propertyAddress)
    case PropertyImageUrl => Text(d.propertyImageUrl)
    case StartDate => Text(d.startDate)
    case EndDate => Text(d.endDate)
    case OriginalDebtFreeDate => Text(d.originalDebtFreeDate)
    case PreviousOODDate => Text(d.previousOODDate)
    case FirstReportSavingsRate => Money(d.firstReportSavingsRate)
    case PreviousBalance90Days => Money(d.previousBalance90Days)
    case PreviousBalance6Months => Money(d.previousBalance6Months)
    case PreviousLoan90Days => Money(d.previousLoan90Days)
    case PreviousLoan6Months => Money(d.previousLoan6Months)
    case MonthlyData => Rows(d.monthlyData)
    case CurrentLoanBalance => Money(d.currentLoanBalance)
    case CurrentAvailableRedraw => Money(d.currentAvailableRedraw)
    case AdditionalRedraws => RedrawList(d.additionalRedraws)
    case WeeklySpendingAmount => Money(d.weeklySpendingAmount)
    case ProposedWeeklySpendingAmount => Money(d.proposedWeeklySpendingAmount)
    case WeeklySpendingDayField => Day(d.weeklySpendingDay)
    case HasExternalDebts => Flag(d.hasExternalDebts)
    case CurrentPropertyValuation => Money(d.currentPropertyValuation)
    case ProposedFlexAmount => Money(d.proposedFlexAmount)
    case ReviewPeriod => Period(d.reviewPeriodType)
    case Recommendations => Lines(d.recommendations)
    case ClosingThoughts => Text(d.closingThoughts)
    case FinancialGoals => Goals(d.financialGoals)
    case RawRedrawsText => Text(d.rawRedrawsText)
    case CoachNotes => Text(d.coachNotes)
    case ManualOverrides => Overrides(d.manualOverrides)
  }

  /** The value has the type of the field. */
  predicate Fits(f: SnapshotField, v: FieldValue)
  {
    match f
    case SettlementLoanAmount | FirstReportSavingsRate | PreviousBalance90Days | PreviousBalance6Months
       | PreviousLoan90Days | PreviousLoan6Months | CurrentLoanBalance | CurrentAvailableRedraw
       | WeeklySpendingAmount | ProposedWeeklySpendingAmount | CurrentPropertyValuation
       | ProposedFlexAmount => v.Money?
    case MonthlyData => v.Rows?
    case AdditionalRedraws => v.RedrawList?
    case WeeklySpendingDayField => v.Day?
    case HasExternalDebts => v.Flag?
    case ReviewPeriod => v.Period?
    case Recommendations => v.Lines?
    case FinancialGoals => v.Goals?
    case ManualOverrides => v.Overrides?
    case _ => v.Text?
  }

  /** `handleChange(field, value)`: `{ ...prev, [field]: value }`. */
  function HandleChange(prev: CoachingData, f: SnapshotField, v: FieldValue): (next: CoachingData)
    requires Fits(f, v)
    ensures Read(next, f) == v
  {
    match f
    case ClientEmail => prev.(clientEmail := v.s)
    case SettlementDate => prev.(settlementDate := v.s)
    case SettlementLoanAmount => prev.(settlementLoanAmount := v.x)
    case HouseholdNames => prev.(householdNames := v.s)
    case PropertyAddress => prev.(propertyAddress := v.s)
    case PropertyImageUrl => prev.(propertyImageUrl := v.s)
    case StartDate => prev.(startDate := v.s)
    case EndDate => prev.(endDate := v.s)
    case OriginalDebtFreeDate => prev.(originalDebtFreeDate := v.s)
    case PreviousOODDate => prev.(previousOODDate := v.s)
    case FirstReportSavingsRate => prev.(firstReportSavingsRate := v.x)
    case PreviousBalance90Days => prev.(previousBalance90Days := v.x)
    case PreviousBalance6Months => prev.(previousBalance6Months := v.x)
    case PreviousLoan90Days => prev.(previousLoan90Days := v.x)
    case PreviousLoan6Months => prev.(previousLoan6Months := v.x)
    case MonthlyData => prev.(monthlyData := v.rows)
    case CurrentLoanBalance => prev.(currentLoanBalance := v.x)
    case CurrentAvailableRedraw => prev.(currentAvailableRedraw := v.x)
    case AdditionalRedraws => prev.(additionalRedraws := v.redraws)
    case WeeklySpendingAmount => prev.(weeklySpendingAmount := v.x)
    case ProposedWeeklySpendingAmount => prev.(proposedWeeklySpendingAmount := v.x)
    case WeeklySpendingDayField => prev.(weeklySpendingDay := v.d)
    case HasExternalDebts => prev.(hasExternalDebts := v.b)
    case CurrentPropertyValuation => prev.(currentPropertyValuation := v.x)
    case ProposedFlexAmount => prev.(proposedFlexAmount := v.x)
    case ReviewPeriod => prev.(reviewPeriodType := v.p)
    case Recommendations => prev.(recommendations := v.lines)
    case ClosingThoughts => prev.(closingThoughts := v.s)
    case FinancialGoals => prev.(financialGoals := v.goals)
    case RawRedrawsText => prev.(rawRedrawsText := v.s)
    case CoachNotes => prev.(coachNotes := v.s)
    case ManualOverrides => prev.(manualOverrides := v.overrides)
  }

  /** The written field reads back the new value. */
  lemma ChangeReadsBack(prev: CoachingData, f: SnapshotField, v: FieldValue)
    requires Fits(f, v)
    ensures Read(HandleChange(prev, f, v), f) == v
  {
    match f
    case ClientEmail => {}
    case SettlementDate => {}
    case SettlementLoanAmount => {}
    case HouseholdNames => {}
    case PropertyAddress => {}
    case PropertyImageUrl => {}
    case StartDate => {}
    case EndDate => {}
    case OriginalDebtFreeDate => {}
    case PreviousOODDate => {}
    case FirstReportSavingsRate => {}
    case PreviousBalance90Days => {}
    case PreviousBalance6Months => {}
    case PreviousLoan90Days => {}
    case PreviousLoan6Months => {}
    case MonthlyData => {}
    case CurrentLoanBalance => {}
    case CurrentAvailableRedraw => {}
    case AdditionalRedraws => {}
    case WeeklySpendingAmount => {}
    case ProposedWeeklySpendingAmount => {}
    case WeeklySpendingDayField => {}
    case HasExternalDebts => {}
    case CurrentPropertyValuation => {}
    case ProposedFlexAmount => {}
    case ReviewPeriod => {}
    case Recommendations => {}
    case ClosingThoughts => {}
    case FinancialGoals => {}
    case RawRedrawsText => {}
    case CoachNotes => {}
    case ManualOverrides => {}
  }

  /** Every other field keeps its value. */
  lemma ChangeKeepsOthers(prev: CoachingData, f: SnapshotField, v: FieldValue, g: SnapshotField)
    requires Fits(f, v) && g != f
    ensures Read(HandleChange(prev, f, v), g) == Read(prev, g)
  {
    match f
    case ClientEmail | SettlementDate => KeepsOthersClientEmailOrSettlementDate(prev, f, v, g);
    case SettlementLoanAmount | HouseholdNames => KeepsOthersSettlementLoanAmountOrHouseholdNames(prev, f, v, g);
    case PropertyAddress | PropertyImageUrl => KeepsOthersPropertyAddressOrPropertyImageUrl(prev, f, v, g);
    case StartDate | EndDate => KeepsOthersStartDateOrEndDate(prev, f, v, g);
    case OriginalDebtFreeDate | PreviousOODDate => KeepsOthersOriginalDebtFreeDateOrPreviousOODDate(prev, f, v, g);
    case FirstReportSavingsRate | PreviousBalance90Days => KeepsOthersFirstReportSavingsRateOrPreviousBalance90Days(prev, f, v, g);
    case PreviousBalance6Months | PreviousLoan90Days => KeepsOthersPreviousBalance6MonthsOrPreviousLoan90Days(prev, f, v, g);
    case PreviousLoan6Months | MonthlyData => KeepsOthersPreviousLoan6MonthsOrMonthlyData(prev, f, v, g);
    case CurrentLoanBalance | CurrentAvailableRedraw => KeepsOthersCurrentLoanBalanceOrCurrentAvailableRedraw(prev, f, v, g);
    case AdditionalRedraws | WeeklySpendingAmount => KeepsOthersAdditionalRedrawsOrWeeklySpendingAmount(prev, f, v, g);
    case ProposedWeeklySpendingAmount | WeeklySpendingDayField => KeepsOthersProposedWeeklySpendingAmountOrWeeklySpendingDayField(prev, f, v, g);
    case HasExternalDebts | CurrentPropertyValuation => KeepsOthersHasExternalDebtsOrCurrentPropertyValuation(prev, f, v, g);
    case ProposedFlexAmount | ReviewPeriod => KeepsOthersProposedFlexAmountOrReviewPeriod(prev, f, v, g);
    case Recommendations | ClosingThoughts => KeepsOthersRecommendationsOrClosingThoughts(prev, f, v, g);
    case FinancialGoals | RawRedrawsText => KeepsOthersFinancialGoalsOrRawRedrawsText(prev, f, v, g);
    case CoachNotes | ManualOverrides => KeepsOthersCoachNotesOrManualOverrides(prev, f, v, g);
  }

  // The frame of `HandleChange`, proved for two written fields at a time
  // (in declaration order): one lemma over all 32 fields is too costly for
  // the solver, so `ChangeKeepsOthers` dispatches to these.

  lemma KeepsOthersClientEmailOrSettlementDate(prev: CoachingData, f: SnapshotField, v: FieldValue, g: SnapshotField)
    requires Fits(f, v) && g != f && (f == ClientEmail || f == SettlementDate)
    ensures Read(HandleChange(prev, f, v), g) == Read(prev, g)
  {
    if f == ClientEmail {
    }
  }

  lemma KeepsOthersSettlementLoanAmountOrHouseholdNames(prev: CoachingData, f: SnapshotField, v: FieldValue, g: SnapshotField)
    requires Fits(f, v) && g != f && (f == SettlementLoanAmount || f == HouseholdNames)
    ensures Read(HandleChange(prev, f, v), g) == Read(prev, g)
  {
    if f == SettlementLoanAmount {
    }
  }

  lemma KeepsOthersPropertyAddressOrPropertyImageUrl(prev: CoachingData, f: SnapshotField, v: FieldValue, g: SnapshotField)
    requires Fits(f, v) && g != f && (f == PropertyAddress || f == PropertyImageUrl)
    ensures Read(HandleChange(prev, f, v), g) == Read(prev, g)
  {
    if f == PropertyAddress {
    }
  }

  lemma KeepsOthersStartDateOrEndDate(prev: CoachingData, f: SnapshotField, v: FieldValue, g: SnapshotField)
    requires Fits(f, v) && g != f && (f == StartDate || f == EndDate)
    ensures Read(HandleChange(prev, f, v), g) == Read(prev, g)
  {
    if f == StartDate {
    }
  }

  lemma KeepsOthersOriginalDebtFreeDateOrPreviousOODDate(prev: CoachingData, f: SnapshotField, v: FieldValue, g: SnapshotField)
    requires Fits(f, v) && g != f && (f == OriginalDebtFreeDate || f == PreviousOODDate)
    ensures Read(HandleChange(prev, f, v), g) == Read(prev, g)
  {
    if f == OriginalDebtFreeDate {
    }
  }

  lemma KeepsOthersFirstReportSavingsRateOrPreviousBalance90Days(prev: CoachingData, f: SnapshotField, v: FieldValue, g: SnapshotField)
    requires Fits(f, v) && g != f && (f == FirstReportSavingsRate || f == PreviousBalance90Days)
    ensures Read(HandleChange(prev, f, v), g) == Read(prev, g)
  {
    if f == FirstReportSavingsRate {
    }
  }

  lemma KeepsOthersPreviousBalance6MonthsOrPreviousLoan90Days(prev: CoachingData, f: SnapshotField, v: FieldValue, g: SnapshotField)
    requires Fits(f, v) && g != f && (f == PreviousBalance6Months || f == PreviousLoan90Days)
    ensures Read(HandleChange(prev, f, v), g) == Read(prev, g)
  {
    if f == PreviousBalance6Months {
    }
  }

  lemma KeepsOthersPreviousLoan6MonthsOrMonthlyData(prev: CoachingData, f: SnapshotField, v: FieldValue, g: SnapshotField)
    requires Fits(f, v) && g != f && (f == PreviousLoan6Months || f == MonthlyData)
    ensures Read(HandleChange(prev, f, v), g) == Read(prev, g)
  {
    if f == PreviousLoan6Months {
    }
  }

  lemma KeepsOthersCurrentLoanBalanceOrCurrentAvailableRedraw(prev: CoachingData, f: SnapshotField, v: FieldValue, g: SnapshotField)
    requires Fits(f, v) && g != f && (f == CurrentLoanBalance || f == CurrentAvailableRedraw)
    ensures Read(HandleChange(prev, f, v), g) == Read(prev, g)
  {
    if f == CurrentLoanBalance {
    }
  }

  lemma KeepsOthersAdditionalRedrawsOrWeeklySpendingAmount(prev: CoachingData, f: SnapshotField, v: FieldValue, g: SnapshotField)
    requires Fits(f, v) && g != f && (f == AdditionalRedraws || f == WeeklySpendingAmount)
    ensures Read(HandleChange(prev, f, v), g) == Read(prev, g)
  {
    if f == AdditionalRedraws {
    }
  }

  lemma KeepsOthersProposedWeeklySpendingAmountOrWeeklySpendingDayField(prev: CoachingData, f: SnapshotField, v: FieldValue, g: SnapshotField)
    requires Fits(f, v) && g != f && (f == ProposedWeeklySpendingAmount || f == WeeklySpendingDayField)
    ensures Read(HandleChange(prev, f, v), g) == Read(prev, g)
  {
    if f == ProposedWeeklySpendingAmount {
    }
  }

  lemma KeepsOthersHasExternalDebtsOrCurrentPropertyValuation(prev: CoachingData, f: SnapshotField, v: FieldValue, g: SnapshotField)
    requires Fits(f, v) && g != f && (f == HasExternalDebts || f == CurrentPropertyValuation)
    ensures Read(HandleChange(prev, f, v), g) == Read(prev, g)
  {
    if f == HasExternalDebts {
    }
  }

  lemma KeepsOthersProposedFlexAmountOrReviewPeriod(prev: CoachingData, f: SnapshotField, v: FieldValue, g: SnapshotField)
    requires Fits(f, v) && g != f && (f == ProposedFlexAmount || f == ReviewPeriod)
    ensures Read(HandleChange(prev, f, v), g) == Read(prev, g)
  {
    if f == ProposedFlexAmount {
    }
  }

  lemma KeepsOthersRecommendationsOrClosingThoughts(prev: CoachingData, f: SnapshotField, v: FieldValue, g: SnapshotField)
    requires Fits(f, v) && g != f && (f == Recommendations || f == ClosingThoughts)
    ensures Read(HandleChange(prev, f, v), g) == Read(prev, g)
  {
    if f == Recommendations {
    }
  }

  lemma KeepsOthersFinancialGoalsOrRawRedrawsText(prev: CoachingData, f: SnapshotField, v: FieldValue, g: SnapshotField)
    requires Fits(f, v) && g != f && (f == FinancialGoals || f == RawRedrawsText)
    ensures Read(HandleChange(prev, f, v), g) == Read(prev, g)
  {
    if f == FinancialGoals {
    }
  }

  lemma KeepsOthersCoachNotesOrManualOverrides(prev: CoachingData, f: SnapshotField, v: FieldValue, g: SnapshotField)
    requires Fits(f, v) && g != f && (f == CoachNotes || f == ManualOverrides)
    ensures Read(HandleChange(prev, f, v), g) == Read(prev, g)
  {
    if f == CoachNotes {
    }
  }

  /** Writing back the value a field already holds changes nothing. */
  lemma ChangeToSameValue(prev: CoachingData, f: SnapshotField)
    ensures Fits(f, Read(prev, f))
    ensures HandleChange(prev, f, Read(prev, f)) == prev
  {
  }

  /** The fields the aggregator reads. */
  predicate FeedsCalculations(f: SnapshotField)
  {
    f in {MonthlyData, PreviousBalance6Months, CurrentLoanBalance, AdditionalRedraws,
          CurrentAvailableRedraw, HasExternalDebts, SettlementLoanAmount, FirstReportSavingsRate,
          CurrentPropertyValuation, ProposedFlexAmount, ManualOverrides}
  }

  /** Editing a field the aggregator does not read leaves every result unchanged. */
  lemma DescriptiveChangeKeepsResults(prev: CoachingData, f: SnapshotField, v: FieldValue)
    requires Fits(f, v) && !FeedsCalculations(f)
    ensures PerformCalculations(HandleChange(prev, f, v)) == PerformCalculations(prev)
  {
    CalculationInputsDetermineResults(HandleChange(prev, f, v), prev);
  }
}
