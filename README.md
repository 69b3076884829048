# 6-Months Coaching Tool — verified model of the calculation core

The coaching tool keeps one household snapshot: the monthly bank rows, the
loan balance, the redraw records, the milestone overrides and the
descriptive fields of a review. From that snapshot it derives every figure
of the review report. This project models that core in Dafny and proves
properties of it:

- **Metrics aggregator** (`Calculations`, `Types`). One total function
  from the snapshot to the results. It covers the opening balance, the
  total and average debt reduction, income and expenses with one-off
  amounts removed, the savings rate and its clamped sentence figures, the
  improvement over the first report, the total of the non-excluded
  redraws, LVR and the ownership split, the trailing six-month reduction,
  the twelve milestone rules and the "months remaining / years and money
  saved" heuristics.
- **Amortization projector** (`CurvedOOD`). The month-by-month loop is an
  imperative method with a `while` loop, an early return where the source
  has its `break`, and the inner padding loop (`PadFlat`). It is proved
  equal to a declarative projection built from the balance after `n` months and the first month that is not simulated in
  full. Its properties are proved about that projection: the horizon, the
  point count, the payoff point, the flat "never pays off" series, and the
  zero-interest and interest-only examples.
- **Milestone panel** (`Steps`). Setting and clearing an override, the
  status shown on each card, the completed count and the progress bar.
- **Redraw editor** (`Redraws`). Pasting statement lines, splitting them
  on the pattern `/\t|\s{2,}/`, cleaning the amount, and appending the
  records. Also adding a manual record, toggling exclusion, and deleting
  by id.
- **Data-entry editors** (`Input`). Replacing one snapshot field. Editing
  one cell of the monthly table, which recomputes the derived columns; this
  is a method that copies the rows into an array and edits one row in
  place. Appending the next month.
- **Export panel** (`Export`). The number of days in the review period,
  and the "12 Steps Completed" value with the text that reads it back.

Money is `real`. JavaScript's `Math.round` is `floor(x + 0.5)`. The `||`
fallbacks follow JavaScript truthiness: an empty string, zero and NaN all
take the fallback.

Where the code and the descriptive text around it disagree, the model
follows the code:

- The milestone criteria shown to the user use strict `>`/`<`, but the
  rules compare with `>=`/`<=`.
- `bankOwns` is only capped above at 100. A negative loan balance gives a
  negative bank share (`Calculations.OwnershipSplit`).
- Overrides do not replace the calculated statuses for the completed
  count, the progress bar or the export summary. Those read the
  calculated map, in which only step 10 consults an override
  (`Calculations.OverridesReachOnlyStepTen`,
  `Steps.StepOneOverrideShownNotCounted`).
- `oneOffDebitsRemoved` reduces expenses but never the net monthly
  reduction.
- The handlers `clearOverride`, `updateMonthlyData` and `addMonth` build
  their new value from the snapshot the component was rendered with. They
  write it into the latest snapshot, so the models take both
  (`Steps.ClearDropsLaterOverride`).

## Model

| member | source | states |
|---|---|---|
| Types.SavingsRatePercent | utils/calculations.ts:17 | no income gives 0; otherwise rate × income = (income − expenses) × 100; the rate lies in [0, 100] when 0 ≤ expenses ≤ income |
| Calculations.JsRound | utils/calculations.ts:82-84 | `Math.round`: the result is within half a unit, halves going up |
| Calculations.MonthDivisor | utils/calculations.ts:9-15 | the guarded divisor `max(1, n)`: always ≥ 1, equals n for n ≥ 1 and 1 for no rows |
| Calculations.OpeningBalance | utils/calculations.ts:6 | with no row, or when the first row's loan balance plus its debit minus its credit is 0, it is the 6-month baseline; otherwise it is exactly that sum (b − debit + credit = loanBalance); any value other than the baseline is non-zero |
| Calculations.ActiveRedraws | utils/calculations.ts:26 | a record is kept exactly when it is in the list and not excluded |
| Calculations.LastSix | utils/calculations.ts:34 | `slice(-6)`: the last min(n, 6) rows, as a suffix of the table |
| Calculations.StepsStatus | utils/calculations.ts:37-49 | the map has exactly the keys 1 .. 12 (the rule of each step is stated by StepRules and ThresholdStepRules) |
| Calculations.YearsSaved | utils/calculations.ts:62-65 | years saved are never negative and at most 30 for a non-negative months figure |
| Calculations.MoneySaved | utils/calculations.ts:63-66 | money saved is never negative |
| Calculations.Sentence | utils/calculations.ts:18-19 | the saved figure is the rate when it is non-negative and 0 (with 100 spent) when it is negative, never below the rate, and saved + spent = 100 |
| Calculations.Ownership | utils/calculations.ts:31-32 | youOwn + bankOwns = 100; bankOwns ≤ 100 and ≤ the LVR, and equal to it up to 100 |
| Calculations.PerformCalculations | utils/calculations.ts:5-88 | a total function: keys 1 .. 12, ownership sums to 100, sentence figures sum to 100, non-negative years and money saved |
| Calculations.NoMonthsAveragesAreTotals | utils/calculations.ts:6-34 | with no rows the reduction is baseline − balance; every average equals its total; income, expenses, rate and the trailing figure are 0 |
| Calculations.UnderlyingTotals | utils/calculations.ts:11-15 | average income and expenses times the divisor are the credit and debit totals minus the one-off credits and debits |
| Calculations.RatioGuards | utils/calculations.ts:17-24 | no income gives a 0% rate; a non-positive first-report rate gives 0% improvement |
| Calculations.DebtReductionAverage | utils/calculations.ts:8-9 | the average reduction times the divisor is the unclamped total reduction |
| Calculations.NegativeReductionExample | utils/calculations.ts:6-9 | one row {debit 1000, credit 1500, balance 99000} at balance 99000 opens at 98500 and reduces by −500 |
| Calculations.ImprovementSign | utils/calculations.ts:22-24 | with a positive baseline, the improvement is > 0 iff the rate rose, and ≥ 10% iff the rate reached 1.1 × the baseline (step 8) |
| Calculations.ActiveRedrawTotalAppend | utils/calculations.ts:26-27 | appending a record adds its amount to the total when it is active and nothing when it is excluded |
| Calculations.ExcludedChangeIgnored | utils/calculations.ts:26-27 | replacing an excluded record by another excluded record leaves the total unchanged |
| Calculations.RedrawTotalsIgnoreExcluded | utils/calculations.ts:26-28 | adding an excluded record leaves the whole result unchanged |
| Calculations.NoValuationNoLVR | utils/calculations.ts:30-32 | a non-positive valuation gives LVR 0 and ownership 100 / 0 |
| Calculations.OwnershipSplit | utils/calculations.ts:30-32 | LVR × valuation = balance × 100; shares lie in [0, 100] for a non-negative balance; a negative balance gives a negative bank share; youOwn = 0 iff balance ≥ valuation |
| Calculations.StepRules | utils/calculations.ts:37-49 | step 6 is DISCRETION; step 10 is the override or NO; step 12 is YES iff balance ≤ 0; steps 1, 3 and 8 follow their thresholds in both directions |
| Calculations.ThresholdStepRules | utils/calculations.ts:39-48 | steps 2 and 4 are YES iff the redraw covers one and three months of expenses; steps 5, 7, 9 and 11 are YES iff the balance is at most 90%, 75%, 50% and 25% of the settlement amount |
| Calculations.StepsYesOrNo | utils/calculations.ts:37-49 | every step other than 6 and 10 is YES or NO |
| Calculations.DebtStepsNested | utils/calculations.ts:42-49 | with a non-negative settlement amount, step 12 ⇒ 11 ⇒ 9 ⇒ 7 ⇒ 5 |
| Calculations.BufferStepsNested | utils/calculations.ts:39-41 | with non-negative expenses, step 4 ⇒ step 2 |
| Calculations.CalculationInputsDetermineResults | utils/calculations.ts:5-88 | two snapshots that agree on the fields the aggregator reads, and on override 10, have equal results |
| Calculations.OverridesReachOnlyStepTen | utils/calculations.ts:47 | overrides other than step 10 do not change any result |
| Calculations.TrailingReductionOfConsistentRows | utils/calculations.ts:34 | for consistent rows the trailing figure is the sum of the rows' recorded reductions |
| Calculations.TrailingWindowSlides | utils/calculations.ts:34 | once six rows exist, a new row drops the oldest of the six and adds its own reduction |
| Calculations.YearsSavedBounds | utils/calculations.ts:52-65 | for a non-negative balance, months remaining are non-negative and years saved lie in [0, 30] for both scenarios |
| Calculations.FlexNotSlower | utils/calculations.ts:53-65 | a non-negative flex amount never lengthens the projection or loses years saved |
| CurvedOOD.Project | utils/calculations.ts:90-117 | the reference result: the months figure is the first month not simulated in full, at most 360, and there is at least one point |
| CurvedOOD.StopMonth | utils/calculations.ts:100-112 | the simulation stops at some month in [from, 360] |
| CurvedOOD.ModelCurvedOOD | utils/calculations.ts:90-117 | the loop returns exactly the declarative projection for every input |
| CurvedOOD.PadFlat | utils/calculations.ts:108 | the stalled branch appends one point per year from the current length to year 30, each at the frozen balance, after the points already there |
| CurvedOOD.StopMonthSpec | utils/calculations.ts:100-112 | every month before the stop month is simulated in full; the stop month is not, unless it is month 360 |
| CurvedOOD.ProjectBounds | utils/calculations.ts:100-116 | monthsToZero ≤ 360 and there are 1 to 31 points |
| CurvedOOD.SampledBalances | utils/calculations.ts:101-102 | the point of year k is (k, the balance after 12k months) for every sampled year before the stop |
| CurvedOOD.SampledBalancesDecrease | utils/calculations.ts:104-112 | up to the stop month the balance is positive and strictly decreasing |
| CurvedOOD.PaidOffIff | utils/calculations.ts:114-116 | the last point has balance 0 iff the loan is paid off, and is then (monthsToZero / 12, 0) |
| CurvedOOD.StalledShape | utils/calculations.ts:106-109 | when repayments stop covering interest: 31 points for years 0 .. 30, flat at the frozen balance, which repays no principal |
| CurvedOOD.StallAtStart | utils/calculations.ts:104-109 | a capacity that does not cover the first month's interest gives 31 points at the opening balance and monthsToZero 0 |
| CurvedOOD.HorizonShape | utils/calculations.ts:100-116 | reaching month 360 unpaid gives 30 points, all still owed, and no zero point |
| CurvedOOD.ZeroRateBalance | utils/calculations.ts:104-111 | without interest the balance after n months is balance − n × capacity |
| CurvedOOD.ZeroRateContinues | utils/calculations.ts:100-106 | without interest, month j is simulated while j payments leave something owed |
| CurvedOOD.ZeroRatePayoff | utils/calculations.ts:100-116 | without interest, a balance cleared by m payments and not by m − 1 stops at month m with the yearly samples and the zero point |
| CurvedOOD.ZeroRateTenMonths | utils/calculations.ts:100-116 | without interest, a ten-payment balance gives [(0, balance), (10/12, 0)] and 10 months |
| CurvedOOD.ZeroRateExample | utils/calculations.ts:90-117 | 10,000 at 1,000 a month without interest gives [(0, 10000), (10/12, 0)] and 10 months |
| CurvedOOD.InterestOnlyExample | utils/calculations.ts:96-116 | 100,000 at 500 a month and 6% gives monthsToZero 0 and 31 points at 100,000 |
| CurvedOOD.MonthsToZeroAmbiguous | utils/calculations.ts:100-116 | a zero balance and a loan that stalls at once both report 0 months |
| Steps.HandleOverride | components/StepsSection.tsx:88-93 | the step is bound to the status; every other key and every other field is unchanged |
| Steps.ClearOverride | components/StepsSection.tsx:95-99 | the step is unbound; the other keys are those of the rendered overrides; every other field is unchanged |
| Steps.DisplayedStatus | components/StepsSection.tsx:126-128 | the override when present, else the calculated status; nothing only when neither exists |
| Steps.YesKeysUpTo | components/StepsSection.tsx:106 | the YES ids among 1 .. n, at most n of them |
| Steps.SetThenClearRestores | components/StepsSection.tsx:88-99 | setting an absent step and then clearing it restores the snapshot |
| Steps.ClearThenSet | components/StepsSection.tsx:88-99 | a clear before a set makes no difference |
| Steps.SetTwice | components/StepsSection.tsx:88-93 | the last of two sets wins |
| Steps.ClearDropsLaterOverride | components/StepsSection.tsx:95-99 | an override set after the render is dropped by the clear |
| Steps.ClearedShowsAuto | components/StepsSection.tsx:126-128 | once cleared, the card shows the calculated status |
| Steps.CompletedCount | components/StepsSection.tsx:106 | the number of YES entries: never more than the entries, and zero exactly when no entry is YES |
| Steps.ProgressPercent | components/StepsSection.tsx:118 | the count as a share of 12, in percent: non-negative, width × 12 = count × 100, zero exactly when nothing is completed |
| Steps.CompletedCountBound | components/StepsSection.tsx:106 | for a map with keys 1 .. 12 the count is that of the YES ids among them, at most 12 |
| Steps.ProgressBounds | components/StepsSection.tsx:118 | the progress bar of any calculated map lies in [0, 100] percent |
| Steps.CountIgnoresOtherOverrides | components/StepsSection.tsx:106 | the count changes with override 10 only |
| Steps.StepTenOverrideCounted | components/StepsSection.tsx:106 | an override of step 10 to YES is counted |
| Steps.StepOneOverrideShownNotCounted | components/StepsSection.tsx:126-128 | an override of step 1 to YES is shown on the card and not counted |
| Redraws.Toggled | components/RedrawsSection.tsx:48 | same length and order; each record differs only in `excluded`, which flips exactly on the matching id |
| Redraws.ToggleExclude | components/RedrawsSection.tsx:45-50 | only the redraw list changes, to the toggled list |
| Redraws.WithoutId | components/RedrawsSection.tsx:55 | a record is kept exactly when it was in the list under another id |
| Redraws.DeleteRedraw | components/RedrawsSection.tsx:52-57 | only the redraw list changes, to the filtered list |
| Redraws.OrDefault | components/RedrawsSection.tsx:36-38 | a non-empty string is kept; the empty string takes the fallback |
| Redraws.AddManualRedraw | components/RedrawsSection.tsx:32-43 | an empty amount changes nothing; otherwise one active record is appended with the new id, the parsed amount, the date or today, and the description or "Manual Entry"; the form is reset and nothing else changes |
| Redraws.SplitLines | components/RedrawsSection.tsx:17 | at least one piece, none holding a newline |
| Redraws.SeparatorLength | components/RedrawsSection.tsx:19 | the separator match at the front: a leading tab matches alone (length 1); otherwise a leading run of two or more white-space characters matches in full (its `SpaceRun` length); otherwise nothing matches |
| Redraws.SpaceRun | components/RedrawsSection.tsx:19 | the longest leading white-space run |
| Redraws.SplitFields | components/RedrawsSection.tsx:19 | at least one field; how each separator splits is stated by SplitFieldsTabPrefix, SplitFieldsGapPrefix, SplitJoinFields and SplitSpacedLine |
| Redraws.KeepAmountChars | components/RedrawsSection.tsx:23 | only digits and dots remain, never more characters than the input; KeepAmountCharsAppend and KeepAmountCharsSingle pin it character by character |
| Redraws.AmountText | components/RedrawsSection.tsx:23 | the amount text is never empty |
| Redraws.ParseLine | components/RedrawsSection.tsx:19-26 | the record has the new id, is active, has no month, a dated entry unless today is empty, and a non-empty description |
| Redraws.NonBlank | components/RedrawsSection.tsx:18 | a line is kept exactly when it is not blank; NonBlankAppend and NonBlankSingle pin order and multiplicity |
| Redraws.HandlePaste | components/RedrawsSection.tsx:16-30 | the buffer is cleared; one record per non-blank line is appended in line order after the unchanged old records; nothing else changes |
| Redraws.ToggleTwice | components/RedrawsSection.tsx:48 | toggling twice is the identity |
| Redraws.ToggleAbsent | components/RedrawsSection.tsx:48 | toggling an id no record has changes nothing |
| Redraws.ToggleKeepsIds | components/RedrawsSection.tsx:48 | every id stays in its place |
| Redraws.WithoutIdAppend | components/RedrawsSection.tsx:55 | the delete distributes over concatenation, so the kept records keep their order |
| Redraws.WithoutIdSingle | components/RedrawsSection.tsx:55 | a single record is kept iff its id differs |
| Redraws.WithoutIdAbsent | components/RedrawsSection.tsx:55 | a list without that id is unchanged |
| Redraws.WithoutIdIdempotent | components/RedrawsSection.tsx:55 | deleting twice is deleting once |
| Redraws.ManualAddTotal | components/RedrawsSection.tsx:32-41 | a manual record raises the active total by its amount |
| Redraws.ManualAddThenDelete | components/RedrawsSection.tsx:32-57 | deleting the new record by its fresh id restores the snapshot |
| Redraws.SplitJoinLines | components/RedrawsSection.tsx:17 | lines without newlines, joined by newlines, split back into themselves |
| Redraws.SplitFieldsToken | components/RedrawsSection.tsx:19 | a field without white space is one field |
| Redraws.SplitFieldsTabPrefix | components/RedrawsSection.tsx:19 | a tab after a white-space-free field splits it off |
| Redraws.SplitFieldsGapPrefix | components/RedrawsSection.tsx:19 | a field with no tab and only single spaces, followed by a gap of two or more white-space characters that does not start with a tab, splits off as the first part |
| Redraws.SplitSpacedLine | components/RedrawsSection.tsx:19 | three single-spaced fields separated by wide gaps (the "Date   Amount   Description" layout the paste box suggests) split into exactly those three fields |
| Redraws.ParseSpacedLine | components/RedrawsSection.tsx:19-26 | such a line becomes the date, the cleaned amount and the description, whatever spaces the description contains |
| Redraws.SpacedLineExample | components/RedrawsSection.tsx:19-26 | "2024-03-01   $1,250.00   Car Repair" becomes date "2024-03-01", amount toNumber("1250.00") and description "Car Repair" |
| Redraws.KeepAmountCharsAppend | components/RedrawsSection.tsx:23 | cleaning distributes over concatenation, so the kept characters stay in order |
| Redraws.KeepAmountCharsSingle | components/RedrawsSection.tsx:23 | one character is kept exactly when it is a digit or a dot |
| Redraws.KeepAmountCharsOfAmount | components/RedrawsSection.tsx:23 | a string of digits and dots is kept unchanged |
| Redraws.KeepAmountCharsOfOther | components/RedrawsSection.tsx:23 | a string with no digit and no dot cleans to "" |
| Redraws.CleanCurrencyAmount | components/RedrawsSection.tsx:23 | a currency sign and a thousands separator are dropped and the digit groups joined |
| Redraws.CleanedAmountExample | components/RedrawsSection.tsx:23 | "$1,250.00" cleans to "1250.00" |
| Redraws.NonBlankAppend | components/RedrawsSection.tsx:18 | dropping blank lines distributes over concatenation, so kept lines keep their order and multiplicity |
| Redraws.NonBlankSingle | components/RedrawsSection.tsx:18 | one line is kept exactly when it is not blank |
| Redraws.SplitJoinFields | components/RedrawsSection.tsx:19 | white-space-free fields, joined by tabs, split back into themselves |
| Redraws.ParseThreeFields | components/RedrawsSection.tsx:19-26 | a line of three non-empty fields gives that date, the cleaned amount and that description |
| Redraws.ParseTabLine | components/RedrawsSection.tsx:19-26 | a tab-separated "date, amount, description" line parses into those three values |
| Redraws.NoSeparatorOneField | components/RedrawsSection.tsx:19 | a line with no tab and no two white-space characters in a row is one field |
| Redraws.SingleFieldLineDefaults | components/RedrawsSection.tsx:19-26 | a one-field line is the date, amount "0" and description "Imported Redraw" |
| Redraws.DoubleTabEmptyField | components/RedrawsSection.tsx:19-26 | two tabs in a row leave an empty amount field, which parses as "0" |
| Redraws.BlankPasteAddsNothing | components/RedrawsSection.tsx:17-28 | a paste of white space only leaves the snapshot unchanged |
| Redraws.NonBlankOfBlank | components/RedrawsSection.tsx:18 | only blank lines leave nothing |
| Redraws.PasteTotal | components/RedrawsSection.tsx:28 | pasted records are active, so the total grows by exactly their amounts |
| Input.EditedRow | components/InputSection.tsx:76-86 | the edited column reads the new value; other non-derived columns are unchanged; a credit, debit or one-off-credit edit leaves the row consistent |
| Input.UpdateMonthlyData | components/InputSection.tsx:74-89 | the latest snapshot gets the rendered rows with row `index` replaced by the edited row, and nothing else changes |
| Input.NextRow | components/InputSection.tsx:92-104 | label `months[n mod 12]`, zero amounts, the last non-zero balance or else the settlement amount |
| Input.AddMonth | components/InputSection.tsx:91-106 | exactly one row is appended after the unchanged rows, and nothing else changes |
| Input.RecomputedRateFormula | components/InputSection.tsx:79-86 | after such an edit, reduction = credit − debit − one-off credits, and rate × credit = (credit − debit) × 100, or 0 without credit |
| Input.OtherEditKeepsDerived | components/InputSection.tsx:79 | edits of other columns keep both derived columns |
| Input.EditKeepsConsistent | components/InputSection.tsx:76-86 | a consistent row stays consistent under any non-derived edit |
| Input.EditIdempotent | components/InputSection.tsx:76-86 | the same edit twice is the edit once |
| Input.UpdateTouchesOneRow | components/InputSection.tsx:75-76 | the table keeps its length, every other row is identical, and the edited cell reads the value |
| Input.UpdateKeepsTableConsistent | components/InputSection.tsx:74-89 | a table of consistent rows stays consistent after a non-derived edit |
| Input.NextRowConsistent | components/InputSection.tsx:94-104 | the new row is consistent and has zero net reduction |
| Input.LabelsCycle | components/InputSection.tsx:92-95 | twelve more rows give the same month label again |
| Input.FirstMonthOpensAtSettlement | components/InputSection.tsx:98 | the first row added to an empty table opens at the settlement amount, which the aggregator then takes as the opening balance when non-zero |
| Input.HandleChange | components/InputSection.tsx:17-19 | the written field reads back the new value; ChangeKeepsOthers states that every other field is unchanged |
| Input.ChangeReadsBack | components/InputSection.tsx:17-19 | the written field reads back the new value |
| Input.ChangeKeepsOthers | components/InputSection.tsx:17-19 | every other field keeps its value |
| Input.ChangeToSameValue | components/InputSection.tsx:17-19 | writing a field's own value changes nothing |
| Input.DescriptiveChangeKeepsResults | components/InputSection.tsx:17-19 | editing a field the aggregator does not read leaves every result unchanged |
| Export.PeriodDays | components/ExportSection.tsx:15 | 90 iff 90 days, 183 iff six months, 365 iff twelve months |
| Export.NatToString | components/ExportSection.tsx:28 | a non-empty string of decimal digits with no leading zero |
| Export.NatStringRoundTrip | components/ExportSection.tsx:28 | reading the decimal text back gives the id |
| Export.YesIds | components/ExportSection.tsx:25-27 | YES ids among 1 .. n only, strictly ascending |
| Export.YesIdsComplete | components/ExportSection.tsx:25-27 | every YES id among 1 .. n is listed |
| Export.YesIdsCount | components/ExportSection.tsx:25-28 | the list is as long as the panel's set of YES ids |
| Export.SplitJoinIds | components/ExportSection.tsx:28 | the ids joined with ", " split back into their texts |
| Export.StepsSummary | components/ExportSection.tsx:25-28 | empty exactly when no step among 1 .. 12 is YES, and otherwise starting with a digit |
| Export.SummaryDisplay | components/ExportSection.tsx:34 | "None" exactly when no step among 1 .. 12 is YES, and otherwise the summary itself |
| Export.SummaryRoundTrip | components/ExportSection.tsx:25-28 | reading the summary back gives exactly the ascending YES ids |
| Export.NoneIffNothingCompleted | components/ExportSection.tsx:34 | the table shows "None" iff no step among 1 .. 12 is YES |
| Export.SummaryListsCompletedSteps | components/ExportSection.tsx:25-28 | for a calculated map the summary lists each YES step once, ascending, as many as the panel counts |
| Export.OnlyYesListed | components/ExportSection.tsx:26 | a NO or DISCRETION step never appears |

## Left out

- App.tsx, the report page, PDF export and the JSON export and import are not part of this model. They are rendering and library I/O.
- services/geminiService.ts and `handleFileUpload` (components/InputSection.tsx:21-72) are not part of this model. They are network calls whose results are untrusted foreign output.
- components/ProjectionsSection.tsx is not part of this model, because it reads the wall clock. Its chart looks years such as "2025" up among point names "0", "1", …, so every series falls back to 0.
- Date and text formatting are not modelled: `currentDebtFreeDate`, `toFixed`, `toLocaleString` and the export timestamp string. Calculations.PerformCalculations reports the months figure the date is computed from (`monthsToDebtFree`). It reports the two figures of the savings sentence instead of its text.
- CurvedOOD.ModelCurvedOOD: the string `name` of each point is left out. Its year and balance are kept.
- Floating point is modelled as exact reals: no NaN, no infinity, no rounding error. `parseFloat`, `crypto.randomUUID` and today's date are parameters (`toNumber`, `newId`, `today`).
- Redraws.HandlePaste, Redraws.AddManualRedraw: the setters of the paste buffer and the manual-entry form are modelled as returned values.
- Input.UpdateMonthlyData: requires an index inside the rendered table. Out of range, JavaScript would write a partial row past the end of the array, and that case is not modelled.
- Input.HandleChange: the source accepts a value of any type. The model requires a value of the field's own type (`Fits`).
- Input.EditedRow: the `value: any` of the row handlers is a typed `RowEdit`.
- Export.StepsSummary: reads the ids 1 .. 12. The calculated map has exactly these keys, which `Object.entries` visits in ascending order. Other keys are not modelled.
- Strings are sequences of Unicode scalar values (`char`), not of UTF-16 code units: a character outside the Basic Multilingual Plane is one `char` here and two code units in JavaScript, and lone surrogates cannot be represented. The white-space set of `trim` and `\s` lies in the Basic Multilingual Plane and is listed explicitly.
- `uploadedStatements` has no model: it is a list of opaque uploads that no core operation reads.
