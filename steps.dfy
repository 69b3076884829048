/**
 * The milestone panel: setting and clearing a manual override of a step,
 * the status shown on each card, and the completed-step count and
 * progress bar, which read the calculated map without the overrides.
 */
module Steps {
  import opened Types
  import opened Calculations

  /** Setting an override replaces the snapshot's override map by one with `stepId` bound to `status`. */
  function HandleOverride(prev: CoachingData, stepId: int, status: StepStatus): (next: CoachingData)
    ensures stepId in next.manualOverrides && next.manualOverrides[stepId] == status
    ensures forall k :: k != stepId ==>
      (k in next.manualOverrides <==> k in prev.manualOverrides) &&
      (k in prev.manualOverrides ==> next.manualOverrides[k] == prev.manualOverrides[k])
    ensures next.(manualOverrides := prev.manualOverrides) == prev
  {
    prev.(manualOverrides := prev.manualOverrides[stepId := status])
  }

  /**
   * Clearing an override: the new map is a copy of the overrides the panel
   * was rendered with, minus `stepId`, written into the latest snapshot.
   */
  function ClearOverride(prev: CoachingData, rendered: map<int, StepStatus>, stepId: int): (next: CoachingData)
    ensures stepId !in next.manualOverrides
    ensures forall k :: k != stepId ==>
      (k in next.manualOverrides <==> k in rendered) &&
      (k in rendered ==> next.manualOverrides[k] == rendered[k])
    ensures next.(manualOverrides := prev.manualOverrides) == prev
  {
    prev.(manualOverrides := rendered - {stepId})
  }

  /** The card's status: `manualStatus || autoStatus`; every status value is a non-empty string, so truthy. */
  function DisplayedStatus(overrides: map<int, StepStatus>, auto: map<int, StepStatus>, stepId: int): (shown: Option<StepStatus>)
    ensures stepId in overrides ==> shown == Some(overrides[stepId])
    ensures stepId !in overrides && stepId in auto ==> shown == Some(auto[stepId])
    ensures shown.None? <==> stepId !in overrides && stepId !in auto
  {
    if stepId in overrides then Some(overrides[stepId])
    else if stepId in auto then Some(auto[stepId])
    else None
  }

  /** The step ids whose value in `s` is YES. */
  function YesKeys(s: map<int, StepStatus>): set<int>
  {
    set k | k in s && s[k] == Yes
  }

  /** `Object.values(stepsStatus).filter(s => s === YES).length`. */
  function CompletedCount(s: map<int, StepStatus>): (n: nat)
    ensures n <= |s|
    ensures n == 0 <==> forall k :: k in s ==> s[k] != Yes
  {
    SubsetCard(YesKeys(s), s.Keys);
    YesKeysEmpty(s);
    |YesKeys(s)|
  }

  /** No YES id exactly when no entry is YES. */
  lemma YesKeysEmpty(s: map<int, StepStatus>)
    ensures |YesKeys(s)| == 0 <==> forall k :: k in s ==> s[k] != Yes
  {
    if forall k :: k in s ==> s[k] != Yes {
      assert YesKeys(s) == {};
    } else {
      var k :| k in s && s[k] == Yes;
      assert k in YesKeys(s);
    }
  }

  /** A subset is no larger than its superset. */
  lemma SubsetCard(a: set<int>, b: set<int>)
    requires a <= b
    ensures |a| <= |b|
  {
    assert b == a + (b - a);
    assert a * (b - a) == {};
  }

  /** The YES ids among 1 .. n. */
  function YesKeysUpTo(s: map<int, StepStatus>, n: nat): (ks: set<int>)
    ensures forall k :: k in ks <==> 1 <= k <= n && k in s && s[k] == Yes
    ensures |ks| <= n
  {
    if n == 0 then {}
    else
      var rest := YesKeysUpTo(s, n - 1);
      if n in s && s[n] == Yes then rest + {n} else rest
  }

  /** The progress bar's width in percent. */
  function ProgressPercent(s: map<int, StepStatus>): (p: real)
    ensures p >= 0.0
    ensures p * 12.0 == CompletedCount(s) as real * 100.0
    ensures p == 0.0 <==> CompletedCount(s) == 0
  {
    CompletedCount(s) as real / 12.0 * 100.0
  }

  // ---------------------------------------------------------------------
  // Set and clear

  /** Setting a step that had no override and then clearing it restores the snapshot. */
  lemma SetThenClearRestores(data: CoachingData, stepId: int, status: StepStatus)
    requires stepId !in data.manualOverrides
    ensures var withSet := HandleOverride(data, stepId, status);
      ClearOverride(withSet, withSet.manualOverrides, stepId) == data
  {
    var withSet := HandleOverride(data, stepId, status);
    assert ClearOverride(withSet, withSet.manualOverrides, stepId).manualOverrides == data.manualOverrides;
  }

  /** Clearing first makes no difference to a following set. */
  lemma ClearThenSet(data: CoachingData, stepId: int, status: StepStatus)
    ensures var cleared := ClearOverride(data, data.manualOverrides, stepId);
      HandleOverride(cleared, stepId, status) == HandleOverride(data, stepId, status)
  {
    var cleared := ClearOverride(data, data.manualOverrides, stepId);
    assert HandleOverride(cleared, stepId, status).manualOverrides
        == HandleOverride(data, stepId, status).manualOverrides;
  }

  /** The last of two sets wins. */
  lemma SetTwice(data: CoachingData, stepId: int, first: StepStatus, second: StepStatus)
    ensures HandleOverride(HandleOverride(data, stepId, first), stepId, second)
         == HandleOverride(data, stepId, second)
  {
    assert HandleOverride(HandleOverride(data, stepId, first), stepId, second).manualOverrides
        == HandleOverride(data, stepId, second).manualOverrides;
  }

  /**
   * The cleared map is built from the rendered overrides, not the latest
   * ones: an override set after the render is dropped by the clear.
   */
  lemma ClearDropsLaterOverride(prev: CoachingData, rendered: map<int, StepStatus>, stepId: int, other: int)
    requires other != stepId && other in prev.manualOverrides && other !in rendered
    ensures other !in ClearOverride(prev, rendered, stepId).manualOverrides
  {
  }

  // ---------------------------------------------------------------------
  // Displayed status and completed count

  /** Once an override is cleared the card shows the calculated status again. */
  lemma ClearedShowsAuto(data: CoachingData, stepId: int)
    requires 1 <= stepId <= 12
    ensures var cleared := ClearOverride(data, data.manualOverrides, stepId);
      var auto := PerformCalculations(cleared).stepsStatus;
      DisplayedStatus(cleared.manualOverrides, auto, stepId) == Some(auto[stepId])
  {
  }

  /** With keys exactly 1 .. 12 the count is that of the YES ids among them, so at most 12. */
  lemma CompletedCountBound(s: map<int, StepStatus>)
    requires forall k :: k in s <==> 1 <= k <= 12
    ensures CompletedCount(s) == |YesKeysUpTo(s, 12)|
    ensures CompletedCount(s) <= 12
  {
    assert YesKeys(s) == YesKeysUpTo(s, 12);
  }

  /** The progress bar of any calculated map lies between 0 and 100 percent. */
  lemma ProgressBounds(data: CoachingData)
    ensures 0.0 <= ProgressPercent(PerformCalculations(data).stepsStatus) <= 100.0
  {
    CompletedCountBound(PerformCalculations(data).stepsStatus);
  }

  /** The count reads step 10's override and no other. */
  lemma CountIgnoresOtherOverrides(data: CoachingData, overrides: map<int, StepStatus>)
    requires (10 in overrides) == (10 in data.manualOverrides)
    requires 10 in overrides ==> overrides[10] == data.manualOverrides[10]
    ensures CompletedCount(PerformCalculations(data.(manualOverrides := overrides)).stepsStatus)
         == CompletedCount(PerformCalculations(data).stepsStatus)
  {
    OverridesReachOnlyStepTen(data, overrides);
  }

  /** An override of step 10 to YES is counted. */
  lemma StepTenOverrideCounted(data: CoachingData)
    ensures 10 in YesKeys(PerformCalculations(HandleOverride(data, 10, Yes)).stepsStatus)
  {
    var d := HandleOverride(data, 10, Yes);
    StepRules(d, AvgMonthlyExpenses(d), SavingsRate(d));
  }

  /**
   * An override of another step to YES is shown on its card but not
   * counted when the calculated status is NO: step 1 with under 2,000 of redraw.
   */
  lemma StepOneOverrideShownNotCounted(data: CoachingData)
    requires data.currentAvailableRedraw < 2000.0
    ensures var d := HandleOverride(data, 1, Yes);
      var auto := PerformCalculations(d).stepsStatus;
      && DisplayedStatus(d.manualOverrides, auto, 1) == Some(Yes)
      && 1 !in YesKeys(auto)
  {
    var d := HandleOverride(data, 1, Yes);
    StepRules(d, AvgMonthlyExpenses(d), SavingsRate(d));
  }
}
