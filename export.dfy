/**
 * The export panel: the number of days the review period covers and the
 * "12 Steps Completed" value, the comma-separated ids of the steps whose
 * calculated status is YES (or "None").
 */
module Export {
  import opened Types
  import opened Calculations
  import opened Steps
  import Redraws

  /** Days in the review period: 90, 183 for six months, 365 otherwise. */
  function PeriodDays(p: ReviewPeriodType): (days: nat)
    ensures days == 90 <==> p == NinetyDays
    ensures days == 183 <==> p == SixMonths
    ensures days == 365 <==> p == TwelveMonths
  {
    match p
    case NinetyDays => 90
    case SixMonths => 183
    case TwelveMonths => 365
  }

  // ---------------------------------------------------------------------
  // Decimal ids

  function DigitChar(d: nat): (c: char)
    requires d < 10
    ensures '0' <= c <= '9'
  {
    "0123456789"[d]
  }

  function DigitValue(c: char): nat
  {
    if '0' <= c <= '9' then (c as int - '0' as int) else 0
  }

  predicate IsDigitChar(c: char)
  {
    '0' <= c <= '9'
  }

  /** The decimal text of a step id, as the object key it is read back as. */
  function NatToString(n: nat): (t: string)
    ensures |t| >= 1
    ensures forall i :: 0 <= i < |t| ==> IsDigitChar(t[i])
    ensures n > 0 ==> t[0] != '0'
    decreases n
  {
    if n < 10 then [DigitChar(n)] else NatToString(n / 10) + [DigitChar(n % 10)]
  }

  /** Decimal value of a string of digits. */
  function ParseNat(t: string): nat
    decreases |t|
  {
    if |t| == 0 then 0 else ParseNat(t[..|t| - 1]) * 10 + DigitValue(t[|t| - 1])
  }

  lemma DigitRoundTrip(d: nat)
    requires d < 10
    ensures DigitValue(DigitChar(d)) == d
  {
  }

  /** Reading the decimal text back gives the number. */
  lemma {:induction false} NatStringRoundTrip(n: nat)
    ensures ParseNat(NatToString(n)) == n
    decreases n
  {
    var t := NatToString(n);
    if n < 10 {
      DigitRoundTrip(n);
      assert t[..0] == "";
    } else {
      NatStringRoundTrip(n / 10);
      DigitRoundTrip(n % 10);
      assert t[..|t| - 1] == NatToString(n / 10);
    }
  }

  // ---------------------------------------------------------------------
  // The completed ids

  /**
   * The YES ids among 1 .. n, ascending: `Object.entries` visits the
   * integer keys of the calculated map (1 .. 12) in ascending order.
   */
  function YesIds(s: map<int, StepStatus>, n: nat): (ids: seq<nat>)
    ensures forall i :: 0 <= i < |ids| ==> 1 <= ids[i] <= n && ids[i] in s && s[ids[i]] == Yes
    ensures forall i, j :: 0 <= i < j < |ids| ==> ids[i] < ids[j]
  {
    if n == 0 then []
    else if n in s && s[n] == Yes then YesIds(s, n - 1) + [n]
    else YesIds(s, n - 1)
  }

  /** Every YES id among 1 .. n is listed. */
  lemma {:induction false} YesIdsComplete(s: map<int, StepStatus>, n: nat, k: int)
    requires 1 <= k <= n && k in s && s[k] == Yes
    ensures k in YesIds(s, n)
    decreases n
  {
    if k < n {
      YesIdsComplete(s, n - 1, k);
    } else {
      assert YesIds(s, n) == YesIds(s, n - 1) + [n];
    }
  }

  /** The list and the panel's set of YES ids have the same size. */
  lemma {:induction false} YesIdsCount(s: map<int, StepStatus>, n: nat)
    ensures |YesIds(s, n)| == |YesKeysUpTo(s, n)|
    decreases n
  {
    if n > 0 {
      YesIdsCount(s, n - 1);
      var rest := YesKeysUpTo(s, n - 1);
      if n in s && s[n] == Yes {
        assert |YesIds(s, n)| == |YesIds(s, n - 1)| + 1;
        assert n !in rest;
        assert |YesKeysUpTo(s, n)| == |rest + {n}| == |rest| + 1;
      } else {
        assert YesIds(s, n) == YesIds(s, n - 1);
        assert YesKeysUpTo(s, n) == rest;
      }
    } else {
      assert YesIds(s, 0) == [];
      assert YesKeysUpTo(s, 0) == {};
    }
  }

  function IdTexts(ids: seq<nat>): (ts: seq<string>)
    ensures |ts| == |ids|
    ensures forall i :: 0 <= i < |ids| ==> ts[i] == NatToString(ids[i])
  {
    seq(|ids|, i requires 0 <= i < |ids| => NatToString(ids[i]))
  }

  /** The ids of the YES steps, decimal, joined with ", ". */
  function StepsSummary(s: map<int, StepStatus>): (t: string)
    ensures t == "" <==> YesIds(s, 12) == []
    ensures |t| > 0 ==> IsDigitChar(t[0])
  {
    var ids := YesIds(s, 12);
    JoinIdsShape(ids);
    Redraws.Join(IdTexts(ids), ", ")
  }

  /** The joined id texts are empty exactly for no ids, and otherwise start with a digit. */
  lemma JoinIdsShape(ids: seq<nat>)
    ensures var t := Redraws.Join(IdTexts(ids), ", ");
      && (t == "" <==> ids == [])
      && (|t| > 0 ==> IsDigitChar(t[0]))
  {
    if |ids| > 0 {
      JoinStartsWithDigit(ids);
    }
  }

  /** The value shown in the export table: `stepsSummary || "None"`. */
  function SummaryDisplay(s: map<int, StepStatus>): (shown: string)
    ensures shown == "None" <==> YesIds(s, 12) == []
    ensures shown != "None" ==> shown == StepsSummary(s)
  {
    var summary := StepsSummary(s);
    assert !IsDigitChar('N');
    if summary == "" then "None" else summary
  }

  // ---------------------------------------------------------------------
  // Reading the summary back

  /** `text.split(', ')`. */
  function SplitComma(t: string): (pieces: seq<string>)
    ensures |pieces| >= 1
    decreases |t|
  {
    if |t| == 0 then [""]
    else if |t| >= 2 && t[0] == ',' && t[1] == ' ' then [""] + SplitComma(t[2..])
    else
      var rest := SplitComma(t[1..]);
      [[t[0]] + rest[0]] + rest[1..]
  }

  /** The ids listed in a summary. */
  function ParseSummary(t: string): seq<nat>
  {
    if t == "" then []
    else
      var pieces := SplitComma(t);
      seq(|pieces|, i requires 0 <= i < |pieces| => ParseNat(pieces[i]))
  }

  lemma {:induction false} SplitCommaToken(l: string)
    requires forall j :: 0 <= j < |l| ==> IsDigitChar(l[j])
    ensures SplitComma(l) == [l]
    decreases |l|
  {
    if |l| > 0 {
      SplitCommaToken(l[1..]);
      assert [l[0]] + l[1..] == l;
    }
  }

  lemma {:induction false} SplitCommaPrefix(l: string, rest: string)
    requires forall j :: 0 <= j < |l| ==> IsDigitChar(l[j])
    ensures SplitComma(l + ", " + rest) == [l] + SplitComma(rest)
    decreases |l|
  {
    var t := l + ", " + rest;
    if |l| == 0 {
      assert t == [',', ' '] + rest;
      assert t[2..] == rest;
    } else {
      assert t[0] == l[0];
      assert t[1..] == l[1..] + ", " + rest;
      SplitCommaPrefix(l[1..], rest);
      assert [l[0]] + l[1..] == l;
    }
  }

  /** Splitting the joined decimal texts gives the texts back. */
  lemma {:induction false} SplitJoinIds(ids: seq<nat>)
    requires |ids| >= 1
    ensures SplitComma(Redraws.Join(IdTexts(ids), ", ")) == IdTexts(ids)
    decreases |ids|
  {
    var ts := IdTexts(ids);
    if |ids| == 1 {
      SplitCommaToken(ts[0]);
    } else {
      assert IdTexts(ids[1..]) == ts[1..];
      SplitCommaPrefix(ts[0], Redraws.Join(ts[1..], ", "));
      SplitJoinIds(ids[1..]);
      assert ts == [ts[0]] + ts[1..];
    }
  }

  /** The joined text of a non-empty id list starts with the first id's first digit. */
  lemma JoinStartsWithDigit(ids: seq<nat>)
    requires |ids| >= 1
    ensures var t := Redraws.Join(IdTexts(ids), ", ");
      |t| >= 1 && IsDigitChar(t[0])
  {
    var ts := IdTexts(ids);
    assert |ts[0]| >= 1 && IsDigitChar(ts[0][0]);
    if |ids| > 1 {
      assert Redraws.Join(ts, ", ") == ts[0] + ", " + Redraws.Join(ts[1..], ", ");
    }
  }

  /** Reading the summary back gives exactly the ascending list of YES ids. */
  lemma SummaryRoundTrip(s: map<int, StepStatus>)
    ensures ParseSummary(StepsSummary(s)) == YesIds(s, 12)
  {
    var ids := YesIds(s, 12);
    if |ids| > 0 {
      JoinStartsWithDigit(ids);
      SplitJoinIds(ids);
      var parsed := ParseSummary(StepsSummary(s));
      assert |parsed| == |ids|;
      forall i | 0 <= i < |ids|
        ensures parsed[i] == ids[i]
      {
        NatStringRoundTrip(ids[i]);
      }
    }
  }

  /** The table shows "None" exactly when no step among 1 .. 12 is YES. */
  lemma NoneIffNothingCompleted(s: map<int, StepStatus>)
    ensures SummaryDisplay(s) == "None" <==>
      forall k :: 1 <= k <= 12 && k in s ==> s[k] != Yes
  {
    var ids := YesIds(s, 12);
    if |ids| > 0 {
      JoinStartsWithDigit(ids);
      assert !IsDigitChar('N');
      assert ids[0] in s && s[ids[0]] == Yes;
    } else {
      forall k | 1 <= k <= 12 && k in s
        ensures s[k] != Yes
      {
        if s[k] == Yes {
          YesIdsComplete(s, 12, k);
        }
      }
    }
  }

  /**
   * For a calculated map the summary lists each YES step once, in
   * ascending order, as many as the panel counts, and nothing else.
   */
  lemma SummaryListsCompletedSteps(data: CoachingData)
    ensures var s := PerformCalculations(data).stepsStatus;
      var ids := ParseSummary(StepsSummary(s));
      && (forall k :: k in ids <==> 1 <= k <= 12 && s[k] == Yes)
      && (forall i, j :: 0 <= i < j < |ids| ==> ids[i] < ids[j])
      && |ids| == CompletedCount(s)
  {
    var s := PerformCalculations(data).stepsStatus;
    SummaryRoundTrip(s);
    YesIdsCount(s, 12);
    CompletedCountBound(s);
    forall k | 1 <= k <= 12 && s[k] == Yes
      ensures k in YesIds(s, 12)
    {
      YesIdsComplete(s, 12, k);
    }
  }

  /** A NO or DISCRETION step never appears in the summary. */
  lemma OnlyYesListed(s: map<int, StepStatus>, k: int)
    requires k in s && s[k] != Yes
    ensures k !in ParseSummary(StepsSummary(s))
  {
    SummaryRoundTrip(s);
  }
}
