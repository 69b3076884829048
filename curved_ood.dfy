/**
 * The amortization projector: a month-by-month simulation of a loan under a
 * fixed monthly repayment capacity, sampled once a year, capped at 360
 * months, with a "never pays off" branch that flattens the series to year 30.
 *
 * `Project` is a declarative description of the result; `ModelCurvedOOD`
 * is the loop, proved equal to it.
 */
module CurvedOOD {

  /** One chart point: the year index and the balance at that time. */
  datatype Point = Point(year: real, balance: real)

  datatype Projection = Projection(points: seq<Point>, monthsToZero: nat)

  const HorizonMonths: nat := 360
  const HorizonYears: nat := 30
  const DefaultAnnualRate: real := 0.06

  /** Interest charged on the balance for one month. */
  function Interest(balance: real, annualRate: real): real
  {
    balance * (annualRate / 12.0)
  }

  /** Principal repaid in a month: what the capacity leaves after interest. */
  function Principal(balance: real, capacity: real, annualRate: real): real
  {
    capacity - Interest(balance, annualRate)
  }

  /** The balance after `n` full months of repayment. */
  function BalanceAfter(balance: real, capacity: real, annualRate: real, n: nat): real
  {
    if n == 0 then balance
    else
      var b := BalanceAfter(balance, capacity, annualRate, n - 1);
      b - Principal(b, capacity, annualRate)
  }

  /** Month `m` is simulated in full: the balance is still owed and principal is repaid. */
  predicate Continues(balance: real, capacity: real, annualRate: real, m: nat)
  {
    var b := BalanceAfter(balance, capacity, annualRate, m);
    b > 0.0 && Principal(b, capacity, annualRate) > 0.0
  }

  /** The first month from `from` on that is not simulated in full, or the horizon. */
  function StopMonth(balance: real, capacity: real, annualRate: real, from: nat): (m: nat)
    requires from <= HorizonMonths
    ensures from <= m <= HorizonMonths
    decreases HorizonMonths - from
  {
    if from == HorizonMonths || !Continues(balance, capacity, annualRate, from) then from
    else StopMonth(balance, capacity, annualRate, from + 1)
  }

  /** The yearly samples for years 0 .. count - 1. */
  function Samples(balance: real, capacity: real, annualRate: real, count: nat): (s: seq<Point>)
    ensures |s| == count
  {
    seq(count, k requires 0 <= k => Point(k as real, BalanceAfter(balance, capacity, annualRate, 12 * k)))
  }

  /** Points for years `from` .. 30, all at the frozen balance. */
  function Flat(from: nat, frozen: real): (s: seq<Point>)
    requires from <= HorizonYears + 1
    ensures |s| == HorizonYears + 1 - from
  {
    seq(HorizonYears + 1 - from, j => Point((from + j) as real, frozen))
  }

  /** The declarative result of the projector. */
  function Project(balance: real, capacity: real, annualRate: real): (p: Projection)
    ensures p.monthsToZero == StopMonth(balance, capacity, annualRate, 0) <= HorizonMonths
    ensures |p.points| >= 1
  {
    var m := StopMonth(balance, capacity, annualRate, 0);
    var last := BalanceAfter(balance, capacity, annualRate, m);
    if last <= 0.0 then
      // paid off in month m: the months before it were sampled, then the zero point
      Projection(Samples(balance, capacity, annualRate, (m + 11) / 12) + [Point(m as real / 12.0, 0.0)], m)
    else if m < HorizonMonths then
      // capacity no longer covers interest: sample month m, then flatten to year 30
      Projection(Samples(balance, capacity, annualRate, m / 12 + 1) + Flat(m / 12 + 1, last), m)
    else
      // horizon reached with the balance still owed
      Projection(Samples(balance, capacity, annualRate, HorizonYears), m)
  }

  method ModelCurvedOOD(balance: real, monthlyRepaymentCapacity: real, annualInterestRate: real)
    returns (points: seq<Point>, monthsToZero: nat)
    ensures Projection(points, monthsToZero) == Project(balance, monthlyRepaymentCapacity, annualInterestRate)
  {
    ghost var cap, rate := monthlyRepaymentCapacity, annualInterestRate;
    points := [];
    var monthlyRate := annualInterestRate / 12.0;
    var currentBalance := balance;
    var month: nat := 0;

    while currentBalance > 0.0 && month < HorizonMonths
      invariant month <= HorizonMonths
      invariant currentBalance == BalanceAfter(balance, cap, rate, month)
      invariant forall j :: 0 <= j < month ==> Continues(balance, cap, rate, j)
      invariant points == Samples(balance, cap, rate, (month + 11) / 12)
      decreases HorizonMonths - month
    {
      SampleStep(balance, cap, rate, month);
      if month % 12 == 0 {
        points := points + [Point(month as real / 12.0, if currentBalance >= 0.0 then currentBalance else 0.0)];
      }
      var interestCharge := currentBalance * monthlyRate;
      var principalReduction := monthlyRepaymentCapacity - interestCharge;
      assert principalReduction == Principal(currentBalance, cap, rate);
      if principalReduction <= 0.0 {
        // the loan will never be paid off at this rate
        points := PadFlat(points, currentBalance);
        StopMonthAt(balance, cap, rate, month);
        ProjectStalled(balance, cap, rate, month);
        monthsToZero := month;
        return;
      }
      ContinuesStep(balance, cap, rate, month);
      currentBalance := currentBalance - principalReduction;
      month := month + 1;
    }
    StopMonthAt(balance, cap, rate, month);
    if currentBalance <= 0.0 {
      ProjectPaid(balance, cap, rate, month);
      points := points + [Point(month as real / 12.0, 0.0)];
    } else {
      ProjectHorizon(balance, cap, rate, month);
    }
    monthsToZero := month;
  }

  /** The stalled branch: a point at the frozen balance for every year from `|prefix|` to 30. */
  method PadFlat(prefix: seq<Point>, frozen: real) returns (points: seq<Point>)
    requires |prefix| <= HorizonYears + 1
    ensures points == prefix + Flat(|prefix|, frozen)
  {
    points := prefix;
    var i := |prefix|;
    while i <= HorizonYears
      invariant |prefix| <= i <= HorizonYears + 1
      invariant points == prefix + Flat(|prefix|, frozen)[..i - |prefix|]
    {
      FlatStep(|prefix|, frozen, i - |prefix|);
      points := points + [Point(i as real, frozen)];
      i := i + 1;
    }
    assert Flat(|prefix|, frozen)[..i - |prefix|] == Flat(|prefix|, frozen);
  }

  /** How the sample list grows when month `m` is visited. */
  lemma SampleStep(balance: real, capacity: real, annualRate: real, m: nat)
    ensures (m + 12) / 12 == m / 12 + 1
    ensures m % 12 != 0 ==> (m + 11) / 12 == m / 12 + 1
    ensures m % 12 == 0 ==> (m + 11) / 12 == m / 12 && m as real / 12.0 == (m / 12) as real
    ensures m % 12 == 0 ==>
      Samples(balance, capacity, annualRate, m / 12) + [Point(m as real / 12.0, BalanceAfter(balance, capacity, annualRate, m))]
      == Samples(balance, capacity, annualRate, m / 12 + 1)
  {
    if m % 12 == 0 {
      assert m == 12 * (m / 12);
      assert m as real == 12.0 * (m / 12) as real;
    }
  }

  /** A month simulated in full repays principal: the balance was owed and goes down. */
  lemma ContinuesStep(balance: real, capacity: real, annualRate: real, m: nat)
    requires BalanceAfter(balance, capacity, annualRate, m) > 0.0
    requires Principal(BalanceAfter(balance, capacity, annualRate, m), capacity, annualRate) > 0.0
    ensures Continues(balance, capacity, annualRate, m)
    ensures BalanceAfter(balance, capacity, annualRate, m + 1)
         == BalanceAfter(balance, capacity, annualRate, m)
            - Principal(BalanceAfter(balance, capacity, annualRate, m), capacity, annualRate)
    ensures BalanceAfter(balance, capacity, annualRate, m + 1) < BalanceAfter(balance, capacity, annualRate, m)
  {
  }

  lemma ProjectStalled(balance: real, capacity: real, annualRate: real, m: nat)
    requires m < HorizonMonths
    requires StopMonth(balance, capacity, annualRate, 0) == m
    requires BalanceAfter(balance, capacity, annualRate, m) > 0.0
    ensures Project(balance, capacity, annualRate)
         == Projection(Samples(balance, capacity, annualRate, m / 12 + 1)
                       + Flat(m / 12 + 1, BalanceAfter(balance, capacity, annualRate, m)), m)
  {
  }

  lemma ProjectPaid(balance: real, capacity: real, annualRate: real, m: nat)
    requires StopMonth(balance, capacity, annualRate, 0) == m
    requires BalanceAfter(balance, capacity, annualRate, m) <= 0.0
    ensures Project(balance, capacity, annualRate)
         == Projection(Samples(balance, capacity, annualRate, (m + 11) / 12) + [Point(m as real / 12.0, 0.0)], m)
  {
  }

  lemma ProjectHorizon(balance: real, capacity: real, annualRate: real, m: nat)
    requires m == HorizonMonths
    requires StopMonth(balance, capacity, annualRate, 0) == m
    requires BalanceAfter(balance, capacity, annualRate, m) > 0.0
    ensures Project(balance, capacity, annualRate)
         == Projection(Samples(balance, capacity, annualRate, (m + 11) / 12), m)
  {
  }

  lemma FlatStep(from: nat, frozen: real, k: nat)
    requires from + k <= HorizonYears
    ensures Flat(from, frozen)[..k + 1] == Flat(from, frozen)[..k] + [Point((from + k) as real, frozen)]
  {
  }

  /** StopMonth(0) is the first month that is not simulated in full. */
  lemma StopMonthAt(balance: real, capacity: real, annualRate: real, m: nat)
    requires m <= HorizonMonths
    requires forall j :: 0 <= j < m ==> Continues(balance, capacity, annualRate, j)
    requires m == HorizonMonths || !Continues(balance, capacity, annualRate, m)
    ensures StopMonth(balance, capacity, annualRate, 0) == m
  {
    StopMonthFrom(balance, capacity, annualRate, 0, m);
  }

  lemma {:induction false} StopMonthFrom(balance: real, capacity: real, annualRate: real, from: nat, m: nat)
    requires from <= m <= HorizonMonths
    requires forall j :: from <= j < m ==> Continues(balance, capacity, annualRate, j)
    requires m == HorizonMonths || !Continues(balance, capacity, annualRate, m)
    ensures StopMonth(balance, capacity, annualRate, from) == m
    decreases m - from
  {
    if from < m {
      StopMonthFrom(balance, capacity, annualRate, from + 1, m);
    }
  }

  /** Every month before the stop month is simulated in full; the stop month is not, unless it is the horizon. */
  lemma {:induction false} StopMonthSpec(balance: real, capacity: real, annualRate: real, from: nat)
    requires from <= HorizonMonths
    ensures var m := StopMonth(balance, capacity, annualRate, from);
      && (forall j :: from <= j < m ==> Continues(balance, capacity, annualRate, j))
      && (m == HorizonMonths || !Continues(balance, capacity, annualRate, m))
    decreases HorizonMonths - from
  {
    if from < HorizonMonths && Continues(balance, capacity, annualRate, from) {
      StopMonthSpec(balance, capacity, annualRate, from + 1);
    }
  }

  // ---------------------------------------------------------------------
  // Properties of the projection

  /** The result has at most 31 points and never runs past the 360-month horizon. */
  lemma ProjectBounds(balance: real, capacity: real, annualRate: real)
    ensures var p := Project(balance, capacity, annualRate);
      && p.monthsToZero <= HorizonMonths
      && 1 <= |p.points| <= HorizonYears + 1
  {
  }

  /** Before the stop month, the sample of year k is the balance after 12k months. */
  lemma SampledBalances(balance: real, capacity: real, annualRate: real, k: nat)
    requires var p := Project(balance, capacity, annualRate);
      12 * k < p.monthsToZero || (12 * k <= p.monthsToZero && BalanceAfter(balance, capacity, annualRate, p.monthsToZero) > 0.0 && p.monthsToZero < HorizonMonths)
    ensures Project(balance, capacity, annualRate).points[k]
         == Point(k as real, BalanceAfter(balance, capacity, annualRate, 12 * k))
  {
  }

  /** Every month before the stop month is simulated in full. */
  lemma ContinuesBeforeStop(balance: real, capacity: real, annualRate: real, j: nat)
    requires j < StopMonth(balance, capacity, annualRate, 0)
    ensures Continues(balance, capacity, annualRate, j)
  {
    StopMonthSpec(balance, capacity, annualRate, 0);
  }

  /** The sampled balances are positive and strictly decreasing up to the stop month. */
  lemma {:induction false} SampledBalancesDecrease(balance: real, capacity: real, annualRate: real, i: nat, j: nat)
    requires i < j <= StopMonth(balance, capacity, annualRate, 0)
    ensures BalanceAfter(balance, capacity, annualRate, i) > BalanceAfter(balance, capacity, annualRate, j)
    ensures BalanceAfter(balance, capacity, annualRate, i) > 0.0
    decreases j - i
  {
    ContinuesBeforeStop(balance, capacity, annualRate, j - 1);
    ContinuesStep(balance, capacity, annualRate, j - 1);
    if i < j - 1 {
      SampledBalancesDecrease(balance, capacity, annualRate, i, j - 1);
    }
  }

  /** The last point is a zero balance exactly when the loan is paid off within the horizon. */
  lemma PaidOffIff(balance: real, capacity: real, annualRate: real)
    ensures var p := Project(balance, capacity, annualRate);
      var m := p.monthsToZero;
      && (p.points[|p.points| - 1].balance == 0.0 <==> BalanceAfter(balance, capacity, annualRate, m) <= 0.0)
      && (BalanceAfter(balance, capacity, annualRate, m) <= 0.0 ==>
            p.points[|p.points| - 1] == Point(m as real / 12.0, 0.0))
  {
    var m := StopMonth(balance, capacity, annualRate, 0);
    var last := BalanceAfter(balance, capacity, annualRate, m);
    StopMonthSpec(balance, capacity, annualRate, 0);
    if last > 0.0 && m == HorizonMonths {
      assert Continues(balance, capacity, annualRate, 12 * (HorizonYears - 1));
    }
  }

  /** When repayments stop covering interest, the series is 31 yearly points ending flat. */
  lemma StalledShape(balance: real, capacity: real, annualRate: real)
    requires var m := StopMonth(balance, capacity, annualRate, 0);
      m < HorizonMonths && BalanceAfter(balance, capacity, annualRate, m) > 0.0
    ensures var p := Project(balance, capacity, annualRate);
      var frozen := BalanceAfter(balance, capacity, annualRate, p.monthsToZero);
      && |p.points| == HorizonYears + 1
      && (forall i :: 0 <= i < |p.points| ==> p.points[i].year == i as real)
      && (forall i :: p.monthsToZero / 12 < i < |p.points| ==> p.points[i].balance == frozen)
      && Principal(frozen, capacity, annualRate) <= 0.0
  {
    StopMonthSpec(balance, capacity, annualRate, 0);
  }

  /** A loan whose first month already fails to cover interest is flat at its balance for 30 years. */
  lemma StallAtStart(balance: real, capacity: real, annualRate: real)
    requires balance > 0.0 && Principal(balance, capacity, annualRate) <= 0.0
    ensures Project(balance, capacity, annualRate)
         == Projection(seq(HorizonYears + 1, i requires 0 <= i => Point(i as real, balance)), 0)
  {
    var s := Samples(balance, capacity, annualRate, 1) + Flat(1, balance);
    assert Project(balance, capacity, annualRate).points == s;
    assert forall i :: 0 <= i < |s| ==> s[i] == Point(i as real, balance);
  }

  /** Reaching the horizon unpaid gives 30 samples (years 0 .. 29), all still owed. */
  lemma HorizonShape(balance: real, capacity: real, annualRate: real)
    requires BalanceAfter(balance, capacity, annualRate, StopMonth(balance, capacity, annualRate, 0)) > 0.0
    requires StopMonth(balance, capacity, annualRate, 0) == HorizonMonths
    ensures var p := Project(balance, capacity, annualRate);
      && |p.points| == HorizonYears
      && (forall i :: 0 <= i < |p.points| ==> p.points[i].year == i as real && p.points[i].balance > 0.0)
  {
    StopMonthSpec(balance, capacity, annualRate, 0);
    var p := Project(balance, capacity, annualRate);
    forall i | 0 <= i < |p.points|
      ensures p.points[i].balance > 0.0
    {
      assert Continues(balance, capacity, annualRate, 12 * i);
    }
  }

  /** Without interest the balance falls by the full capacity every month. */
  lemma {:induction false} ZeroRateBalance(balance: real, capacity: real, annualRate: real, n: nat)
    requires annualRate == 0.0
    ensures BalanceAfter(balance, capacity, annualRate, n) == balance - n as real * capacity
  {
    if n > 0 {
      ZeroRateBalance(balance, capacity, annualRate, n - 1);
    }
  }

  /** Without interest, month j is simulated in full while j payments leave something owed. */
  lemma ZeroRateContinues(balance: real, capacity: real, annualRate: real, j: nat)
    requires annualRate == 0.0 && capacity > 0.0
    requires j as real * capacity < balance
    ensures Continues(balance, capacity, annualRate, j)
  {
    ZeroRateBalance(balance, capacity, annualRate, j);
  }

  /**
   * Without interest, a balance that m payments clear and m - 1 do not is
   * paid off in month m: the samples of the earlier years, then the zero point.
   */
  lemma ZeroRatePayoff(balance: real, capacity: real, annualRate: real, m: nat)
    requires annualRate == 0.0 && capacity > 0.0 && 0 < m <= HorizonMonths
    requires (m - 1) as real * capacity < balance <= m as real * capacity
    ensures StopMonth(balance, capacity, annualRate, 0) == m
    ensures Project(balance, capacity, annualRate)
         == Projection(Samples(balance, capacity, annualRate, (m + 11) / 12) + [Point(m as real / 12.0, 0.0)], m)
  {
    forall j | 0 <= j < m
      ensures Continues(balance, capacity, annualRate, j)
    {
      assert (m - 1 - j) as real * capacity >= 0.0;
      ZeroRateContinues(balance, capacity, annualRate, j);
    }
    ZeroRateBalance(balance, capacity, annualRate, m);
    StopMonthAt(balance, capacity, annualRate, m);
    ProjectPaid(balance, capacity, annualRate, m);
  }

  /** The first sample is the opening balance at year 0. */
  lemma FirstSample(balance: real, capacity: real, annualRate: real)
    ensures Samples(balance, capacity, annualRate, 1) == [Point(0.0, balance)]
  {
    var s := Samples(balance, capacity, annualRate, 1);
    assert s[0] == Point(0 as real, BalanceAfter(balance, capacity, annualRate, 12 * 0));
  }

  /** Without interest, a balance that takes ten payments gives the opening sample and a zero point at 10/12 of a year. */
  lemma ZeroRateTenMonths(balance: real, capacity: real, annualRate: real)
    requires annualRate == 0.0 && capacity > 0.0
    requires 9.0 * capacity < balance <= 10.0 * capacity
    ensures Project(balance, capacity, annualRate)
         == Projection([Point(0.0, balance), Point(10.0 / 12.0, 0.0)], 10)
  {
    ZeroRatePayoff(balance, capacity, annualRate, 10);
    FirstSample(balance, capacity, annualRate);
  }

  /** 10,000 repaid at 1,000 a month without interest. */
  lemma ZeroRateExample()
    ensures Project(10000.0, 1000.0, 0.0)
         == Projection([Point(0.0, 10000.0), Point(10.0 / 12.0, 0.0)], 10)
  {
    ZeroRateTenMonths(10000.0, 1000.0, 0.0);
  }

  /** At 6% a 100,000 balance accrues exactly 500 a month, so 500 a month never pays it off. */
  lemma InterestOnlyExample()
    ensures var p := Project(100000.0, 500.0, DefaultAnnualRate);
      && p.monthsToZero == 0
      && |p.points| == HorizonYears + 1
      && (forall i :: 0 <= i < |p.points| ==> p.points[i] == Point(i as real, 100000.0))
  {
    StallAtStart(100000.0, 500.0, DefaultAnnualRate);
  }

  /**
   * A zero balance and a loan that stalls at once both report zero months,
   * so `monthsToZero` alone does not tell "paid off" from "never paid off".
   */
  lemma MonthsToZeroAmbiguous(capacity: real, annualRate: real)
    ensures Project(0.0, capacity, annualRate).monthsToZero == 0
    ensures Project(0.0, capacity, annualRate).points == [Point(0.0, 0.0)]
    ensures Project(100000.0, 500.0, DefaultAnnualRate).monthsToZero == 0
    ensures Project(100000.0, 500.0, DefaultAnnualRate).points[HorizonYears].balance == 100000.0
  {
    InterestOnlyExample();
  }
}
