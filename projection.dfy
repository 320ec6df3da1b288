/** The 60-month projection (`projectionData` in App.tsx): the investments grow at
    the amount-weighted mean of the rated investments' annual rates; each month
    adds the net of the recurring templates that start in that month; the running
    value and running contributions are reported floored at 0. */
module Projection {
  import opened Dates
  import opened Types
  import opened Seqs
  import opened Investments

  // ---------------------------------------------------------------------------
  // The average rate
  // ---------------------------------------------------------------------------

  /** `a.category === INVESTMENTS && a.interestRate`: a missing or zero rate is
      falsy and left out. */
  predicate RatedInvestment(a: Allocation) {
    a.category == Investments && a.interestRate.Some? && a.interestRate.value != 0.0
  }

  /** `a.amount * a.interestRate`. */
  function WeightedRate(a: Allocation): real {
    a.amount * RateOf(a)
  }

  /** `totalAmountForRate > 0 ? totalRate / totalAmountForRate : 0`. */
  function AverageOf(totalRate: real, totalAmount: real): real {
    if totalAmount > 0.0 then totalRate / totalAmount else 0.0
  }

  /** The amount-weighted mean annual rate of the rated investments. */
  function AverageAnnualRate(allocs: seq<Allocation>): real {
    var rated := Filter(allocs, RatedInvestment);
    AverageOf(SumBy(rated, WeightedRate), SumBy(rated, Amount))
  }

  /** The average looks only at rated investments, and is 0 when there are none. */
  lemma AverageIgnoresUnrated(allocs: seq<Allocation>)
    ensures AverageAnnualRate(allocs) == AverageAnnualRate(Filter(allocs, RatedInvestment))
    ensures (forall a :: a in allocs ==> !RatedInvestment(a)) ==> AverageAnnualRate(allocs) == 0.0
  {
    FilterAll(Filter(allocs, RatedInvestment), RatedInvestment);
    if forall a :: a in allocs ==> !RatedInvestment(a) {
      FilterNone(allocs, RatedInvestment);
    }
  }

  /** When every rated investment has the same rate and their amounts add up to
      something positive, the average is that rate. */
  lemma SameRateAverage(allocs: seq<Allocation>, r: real)
    requires forall a :: a in allocs && RatedInvestment(a) ==> a.interestRate.value == r
    requires SumBy(Filter(allocs, RatedInvestment), Amount) > 0.0
    ensures AverageAnnualRate(allocs) == r
  {
    var rated := Filter(allocs, RatedInvestment);
    WeightedSum(rated, r);
    DivideBack(SumBy(rated, WeightedRate), r, SumBy(rated, Amount));
  }

  lemma WeightedSum(rated: seq<Allocation>, r: real)
    requires forall a :: a in rated ==> RateOf(a) == r
    ensures SumBy(rated, WeightedRate) == r * SumBy(rated, Amount)
  {
    forall a | a in rated ensures WeightedRate(a) == r * Amount(a) {
    }
    SumScale(rated, Amount, WeightedRate, r);
  }

  lemma DivideBack(weighted: real, r: real, total: real)
    requires total > 0.0 && weighted == r * total
    ensures AverageOf(weighted, total) == r
  {
  }

  // ---------------------------------------------------------------------------
  // The recurring net of a future month
  // ---------------------------------------------------------------------------

  /** `futureDate.setMonth(now.getMonth() + i); futureDate.setDate(1)`: the month
      step carries an overflowing day forward before the day is reset to 1. */
  function FutureMonth(now: Date, i: int): (d: Date)
    requires WellFormed(now)
    ensures WellFormed(d) && d.day == 1
    ensures MonthIndex(d) == MonthIndex(now) + i || MonthIndex(d) == MonthIndex(now) + i + 1
  {
    SetDay(AddMonths(now, i), 1)
  }

  /** The condition of the `reduce` over the templates, for the month of `fd`. */
  predicate CountsIn(r: RecurringTransaction, fd: Date)
    requires 1 <= fd.month <= 12
  {
    var startOfMonth := Date(fd.year, fd.month, 1);
    var endOfMonth := Date(fd.year, fd.month, DaysInMonth(fd.year, fd.month));
    && r.startDate.day >= startOfMonth.day
    && r.startDate.month == startOfMonth.month
    && r.startDate.year == startOfMonth.year
    && NotAfter(r.startDate, endOfMonth)
    && (r.endDate.None? || NotAfter(startOfMonth, r.endDate.value))
  }

  /** A template counts in a month exactly when it starts in that month and has
      not ended before the month begins. */
  lemma CountsInMeaning(r: RecurringTransaction, fd: Date)
    requires ValidRecurring(r) && WellFormed(fd)
    ensures CountsIn(r, fd) <==>
      && r.startDate.year == fd.year && r.startDate.month == fd.month
      && (r.endDate.None? || NotAfter(Date(fd.year, fd.month, 1), r.endDate.value))
  {
  }

  function SignedAmount(r: RecurringTransaction): real {
    if r.kind == Income then r.amount else -r.amount
  }

  function NetIn(fd: Date): RecurringTransaction -> real
    requires 1 <= fd.month <= 12
  {
    (r: RecurringTransaction) => if CountsIn(r, fd) then SignedAmount(r) else 0.0
  }

  /** `monthlyRecurringNet`. */
  function RecurringNet(rs: seq<RecurringTransaction>, fd: Date): real
    requires 1 <= fd.month <= 12
  {
    SumBy(rs, NetIn(fd))
  }

  // ---------------------------------------------------------------------------
  // The running state
  // ---------------------------------------------------------------------------

  /** `runningInvestments *= (1 + monthlyRate)`. */
  function Grow(value: real, monthlyRate: real): real {
    value * (1.0 + monthlyRate)
  }

  function Floor0(x: real): real {
    if x > 0.0 then x else 0.0
  }

  datatype Running = Running(value: real, contributions: real)

  datatype ProjectionPoint = ProjectionPoint(month: Date, value: real, contributions: real)

  /** The running value and contributions after `k` months. */
  function RunFor(now: Date, rs: seq<RecurringTransaction>, monthlyRate: real, start: Running, k: nat): Running
    requires WellFormed(now)
  {
    if k == 0 then start
    else
      var prev := RunFor(now, rs, monthlyRate, start, k - 1);
      var net := RecurringNet(rs, FutureMonth(now, k));
      Running(Grow(prev.value, monthlyRate) + net,
              if net > 0.0 then prev.contributions + net else prev.contributions)
  }

  /** The reported point of month `k`. */
  function PointAt(now: Date, rs: seq<RecurringTransaction>, monthlyRate: real, start: Running, k: nat): ProjectionPoint
    requires WellFormed(now)
  {
    var run := RunFor(now, rs, monthlyRate, start, k);
    ProjectionPoint(FutureMonth(now, k), Floor0(run.value), Floor0(run.contributions))
  }

  /** The first `n` points. */
  function Points(now: Date, rs: seq<RecurringTransaction>, monthlyRate: real, start: Running, n: nat)
    : (ps: seq<ProjectionPoint>)
    requires WellFormed(now)
    ensures |ps| == n
  {
    seq(n, i requires 0 <= i < n => PointAt(now, rs, monthlyRate, start, i + 1))
  }

  /** The projection: 60 points from the investment figures and the templates. */
  function ProjectionOf(allocs: seq<Allocation>, rs: seq<RecurringTransaction>, fig: InvestmentFigures,
                        now: Date, monthlyRate: real -> real): seq<ProjectionPoint>
    requires WellFormed(now)
  {
    Points(now, rs, monthlyRate(AverageAnnualRate(allocs)),
           Running(fig.currentValue, fig.totalContributions), 60)
  }

  /** The `forEach` that accumulates the rated investments' weighted rates. */
  method ComputeAverageRate(allocs: seq<Allocation>) returns (averageAnnualRate: real)
    ensures averageAnnualRate == AverageAnnualRate(allocs)
  {
    var rated := Filter(allocs, RatedInvestment);
    var totalRate := 0.0;
    var totalAmountForRate := 0.0;
    for i := 0 to |rated|
      invariant totalRate == SumBy(rated[..i], WeightedRate)
      invariant totalAmountForRate == SumBy(rated[..i], Amount)
    {
      assert rated[..i + 1] == rated[..i] + [rated[i]];
      SumSnoc(rated[..i], rated[i], WeightedRate);
      SumSnoc(rated[..i], rated[i], Amount);
      totalRate := totalRate + WeightedRate(rated[i]);
      totalAmountForRate := totalAmountForRate + rated[i].amount;
    }
    assert rated[..|rated|] == rated;
    averageAnnualRate := AverageOf(totalRate, totalAmountForRate);
  }

  lemma PointsSnoc(now: Date, rs: seq<RecurringTransaction>, monthlyRate: real, start: Running, n: nat)
    requires WellFormed(now)
    ensures Points(now, rs, monthlyRate, start, n + 1)
         == Points(now, rs, monthlyRate, start, n) + [PointAt(now, rs, monthlyRate, start, n + 1)]
  {
  }

  /** The 60-step `for` loop, from a starting value and contribution total. */
  method ProjectFrom(now: Date, rs: seq<RecurringTransaction>, monthlyRate: real, start: Running)
    returns (data: seq<ProjectionPoint>)
    requires WellFormed(now)
    ensures data == Points(now, rs, monthlyRate, start, 60)
  {
    data := [];
    var runningInvestments := start.value;
    var runningContributions := start.contributions;
    for i := 1 to 61
      invariant Running(runningInvestments, runningContributions) == RunFor(now, rs, monthlyRate, start, i - 1)
      invariant data == Points(now, rs, monthlyRate, start, i - 1)
    {
      var futureDate := FutureMonth(now, i);
      runningInvestments := Grow(runningInvestments, monthlyRate);
      var monthlyRecurringNet := RecurringNet(rs, futureDate);
      runningInvestments := runningInvestments + monthlyRecurringNet;
      if monthlyRecurringNet > 0.0 {
        runningContributions := runningContributions + monthlyRecurringNet;
      }
      PointsSnoc(now, rs, monthlyRate, start, i - 1);
      data := data + [ProjectionPoint(futureDate, Floor0(runningInvestments), Floor0(runningContributions))];
    }
  }

  /** `projectionData`: the average rate, then the projection from the current
      investment value and contributions. */
  method ComputeProjection(allocs: seq<Allocation>, rs: seq<RecurringTransaction>, fig: InvestmentFigures,
                           now: Date, monthlyRateOf: real -> real)
    returns (data: seq<ProjectionPoint>)
    requires WellFormed(now)
    ensures |data| == 60
    ensures data == ProjectionOf(allocs, rs, fig, now, monthlyRateOf)
  {
    var averageAnnualRate := ComputeAverageRate(allocs);
    var monthlyRate := monthlyRateOf(averageAnnualRate);
    data := ProjectFrom(now, rs, monthlyRate, Running(fig.currentValue, fig.totalContributions));
  }

  lemma SumSnoc<T>(s: seq<T>, x: T, f: T -> real)
    ensures SumBy(s + [x], f) == SumBy(s, f) + f(x)
  {
    assert (s + [x])[..|s|] == s;
  }

  /** Every reported value and contribution is non-negative, and each point is the
      first day of a month. */
  lemma PointsNonNegative(now: Date, rs: seq<RecurringTransaction>, monthlyRate: real, start: Running, n: nat)
    requires WellFormed(now)
    ensures forall p :: p in Points(now, rs, monthlyRate, start, n) ==>
      p.value >= 0.0 && p.contributions >= 0.0 && p.month.day == 1
  {
  }

  /** Running contributions never decrease from one month to a later one. */
  lemma {:induction false} ContributionsGrow(now: Date, rs: seq<RecurringTransaction>, monthlyRate: real, start: Running, j: nat, k: nat)
    requires WellFormed(now) && j <= k
    ensures RunFor(now, rs, monthlyRate, start, j).contributions <= RunFor(now, rs, monthlyRate, start, k).contributions
    decreases k
  {
    if j < k {
      ContributionsGrow(now, rs, monthlyRate, start, j, k - 1);
    }
  }

  /** The reported contributions never decrease along the projection. */
  lemma ReportedContributionsGrow(now: Date, rs: seq<RecurringTransaction>, monthlyRate: real, start: Running, n: nat)
    requires WellFormed(now)
    ensures var ps := Points(now, rs, monthlyRate, start, n);
      forall i, j :: 0 <= i < j < n ==> ps[i].contributions <= ps[j].contributions
  {
    var ps := Points(now, rs, monthlyRate, start, n);
    forall i, j | 0 <= i < j < n ensures ps[i].contributions <= ps[j].contributions {
      var a := RunFor(now, rs, monthlyRate, start, i + 1).contributions;
      var b := RunFor(now, rs, monthlyRate, start, j + 1).contributions;
      assert ps[i].contributions == Floor0(a);
      assert ps[j].contributions == Floor0(b);
      ContributionsGrow(now, rs, monthlyRate, start, i + 1, j + 1);
    }
  }

  /** Without rate and without recurring templates the value stays where it is. */
  lemma {:induction false} FlatWithoutGrowth(now: Date, monthlyRate: real, start: Running, k: nat)
    requires WellFormed(now) && monthlyRate == 0.0
    ensures RunFor(now, [], monthlyRate, start, k) == start
  {
    if k > 0 {
      FlatWithoutGrowth(now, monthlyRate, start, k - 1);
    }
  }

  /** The month labels inherit the month-step carry: from 31 January 2024 the
      first two points both fall in March, and February is skipped. */
  lemma MonthLabelExample()
    ensures FutureMonth(Date(2024, 1, 31), 1) == Date(2024, 3, 1)
    ensures FutureMonth(Date(2024, 1, 31), 2) == Date(2024, 3, 1)
  {
    assert AddMonths(Date(2024, 1, 31), 1) == Date(2024, 3, 2);
    assert AddMonths(Date(2024, 1, 31), 2) == Date(2024, 3, 31);
  }
}
