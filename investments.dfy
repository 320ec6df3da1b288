/** The investment figures (`investmentFinancials` in App.tsx): every investment
    allocation compounds monthly at its own annual rate over the whole months from
    its date to today, and the results are summed, floored against the amount paid
    in, and broken down by the free-text investment type.

    The monthly rate `Math.pow(1 + rate / 100, 1 / 12) - 1` is a fractional power,
    so it is a parameter `monthlyRate` of type `real -> real`; the only fact used of
    it is that a zero annual rate gives a zero monthly rate. */
module Investments {
  import opened Dates
  import opened Types
  import opened Seqs

  /** `Math.pow(b, n)` for a whole exponent. */
  function Pow(b: real, n: nat): real {
    if n == 0 then 1.0 else b * Pow(b, n - 1)
  }

  lemma {:induction false} PowOne(n: nat)
    ensures Pow(1.0, n) == 1.0
  {
    if n > 0 {
      PowOne(n - 1);
    }
  }

  lemma {:induction false} PowAtLeastOne(b: real, n: nat)
    requires b >= 1.0
    ensures Pow(b, n) >= 1.0
  {
    if n > 0 {
      PowAtLeastOne(b, n - 1);
    }
  }

  /** `max(0, (today.year - start.year) * 12 - start.getMonth() + today.getMonth())`:
      whole calendar months between the two dates, whatever their days. */
  function WholeMonths(start: Date, today: Date): (n: nat)
    ensures MonthIndex(today) >= MonthIndex(start) ==> n == MonthIndex(today) - MonthIndex(start)
    ensures MonthIndex(today) < MonthIndex(start) ==> n == 0
  {
    var months := (today.year - start.year) * 12 - (start.month - 1) + (today.month - 1);
    if months < 0 then 0 else months
  }

  /** `alloc.interestRate || 0`. */
  function RateOf(a: Allocation): real {
    if a.interestRate.Some? then a.interestRate.value else 0.0
  }

  /** `amount * Math.pow(1 + monthlyRate, months)`. */
  function Compound(amount: real, monthlyRate: real, months: nat): real {
    amount * Pow(1.0 + monthlyRate, months)
  }

  /** What one allocation is worth today. */
  function FinalValue(a: Allocation, today: Date, monthlyRate: real -> real): real {
    Compound(a.amount, monthlyRate(RateOf(a)), WholeMonths(a.date, today))
  }

  function ValueAt(today: Date, monthlyRate: real -> real): Allocation -> real {
    (a: Allocation) => FinalValue(a, today, monthlyRate)
  }

  /** `alloc.investmentType || unclassified`: a missing or empty type goes under
      the translated "unclassified" label. */
  function TypeLabel(unclassified: string): Allocation -> string {
    (a: Allocation) => if a.investmentType.Some? && a.investmentType.value != "" then a.investmentType.value else unclassified
  }

  function Amount(a: Allocation): real { a.amount }

  predicate IsInvestment(a: Allocation) { a.category == Investments }

  datatype InvestmentFigures = InvestmentFigures(
    totalContributions: real,
    currentValue: real,
    growth: real,
    breakdown: seq<(string, real)>)

  /** The figures, over the investment allocations only: the amount paid in, the
      compounded value floored at the amount paid in, the growth floored at 0, and
      the compounded values grouped by type label. */
  function Figures(allocs: seq<Allocation>, today: Date, monthlyRate: real -> real, unclassified: string)
    : (fig: InvestmentFigures)
    ensures fig.currentValue >= fig.totalContributions && fig.growth >= 0.0
    ensures fig.currentValue > fig.totalContributions ==> fig.growth == fig.currentValue - fig.totalContributions
    ensures fig.currentValue == fig.totalContributions + fig.growth
  {
    var inv := Filter(allocs, IsInvestment);
    var contributions := SumBy(inv, Amount);
    var value := SumBy(inv, ValueAt(today, monthlyRate));
    var growth := value - contributions;
    InvestmentFigures(
      contributions,
      if contributions > value then contributions else value,
      if growth > 0.0 then growth else 0.0,
      Group(inv, TypeLabel(unclassified), ValueAt(today, monthlyRate)))
  }

  /** The `forEach` over the investment allocations. */
  method ComputeFigures(allocs: seq<Allocation>, today: Date, monthlyRate: real -> real, unclassified: string)
    returns (fig: InvestmentFigures)
    ensures fig == Figures(allocs, today, monthlyRate, unclassified)
  {
    var inv := Filter(allocs, IsInvestment);
    var totalContributions := 0.0;
    var currentValue := 0.0;
    var breakdown: seq<(string, real)> := [];
    for i := 0 to |inv|
      invariant totalContributions == SumBy(inv[..i], Amount)
      invariant currentValue == SumBy(inv[..i], ValueAt(today, monthlyRate))
      invariant breakdown == Group(inv[..i], TypeLabel(unclassified), ValueAt(today, monthlyRate))
    {
      var alloc := inv[i];
      FiguresStep(inv, i, today, monthlyRate, unclassified);
      totalContributions := totalContributions + alloc.amount;
      var rate := if alloc.interestRate.Some? then alloc.interestRate.value else 0.0;
      var monthly := monthlyRate(rate);
      var months := (today.year - alloc.date.year) * 12 - (alloc.date.month - 1) + (today.month - 1);
      if months < 0 {
        months := 0;
      }
      var finalValue := Compound(alloc.amount, monthly, months);
      currentValue := currentValue + finalValue;
      var typeKey := if alloc.investmentType.Some? && alloc.investmentType.value != "" then alloc.investmentType.value else unclassified;
      assert finalValue == FinalValue(alloc, today, monthlyRate);
      breakdown := Accumulate(breakdown, typeKey, finalValue);
    }
    assert inv[..|inv|] == inv;
    var growth := currentValue - totalContributions;
    fig := InvestmentFigures(
      totalContributions,
      if totalContributions > currentValue then totalContributions else currentValue,
      if growth > 0.0 then growth else 0.0,
      breakdown);
  }

  /** One more allocation of the `forEach`. */
  lemma FiguresStep(inv: seq<Allocation>, i: int, today: Date, monthlyRate: real -> real, unclassified: string)
    requires 0 <= i < |inv|
    ensures SumBy(inv[..i + 1], Amount) == SumBy(inv[..i], Amount) + inv[i].amount
    ensures SumBy(inv[..i + 1], ValueAt(today, monthlyRate))
         == SumBy(inv[..i], ValueAt(today, monthlyRate)) + FinalValue(inv[i], today, monthlyRate)
    ensures Group(inv[..i + 1], TypeLabel(unclassified), ValueAt(today, monthlyRate))
         == Accumulate(Group(inv[..i], TypeLabel(unclassified), ValueAt(today, monthlyRate)),
                       TypeLabel(unclassified)(inv[i]), FinalValue(inv[i], today, monthlyRate))
  {
    assert inv[..i + 1] == inv[..i] + [inv[i]];
    StepSums(inv[..i], inv[i], Amount);
    StepSums(inv[..i], inv[i], ValueAt(today, monthlyRate));
    GroupStep(inv[..i], inv[i], TypeLabel(unclassified), ValueAt(today, monthlyRate));
  }

  lemma GroupStep(s: seq<Allocation>, a: Allocation, key: Allocation -> string, f: Allocation -> real)
    ensures Group(s + [a], key, f) == Accumulate(Group(s, key, f), key(a), f(a))
  {
    assert (s + [a])[..|s|] == s;
  }

  lemma StepSums(s: seq<Allocation>, a: Allocation, f: Allocation -> real)
    ensures SumBy(s + [a], f) == SumBy(s, f) + f(a)
  {
    assert (s + [a])[..|s|] == s;
  }

  /** An allocation with no rate, or a zero rate, stays at its principal. */
  lemma ZeroRateKeepsPrincipal(a: Allocation, today: Date, monthlyRate: real -> real)
    requires monthlyRate(0.0) == 0.0
    requires a.interestRate.None? || a.interestRate.value == 0.0
    ensures FinalValue(a, today, monthlyRate) == a.amount
  {
    PowOne(WholeMonths(a.date, today));
  }

  /** A non-negative monthly rate never loses a non-negative principal. */
  lemma GrowthNeverLoses(a: Allocation, today: Date, monthlyRate: real -> real)
    requires a.amount >= 0.0 && monthlyRate(RateOf(a)) >= 0.0
    ensures FinalValue(a, today, monthlyRate) >= a.amount
  {
    PowAtLeastOne(1.0 + monthlyRate(RateOf(a)), WholeMonths(a.date, today));
  }

  /** When no investment carries a rate, the value is what was paid in and there
      is no growth. */
  lemma NoRatesNoGrowth(allocs: seq<Allocation>, today: Date, monthlyRate: real -> real, unclassified: string)
    requires monthlyRate(0.0) == 0.0
    requires forall a :: a in allocs && IsInvestment(a) ==> a.interestRate.None? || a.interestRate.value == 0.0
    ensures var fig := Figures(allocs, today, monthlyRate, unclassified);
      fig.currentValue == fig.totalContributions && fig.growth == 0.0
  {
    var inv := Filter(allocs, IsInvestment);
    forall a | a in inv ensures Amount(a) == ValueAt(today, monthlyRate)(a) {
      ZeroRateKeepsPrincipal(a, today, monthlyRate);
    }
    SumPointwise(inv, Amount, ValueAt(today, monthlyRate));
  }

  /** The breakdown holds one entry per type label present among the investments,
      each the sum of that label's compounded values, and its values add up to the
      compounded value before the floor; below the amount paid in, the value shown
      is that amount and the growth is 0. */
  lemma BreakdownAddsUp(allocs: seq<Allocation>, today: Date, monthlyRate: real -> real, unclassified: string)
    ensures var fig := Figures(allocs, today, monthlyRate, unclassified);
      var inv := Filter(allocs, IsInvestment);
      && DistinctKeys(fig.breakdown)
      && (forall k :: k in Keys(fig.breakdown) <==> exists a :: a in inv && TypeLabel(unclassified)(a) == k)
      && (forall k :: Lookup(fig.breakdown, k) == SumBy(inv, Only(TypeLabel(unclassified), ValueAt(today, monthlyRate), k)))
      && SumValues(fig.breakdown) == SumBy(inv, ValueAt(today, monthlyRate))
      && (SumValues(fig.breakdown) >= fig.totalContributions ==> SumValues(fig.breakdown) == fig.currentValue)
      && (SumValues(fig.breakdown) < fig.totalContributions ==> fig.currentValue == fig.totalContributions && fig.growth == 0.0)
  {
    var inv := Filter(allocs, IsInvestment);
    GroupCorrect(inv, TypeLabel(unclassified), ValueAt(today, monthlyRate));
  }

  /** Only investment allocations count: the figures over all allocations are the
      figures over the investment allocations alone. */
  lemma OnlyInvestmentsCount(allocs: seq<Allocation>, today: Date, monthlyRate: real -> real, unclassified: string)
    ensures Figures(allocs, today, monthlyRate, unclassified)
         == Figures(Filter(allocs, IsInvestment), today, monthlyRate, unclassified)
  {
    FilterAll(Filter(allocs, IsInvestment), IsInvestment);
  }
}
