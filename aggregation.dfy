/** The dashboard figures derived from the ledger (App.tsx): the date filter, the
    `financials` totals, the savings-allocation pie, the emergency-fund progress
    bar and the list of years the filter offers. */
module Aggregation {
  import opened Wrappers
  import opened Dates
  import opened Types
  import opened Seqs

  // ---------------------------------------------------------------------------
  // The date filter
  // ---------------------------------------------------------------------------

  /** `filter.type === 'all' || !filter.value`: a null or empty value filters nothing. */
  predicate Inactive(f: DateFilter) {
    f.kind == All || f.value.None? || f.value.value == ""
  }

  /** `date.startsWith(filter.value)` on the `YYYY-MM-DD` text of the date. */
  predicate Selects(f: DateFilter, d: Date) {
    Inactive(f) || (Valid(d) && f.value.value <= IsoDay(d))
  }

  /** `filteredTransactions`. */
  function FilterTransactions(txs: seq<Transaction>, f: DateFilter): seq<Transaction> {
    if Inactive(f) then txs else Filter(txs, (t: Transaction) => Selects(f, t.date))
  }

  /** `filteredAllocations`. */
  function FilterAllocations(allocs: seq<Allocation>, f: DateFilter): seq<Allocation> {
    if Inactive(f) then allocs else Filter(allocs, (a: Allocation) => Selects(f, a.date))
  }

  /** What the three filter values the dashboard sets mean: a year `YYYY` keeps
      that year, a month `YYYY-MM` that month, a day `YYYY-MM-DD` that day. */
  lemma SelectsMeaning(d: Date, y: int, m: int, e: Date)
    requires Valid(d) && 0 <= y <= 9999 && 1 <= m <= 12 && Valid(e)
    ensures Selects(DateFilter(Year, Some(Pad4(y))), d) <==> d.year == y
    ensures Selects(DateFilter(Month, Some(IsoMonth(y, m))), d) <==> d.year == y && d.month == m
    ensures Selects(DateFilter(Day, Some(IsoDay(e))), d) <==> d == e
  {
    YearPrefix(y, d);
    MonthPrefix(y, m, d);
    DayPrefix(e, d);
  }

  /** With filter type `all` or no value every transaction is kept as it is;
      otherwise exactly those whose date text starts with the value, in order. */
  lemma FilterTransactionsExact(txs: seq<Transaction>, f: DateFilter)
    ensures Inactive(f) ==> FilterTransactions(txs, f) == txs
    ensures forall t :: t in FilterTransactions(txs, f) <==>
      t in txs && (Inactive(f) || (Valid(t.date) && f.value.value <= IsoDay(t.date)))
  {
  }

  /** A month filter keeps, in their order, the transactions of that month. */
  lemma MonthFilterKeepsMonth(txs: seq<Transaction>, y: int, m: int)
    requires 0 <= y <= 9999 && 1 <= m <= 12
    requires forall t :: t in txs ==> ValidTransaction(t)
    ensures FilterTransactions(txs, DateFilter(Month, Some(IsoMonth(y, m)))) ==
      Filter(txs, (t: Transaction) => t.date.year == y && t.date.month == m)
  {
    var f := DateFilter(Month, Some(IsoMonth(y, m)));
    forall t | t in txs
      ensures Selects(f, t.date) == (t.date.year == y && t.date.month == m)
    {
      SelectsMeaning(t.date, y, m, t.date);
    }
    FilterPointwise(txs, (t: Transaction) => Selects(f, t.date),
      (t: Transaction) => t.date.year == y && t.date.month == m);
  }

  /** A year filter keeps, in their order, the transactions of that year. */
  lemma YearFilterKeepsYear(txs: seq<Transaction>, y: int)
    requires 0 <= y <= 9999
    requires forall t :: t in txs ==> ValidTransaction(t)
    ensures FilterTransactions(txs, DateFilter(Year, Some(Pad4(y)))) ==
      Filter(txs, (t: Transaction) => t.date.year == y)
  {
    var f := DateFilter(Year, Some(Pad4(y)));
    forall t | t in txs ensures Selects(f, t.date) == (t.date.year == y) {
      SelectsMeaning(t.date, y, 1, t.date);
    }
    FilterPointwise(txs, (t: Transaction) => Selects(f, t.date), (t: Transaction) => t.date.year == y);
  }

  // ---------------------------------------------------------------------------
  // financials
  // ---------------------------------------------------------------------------

  datatype Financials = Financials(
    totalIncome: real,
    totalExpenses: real,
    totalBalance: real,
    totalAllocated: real,
    unallocated: real,
    savingsRate: real,
    allocationsByType: seq<(AllocationCategory, real)>)

  function Amount(t: Transaction): real { t.amount }

  function AllocationAmount(a: Allocation): real { a.amount }

  function AllocationCategoryOf(a: Allocation): AllocationCategory { a.category }

  /** A transaction's amount when it is income, else nothing. */
  function IncomeAmount(t: Transaction): real {
    if t.kind == Income then t.amount else 0.0
  }

  function ExpenseAmount(t: Transaction): real {
    if t.kind == Expense then t.amount else 0.0
  }

  /** An allocation's amount when it is in category `c`, else nothing. */
  function AmountIn(c: AllocationCategory): Allocation -> real {
    Only(AllocationCategoryOf, AllocationAmount, c)
  }

  predicate IsIncome(t: Transaction) { t.kind == Income }

  predicate IsExpense(t: Transaction) { t.kind == Expense }

  /** The `financials` memo.  The savings rate is the balance as a percentage of a
      positive income and 0 otherwise; unallocated is 0 unless the balance is
      positive, and then exactly the balance minus the total allocated, with no
      floor. */
  function ComputeFinancials(txs: seq<Transaction>, allocs: seq<Allocation>, f: DateFilter): (fin: Financials)
    ensures fin.totalIncome <= 0.0 ==> fin.savingsRate == 0.0
    ensures fin.totalIncome > 0.0 ==> fin.savingsRate == (fin.totalBalance / fin.totalIncome) * 100.0
    ensures fin.totalBalance <= 0.0 ==> fin.unallocated == 0.0
    ensures fin.totalBalance > 0.0 ==> fin.unallocated == fin.totalBalance - fin.totalAllocated
  {
    var sourceTxs := if f.kind == All then txs else FilterTransactions(txs, f);
    var sourceAllocs := if f.kind == All then allocs else FilterAllocations(allocs, f);
    var income := SumBy(Filter(sourceTxs, IsIncome), Amount);
    var expenses := SumBy(Filter(sourceTxs, IsExpense), Amount);
    var balance := income - expenses;
    var savingsRate := if income > 0.0 then (balance / income) * 100.0 else 0.0;
    var byType := Group(sourceAllocs, AllocationCategoryOf, AllocationAmount);
    var totalAllocated := SumValues(byType);
    var unallocated := if balance > 0.0 then balance - totalAllocated else 0.0;
    Financials(income, expenses, balance, totalAllocated, unallocated, savingsRate, byType)
  }

  /** Income and expenses each sum the amounts of their own type only, over the
      filtered transactions, and the balance is their difference. */
  lemma {:induction false} FinancialsTotals(txs: seq<Transaction>, allocs: seq<Allocation>, f: DateFilter)
    ensures var fin := ComputeFinancials(txs, allocs, f);
      var src := FilterTransactions(txs, f);
      && fin.totalIncome == SumBy(src, IncomeAmount)
      && fin.totalExpenses == SumBy(src, ExpenseAmount)
      && fin.totalBalance == fin.totalIncome - fin.totalExpenses
  {
    var src := FilterTransactions(txs, f);
    assert f.kind == All ==> src == txs;
    SumFilter(src, IsIncome, Amount, IncomeAmount);
    SumFilter(src, IsExpense, Amount, ExpenseAmount);
  }

  /** The per-category sums: one entry per category that occurs, each the sum of
      that category's amounts; the total allocated is their sum, which is the sum
      of all filtered allocation amounts. */
  lemma {:induction false} FinancialsAllocations(txs: seq<Transaction>, allocs: seq<Allocation>, f: DateFilter)
    ensures var fin := ComputeFinancials(txs, allocs, f);
      var src := FilterAllocations(allocs, f);
      && DistinctKeys(fin.allocationsByType)
      && (forall c :: c in Keys(fin.allocationsByType) <==> exists a :: a in src && a.category == c)
      && (forall c :: Lookup(fin.allocationsByType, c) == SumBy(src, AmountIn(c)))
      && fin.totalAllocated == SumBy(src, AllocationAmount)
      && fin.totalAllocated == Lookup(fin.allocationsByType, Investments)
          + Lookup(fin.allocationsByType, EmergencyFund) + Lookup(fin.allocationsByType, Goals)
  {
    var src := FilterAllocations(allocs, f);
    assert f.kind == All ==> src == allocs;
    var g := Group(src, AllocationCategoryOf, AllocationAmount);
    GroupCorrect(src, AllocationCategoryOf, AllocationAmount);
    var two := (a: Allocation) => AmountIn(Investments)(a) + AmountIn(EmergencyFund)(a);
    SumAdd(src, AmountIn(Investments), AmountIn(EmergencyFund), two);
    forall a: Allocation ensures AllocationAmount(a) == two(a) + AmountIn(Goals)(a) {
      AllocationCategoryRoundTrip(a.category);
    }
    SumAdd(src, two, AmountIn(Goals), AllocationAmount);
  }

  /** The filter type `all` sums the whole ledger. */
  lemma AllFilterUsesEverything(txs: seq<Transaction>, allocs: seq<Allocation>, v: Option<string>)
    ensures var fin := ComputeFinancials(txs, allocs, DateFilter(All, v));
      fin.totalIncome == SumBy(txs, IncomeAmount) && fin.totalAllocated == SumBy(allocs, AllocationAmount)
  {
    FinancialsTotals(txs, allocs, DateFilter(All, v));
    FinancialsAllocations(txs, allocs, DateFilter(All, v));
  }

  /** Unallocated money is not floored: allocating more than the balance makes it
      negative. */
  lemma UnallocatedCanBeNegative()
    ensures var txs := [Transaction("t", Date(2024, 1, 10), "Salary", 100.0, Income)];
      var allocs := [Allocation("a", Date(2024, 1, 11), Goals, 150.0, None, None, None)];
      ComputeFinancials(txs, allocs, DateFilter(All, None)).unallocated == -50.0
  {
    var allocs := [Allocation("a", Date(2024, 1, 11), Goals, 150.0, None, None, None)];
    assert allocs[..0] == [];
    assert Group(allocs, AllocationCategoryOf, AllocationAmount) == [(Goals, 150.0)];
  }

  // ---------------------------------------------------------------------------
  // The savings-allocation pie
  // ---------------------------------------------------------------------------

  datatype Slice = CategorySlice(category: AllocationCategory) | UnallocatedSlice

  datatype PieEntry = PieEntry(slice: Slice, value: real)

  function CategoryEntries(m: seq<(AllocationCategory, real)>): (r: seq<PieEntry>)
    ensures |r| == |m|
    ensures forall i :: 0 <= i < |m| ==> r[i] == PieEntry(CategorySlice(m[i].0), m[i].1)
  {
    if m == [] then [] else [PieEntry(CategorySlice(m[0].0), m[0].1)] + CategoryEntries(m[1..])
  }

  /** The pie's data: the category sums, then the unallocated rest when positive,
      keeping only positive slices. */
  function PieData(fin: Financials): seq<PieEntry> {
    var entries := CategoryEntries(fin.allocationsByType);
    var rest := if fin.unallocated > 0.0 then [PieEntry(UnallocatedSlice, fin.unallocated)] else [];
    Filter(entries + rest, (e: PieEntry) => e.value > 0.0)
  }

  /** Every slice is positive; a category has a slice exactly when its sum is
      positive; the unallocated slice appears exactly when unallocated is positive. */
  lemma PieDataCorrect(fin: Financials)
    ensures forall e :: e in PieData(fin) ==> e.value > 0.0
    ensures forall c, v :: PieEntry(CategorySlice(c), v) in PieData(fin) <==>
      (c, v) in fin.allocationsByType && v > 0.0
    ensures forall v :: PieEntry(UnallocatedSlice, v) in PieData(fin) <==>
      fin.unallocated > 0.0 && v == fin.unallocated
  {
    var m := fin.allocationsByType;
    var entries := CategoryEntries(m);
    forall c, v ensures PieEntry(CategorySlice(c), v) in entries <==> (c, v) in m {
      if (c, v) in m {
        var i :| 0 <= i < |m| && m[i] == (c, v);
        assert entries[i] == PieEntry(CategorySlice(c), v);
      }
    }
  }

  // ---------------------------------------------------------------------------
  // Emergency-fund progress
  // ---------------------------------------------------------------------------

  /** `financials.allocationsByType[EMERGENCY_FUND] || 0`. */
  function EmergencyFundTotal(fin: Financials): real {
    Lookup(fin.allocationsByType, EmergencyFund)
  }

  /** The percentage of the goal reached, 0 when there is no positive goal. */
  function EmergencyFundProgress(total: real, goal: real): (p: real)
    ensures goal <= 0.0 ==> p == 0.0
    ensures goal > 0.0 ==> p * goal == total * 100.0
  {
    if goal > 0.0 then (total / goal) * 100.0 else 0.0
  }

  /** `Math.min(progress, 100)`. */
  function ProgressBarWidth(p: real): (w: real)
    ensures w <= 100.0
    ensures p <= 100.0 ==> w == p
    ensures p >= 100.0 ==> w == 100.0
  {
    if p < 100.0 then p else 100.0
  }

  /** The bar is full once the goal is reached, and for a non-negative total it
      stays within 0..100. */
  lemma ProgressBarBounds(total: real, goal: real)
    ensures goal > 0.0 && total >= goal ==> ProgressBarWidth(EmergencyFundProgress(total, goal)) == 100.0
    ensures total >= 0.0 ==> 0.0 <= ProgressBarWidth(EmergencyFundProgress(total, goal)) <= 100.0
  {
    if goal > 0.0 {
      var p := EmergencyFundProgress(total, goal);
      if total >= goal {
        QuotientAtLeast(total, goal, 1.0);
      }
      if total >= 0.0 {
        QuotientAtLeast(total, goal, 0.0);
      }
    }
  }

  /** Dividing by a positive goal keeps a lower bound `c * goal` as `c`. */
  lemma QuotientAtLeast(total: real, goal: real, c: real)
    requires goal > 0.0 && total >= c * goal
    ensures (total / goal) * 100.0 >= c * 100.0
  {
    var q := total / goal;
    assert q * goal == total;
    if q < c {
      assert q * goal < c * goal;
    }
  }

  // ---------------------------------------------------------------------------
  // The years the filter offers
  // ---------------------------------------------------------------------------

  function TransactionYear(t: Transaction): int { t.date.year }

  function Descending(y: int): int { -y }

  /** The distinct years of the ledger, newest first. */
  function AvailableYearNumbers(txs: seq<Transaction>): seq<int> {
    SortBy(Dedup(Map(txs, TransactionYear)), Descending)
  }

  function PadYear(y: int): string {
    if 0 <= y <= 9999 then Pad4(y) else ""
  }

  function Map<T, U>(s: seq<T>, f: T -> U): (r: seq<U>)
    ensures |r| == |s| && forall i :: 0 <= i < |s| ==> r[i] == f(s[i])
  {
    if s == [] then [] else Map(s[..|s| - 1], f) + [f(s[|s| - 1])]
  }

  /** `Array.from(new Set(years)).sort((a, b) => b.localeCompare(a))`, where each
      year is `date.substring(0, 4)`; on four-digit texts the locale order is the
      numeric order. */
  function AvailableYears(txs: seq<Transaction>): (r: seq<string>)
    requires forall t :: t in txs ==> ValidTransaction(t)
  {
    var ys := AvailableYearNumbers(txs);
    AvailableYearsInRange(txs);
    Map(ys, PadYear)
  }

  /** The years listed are exactly the years of the ledger. */
  lemma AvailableYearNumbersMembers(txs: seq<Transaction>)
    ensures forall y :: y in AvailableYearNumbers(txs) <==> exists t :: t in txs && t.date.year == y
  {
    var years := Map(txs, TransactionYear);
    var u := Dedup(years);
    SortByMembers(u, Descending);
    forall y ensures y in years <==> exists t :: t in txs && t.date.year == y {
      if y in years {
        var i :| 0 <= i < |years| && years[i] == y;
        assert txs[i] in txs;
      }
      if exists t :: t in txs && t.date.year == y {
        var t :| t in txs && t.date.year == y;
        var i :| 0 <= i < |txs| && txs[i] == t;
        assert years[i] == y;
      }
    }
  }

  /** Each year is listed once, newest first. */
  lemma AvailableYearNumbersDecreasing(txs: seq<Transaction>)
    ensures var ys := AvailableYearNumbers(txs);
      forall i, j :: 0 <= i < j < |ys| ==> ys[i] > ys[j]
  {
    var u := Dedup(Map(txs, TransactionYear));
    var ys := SortBy(u, Descending);
    SortByCorrect(u, Descending);
    SortByDistinct(u, Descending);
    forall i, j | 0 <= i < j < |ys| ensures ys[i] > ys[j] {
      assert Descending(ys[i]) <= Descending(ys[j]);
    }
  }

  lemma AvailableYearsInRange(txs: seq<Transaction>)
    requires forall t :: t in txs ==> ValidTransaction(t)
    ensures forall i :: 0 <= i < |AvailableYearNumbers(txs)| ==> 0 <= AvailableYearNumbers(txs)[i] <= 9999
  {
    AvailableYearNumbersMembers(txs);
    var ys := AvailableYearNumbers(txs);
    forall i | 0 <= i < |ys| ensures 0 <= ys[i] <= 9999 {
      assert ys[i] in ys;
    }
  }

  /** The year texts listed are exactly the first four characters of the ledger's
      dates. */
  lemma AvailableYearsMembers(txs: seq<Transaction>)
    requires forall t :: t in txs ==> ValidTransaction(t)
    ensures forall s :: s in AvailableYears(txs) <==> exists t :: t in txs && IsoDay(t.date)[..4] == s
  {
    var ys := AvailableYearNumbers(txs);
    var r := AvailableYears(txs);
    AvailableYearNumbersMembers(txs);
    AvailableYearsInRange(txs);
    forall s | s in r ensures exists t :: t in txs && IsoDay(t.date)[..4] == s {
      var i :| 0 <= i < |r| && r[i] == s;
      assert r[i] == Pad4(ys[i]);
      assert ys[i] in ys;
      var t :| t in txs && t.date.year == ys[i];
      assert ValidTransaction(t);
      assert IsoDay(t.date)[..4] == s;
    }
    forall t | t in txs ensures IsoDay(t.date)[..4] in r {
      assert ValidTransaction(t);
      assert t.date.year in ys;
      var i :| 0 <= i < |ys| && ys[i] == t.date.year;
      assert r[i] == Pad4(ys[i]);
    }
  }

  /** Each year text is listed once, newest first. */
  lemma AvailableYearsDecreasing(txs: seq<Transaction>)
    requires forall t :: t in txs ==> ValidTransaction(t)
    ensures var r := AvailableYears(txs);
      && (forall i :: 0 <= i < |r| ==> |r[i]| == 4)
      && (forall i, j :: 0 <= i < j < |r| ==> Parse4(r[i]) > Parse4(r[j]))
  {
    var ys := AvailableYearNumbers(txs);
    var r := AvailableYears(txs);
    AvailableYearNumbersDecreasing(txs);
    AvailableYearsInRange(txs);
    forall i | 0 <= i < |r| ensures |r[i]| == 4 && Parse4(r[i]) == ys[i] {
      assert r[i] == Pad4(ys[i]);
      Pad4RoundTrip(ys[i]);
    }
  }
}
