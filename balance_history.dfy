/** The data of the balance-history chart (`BalanceHistoryChart` in App.tsx): the
    transactions in date order, the running balance at the end of each day that has
    transactions, and then every calendar day from the first to the last
    transaction, each carrying the balance of the latest day with transactions. */
module BalanceHistory {
  import opened Dates
  import opened Types
  import opened Seqs

  /** `tx.type === INCOME ? tx.amount : -tx.amount`. */
  function Signed(t: Transaction): real {
    if t.kind == Income then t.amount else -t.amount
  }

  /** `new Date(a.date).getTime()` as a sort key. */
  function ByTime(t: Transaction): int {
    Key(t.date)
  }

  function OnOrBefore(d: Date): Transaction -> bool {
    (t: Transaction) => NotAfter(t.date, d)
  }

  function EarlierThan(d: Date): Transaction -> bool {
    (t: Transaction) => Before(t.date, d)
  }

  /** The balance at the end of day `d`: every transaction up to and including `d`. */
  function BalanceOn(txs: seq<Transaction>, d: Date): real {
    SumBy(Filter(txs, OnOrBefore(d)), Signed)
  }

  datatype BalancePoint = BalancePoint(date: Date, balance: real)

  function PointTime(p: BalancePoint): int {
    Key(p.date)
  }

  /** `b` is the calendar day after `a`. */
  predicate DayAfter(a: Date, b: Date) {
    WellFormed(a) && b == NextDay(a)
  }

  predicate AllValid(txs: seq<Transaction>) {
    forall t :: t in txs ==> ValidTransaction(t)
  }

  function DatesOf(s: seq<Transaction>): set<Date> {
    set t | t in s :: t.date
  }

  /** One point per calendar day from `d` to `last`. */
  function FillFrom(txs: seq<Transaction>, d: Date, last: Date): seq<BalancePoint>
    requires WellFormed(d)
    decreases Key(last) - Key(d)
  {
    if Before(last, d) then []
    else [BalancePoint(d, BalanceOn(txs, d))] + FillFrom(txs, NextDay(d), last)
  }

  /** The date-sorted list holds the same transactions, in date order, and its
      first and last are the earliest and the latest. */
  lemma SortedEnds(txs: seq<Transaction>)
    requires AllValid(txs) && |txs| > 0
    ensures var sorted := SortBy(txs, ByTime);
      && |sorted| == |txs| && multiset(sorted) == multiset(txs)
      && SortedBy(sorted, ByTime) && AllValid(sorted)
      && DatesOf(sorted) == DatesOf(txs)
      && sorted[0].date in DatesOf(txs) && sorted[|sorted| - 1].date in DatesOf(txs)
      && WellFormed(sorted[0].date) && WellFormed(sorted[|sorted| - 1].date)
      && (forall t :: t in txs ==> NotAfter(sorted[0].date, t.date) && NotAfter(t.date, sorted[|sorted| - 1].date))
  {
    var sorted := SortBy(txs, ByTime);
    SortByCorrect(txs, ByTime);
    SortByMembers(txs, ByTime);
    assert sorted[0] in txs && sorted[|sorted| - 1] in txs;
    forall t | t in txs ensures NotAfter(sorted[0].date, t.date) && NotAfter(t.date, sorted[|sorted| - 1].date) {
      var j :| 0 <= j < |sorted| && sorted[j] == t;
    }
  }

  /** The day of the earliest transaction. */
  function FirstDay(txs: seq<Transaction>): Date
    requires AllValid(txs) && |txs| > 0
  {
    SortedEnds(txs);
    SortBy(txs, ByTime)[0].date
  }

  /** The day of the latest transaction. */
  function LastDay(txs: seq<Transaction>): Date
    requires AllValid(txs) && |txs| > 0
  {
    SortedEnds(txs);
    var sorted := SortBy(txs, ByTime);
    sorted[|sorted| - 1].date
  }

  /** The first and last days are transaction days, and every transaction lies
      between them. */
  lemma SpanFacts(txs: seq<Transaction>)
    requires AllValid(txs) && |txs| > 0
    ensures WellFormed(FirstDay(txs)) && WellFormed(LastDay(txs))
    ensures FirstDay(txs) in DatesOf(txs) && LastDay(txs) in DatesOf(txs)
    ensures forall t :: t in txs ==> NotAfter(FirstDay(txs), t.date) && NotAfter(t.date, LastDay(txs))
  {
    SortedEnds(txs);
  }

  /** The chart data: nothing for no transaction, the one day for a single
      transaction, and otherwise every day from the first transaction's to the
      last one's. */
  function History(txs: seq<Transaction>): seq<BalancePoint>
    requires AllValid(txs)
  {
    if |txs| == 0 then []
    else if |txs| == 1 then [BalancePoint(txs[0].date, Signed(txs[0]))]
    else
      SpanFacts(txs);
      FillFrom(txs, FirstDay(txs), LastDay(txs))
  }

  // ---------------------------------------------------------------------------
  // The two loops
  // ---------------------------------------------------------------------------

  /** The first loop: the running balance after each transaction in date order,
      recorded under its day, so that a day keeps the balance after its last
      transaction. */
  method ComputeDailyBalances(sorted: seq<Transaction>) returns (dailyBalances: map<Date, real>)
    requires AllValid(sorted) && SortedBy(sorted, ByTime)
    ensures dailyBalances.Keys == DatesOf(sorted)
    ensures forall d :: d in dailyBalances ==> dailyBalances[d] == BalanceOn(sorted, d)
  {
    var cumulativeBalance := 0.0;
    dailyBalances := map[];
    for i := 0 to |sorted|
      invariant cumulativeBalance == SumBy(sorted[..i], Signed)
      invariant dailyBalances.Keys == DatesOf(sorted[..i])
      invariant forall d :: d in dailyBalances ==> dailyBalances[d] == BalanceOn(sorted[..i], d)
    {
      var tx := sorted[i];
      assert sorted[..i + 1] == sorted[..i] + [tx];
      SortedPrefix(sorted, i);
      DailyStep(sorted[..i], tx, dailyBalances, cumulativeBalance);
      cumulativeBalance := cumulativeBalance + Signed(tx);
      dailyBalances := dailyBalances[tx.date := cumulativeBalance];
    }
    assert sorted[..|sorted|] == sorted;
  }

  /** The second loop: every day from `startDate` to `endDate`, carrying the
      balance of the latest day with transactions. */
  method FillDays(txs: seq<Transaction>, dailyBalances: map<Date, real>, startDate: Date, endDate: Date)
    returns (filledBalances: seq<BalancePoint>)
    requires AllValid(txs) && WellFormed(startDate)
    requires dailyBalances.Keys == DatesOf(txs)
    requires forall d :: d in dailyBalances ==> dailyBalances[d] == BalanceOn(txs, d)
    requires forall t :: t in txs ==> NotAfter(startDate, t.date)
    ensures filledBalances == FillFrom(txs, startDate, endDate)
  {
    FilterNone(txs, EarlierThan(startDate));
    var lastBalance := 0.0;
    filledBalances := [];
    var d := startDate;
    while NotAfter(d, endDate)
      invariant WellFormed(d)
      invariant filledBalances + FillFrom(txs, d, endDate) == FillFrom(txs, startDate, endDate)
      invariant lastBalance == SumBy(Filter(txs, EarlierThan(d)), Signed)
      decreases Key(endDate) - Key(d)
    {
      FillStepBalance(txs, dailyBalances, d, lastBalance);
      if d in dailyBalances {
        lastBalance := dailyBalances[d];
      }
      FillStepList(txs, d, startDate, endDate, filledBalances, lastBalance);
      filledBalances := filledBalances + [BalancePoint(d, lastBalance)];
      d := NextDay(d);
    }
  }

  /** `useMemo` in `BalanceHistoryChart`. */
  method ComputeHistory(txs: seq<Transaction>) returns (data: seq<BalancePoint>)
    requires AllValid(txs)
    ensures data == History(txs)
  {
    if |txs| == 0 {
      return [];
    }
    var sorted := SortBy(txs, ByTime);
    SortedEnds(txs);
    var dailyBalances := ComputeDailyBalances(sorted);
    SortedBalances(sorted, txs, dailyBalances);

    if |sorted| < 2 {
      SortBySorted(txs, ByTime);
      SingleBalance(txs[0]);
      return [BalancePoint(sorted[0].date, dailyBalances[sorted[0].date])];
    }

    var startDate := sorted[0].date;
    var endDate := sorted[|sorted| - 1].date;
    var filledBalances := FillDays(txs, dailyBalances, startDate, endDate);
    FillFromSorted(txs, startDate, endDate);
    SortBySorted(filledBalances, PointTime);
    data := SortBy(filledBalances, PointTime);
  }

  // ---------------------------------------------------------------------------
  // Loop steps
  // ---------------------------------------------------------------------------

  /** One step of the first loop keeps its invariant: `s` is what was seen so
      far and `tx`, dated no earlier, comes next. */
  lemma DailyStep(s: seq<Transaction>, tx: Transaction, daily: map<Date, real>, cumulative: real)
    requires WellFormed(tx.date)
    requires forall t :: t in s ==> NotAfter(t.date, tx.date) && WellFormed(t.date)
    requires cumulative == SumBy(s, Signed)
    requires daily.Keys == DatesOf(s)
    requires forall d :: d in daily ==> daily[d] == BalanceOn(s, d)
    ensures var c := cumulative + Signed(tx);
      var m := daily[tx.date := c];
      && c == SumBy(s + [tx], Signed)
      && m.Keys == DatesOf(s + [tx])
      && forall d :: d in m ==> m[d] == BalanceOn(s + [tx], d)
  {
    assert (s + [tx])[..|s|] == s;
    DayStepDates(s, tx);
    DayStepOwn(s, tx);
    DayStepOthers(s, tx);
  }

  /** The balance a step of the second loop records is that of the day. */
  lemma FillStepBalance(txs: seq<Transaction>, daily: map<Date, real>, d: Date, lastBalance: real)
    requires AllValid(txs) && WellFormed(d)
    requires daily.Keys == DatesOf(txs)
    requires forall x :: x in daily ==> daily[x] == BalanceOn(txs, x)
    requires lastBalance == SumBy(Filter(txs, EarlierThan(d)), Signed)
    ensures var b := if d in daily then daily[d] else lastBalance;
      b == BalanceOn(txs, d) && b == SumBy(Filter(txs, EarlierThan(NextDay(d))), Signed)
  {
    if d !in daily {
      NoTransactionThatDay(txs, d);
    }
    NextDayBalance(txs, d);
  }

  /** One more filled day keeps the second loop's invariant on the list. */
  lemma FillStepList(txs: seq<Transaction>, d: Date, startDate: Date, endDate: Date,
                     filled: seq<BalancePoint>, b: real)
    requires WellFormed(d) && WellFormed(startDate) && NotAfter(d, endDate)
    requires filled + FillFrom(txs, d, endDate) == FillFrom(txs, startDate, endDate)
    requires b == BalanceOn(txs, d)
    ensures (filled + [BalancePoint(d, b)]) + FillFrom(txs, NextDay(d), endDate) == FillFrom(txs, startDate, endDate)
  {
    var rest := FillFrom(txs, NextDay(d), endDate);
    assert FillFrom(txs, d, endDate) == [BalancePoint(d, b)] + rest;
    assert (filled + [BalancePoint(d, b)]) + rest == filled + ([BalancePoint(d, b)] + rest);
  }

  /** Every transaction before position `i` of the sorted list is dated no later
      than the one at `i`. */
  lemma SortedPrefix(sorted: seq<Transaction>, i: int)
    requires AllValid(sorted) && SortedBy(sorted, ByTime) && 0 <= i < |sorted|
    ensures WellFormed(sorted[i].date)
    ensures forall t :: t in sorted[..i] ==> NotAfter(t.date, sorted[i].date) && WellFormed(t.date)
  {
    assert ValidTransaction(sorted[i]);
    forall t | t in sorted[..i] ensures NotAfter(t.date, sorted[i].date) && WellFormed(t.date) {
      var j :| 0 <= j < i && sorted[j] == t;
      assert ValidTransaction(sorted[j]);
    }
  }

  /** The day balances of the sorted list are those of the list itself. */
  lemma SortedBalances(sorted: seq<Transaction>, txs: seq<Transaction>, daily: map<Date, real>)
    requires multiset(sorted) == multiset(txs)
    requires forall d :: d in daily ==> daily[d] == BalanceOn(sorted, d)
    ensures forall d :: d in daily ==> daily[d] == BalanceOn(txs, d)
  {
    forall d | d in daily ensures daily[d] == BalanceOn(txs, d) {
      BalancePermutation(sorted, txs, d);
    }
  }

  lemma SingleBalance(t: Transaction)
    ensures BalanceOn([t], t.date) == Signed(t)
  {
    assert [t][..0] == [];
    SumSingle(t, Signed);
  }

  /** Appending a transaction dated no earlier than the others: its own day's
      balance is the running total. */
  lemma DayStepOwn(s: seq<Transaction>, x: Transaction)
    requires forall t :: t in s ==> NotAfter(t.date, x.date)
    ensures BalanceOn(s + [x], x.date) == SumBy(s, Signed) + Signed(x)
  {
    assert (s + [x])[..|s|] == s;
    FilterAll(s, OnOrBefore(x.date));
    assert Filter(s + [x], OnOrBefore(x.date)) == s + [x];
  }

  /** ... and the balance of every earlier day stays. */
  lemma DayStepOthers(s: seq<Transaction>, x: Transaction)
    requires WellFormed(x.date)
    requires forall t :: t in s ==> NotAfter(t.date, x.date) && WellFormed(t.date)
    ensures forall d :: d in DatesOf(s) && d != x.date ==> BalanceOn(s + [x], d) == BalanceOn(s, d)
  {
    assert (s + [x])[..|s|] == s;
    forall d | d in DatesOf(s) && d != x.date ensures BalanceOn(s + [x], d) == BalanceOn(s, d) {
      var t :| t in s && t.date == d;
      if Key(d) == Key(x.date) {
        KeyInjective(d, x.date);
      }
      assert Filter(s + [x], OnOrBefore(d)) == Filter(s, OnOrBefore(d));
    }
  }

  lemma DayStepDates(s: seq<Transaction>, x: Transaction)
    ensures DatesOf(s + [x]) == DatesOf(s) + {x.date}
  {
  }

  /** Balances do not depend on the order of the transactions. */
  lemma BalancePermutation(a: seq<Transaction>, b: seq<Transaction>, d: Date)
    requires multiset(a) == multiset(b)
    ensures BalanceOn(a, d) == BalanceOn(b, d)
  {
    forall x ensures multiset(Filter(a, OnOrBefore(d)))[x] == multiset(Filter(b, OnOrBefore(d)))[x] {
      FilterMultiset(a, OnOrBefore(d), x);
      FilterMultiset(b, OnOrBefore(d), x);
    }
    assert multiset(Filter(a, OnOrBefore(d))) == multiset(Filter(b, OnOrBefore(d)));
    SumPermutation(Filter(a, OnOrBefore(d)), Filter(b, OnOrBefore(d)), Signed);
  }

  /** On a day without transactions the balance is that of the day before. */
  lemma NoTransactionThatDay(txs: seq<Transaction>, d: Date)
    requires AllValid(txs) && WellFormed(d)
    requires d !in DatesOf(txs)
    ensures SumBy(Filter(txs, EarlierThan(d)), Signed) == BalanceOn(txs, d)
  {
    forall t | t in txs ensures EarlierThan(d)(t) == OnOrBefore(d)(t) {
      if Key(t.date) == Key(d) {
        KeyInjective(t.date, d);
      }
    }
    FilterPointwise(txs, EarlierThan(d), OnOrBefore(d));
  }

  /** What came before the next day is what came up to the end of this one. */
  lemma NextDayBalance(txs: seq<Transaction>, d: Date)
    requires AllValid(txs) && WellFormed(d)
    ensures SumBy(Filter(txs, EarlierThan(NextDay(d))), Signed) == BalanceOn(txs, d)
  {
    forall t | t in txs ensures EarlierThan(NextDay(d))(t) == OnOrBefore(d)(t) {
      if Before(d, t.date) {
        NoDayBetween(d, t.date);
      }
    }
    FilterPointwise(txs, EarlierThan(NextDay(d)), OnOrBefore(d));
  }

  // ---------------------------------------------------------------------------
  // What the chart shows
  // ---------------------------------------------------------------------------

  /** The filled days run from `d` to `last`, each the day after the one before. */
  lemma {:induction false} FillFromShape(txs: seq<Transaction>, d: Date, last: Date)
    requires WellFormed(d) && WellFormed(last) && NotAfter(d, last)
    ensures var r := FillFrom(txs, d, last);
      && |r| > 0 && r[0].date == d && r[|r| - 1].date == last
      && (forall i :: 0 <= i < |r| - 1 ==> DayAfter(r[i].date, r[i + 1].date))
    decreases Key(last) - Key(d)
  {
    var n := NextDay(d);
    if Before(last, n) {
      if Before(d, last) {
        NoDayBetween(d, last);
      }
      KeyInjective(d, last);
      assert FillFrom(txs, n, last) == [];
    } else {
      FillFromShape(txs, n, last);
    }
  }

  /** Each filled day carries the balance at its end. */
  lemma {:induction false} FillFromBalances(txs: seq<Transaction>, d: Date, last: Date)
    requires WellFormed(d)
    ensures forall p :: p in FillFrom(txs, d, last) ==> p.balance == BalanceOn(txs, p.date)
    decreases Key(last) - Key(d)
  {
    if !Before(last, d) {
      FillFromBalances(txs, NextDay(d), last);
    }
  }

  /** The filled days are in strictly increasing order, so the final sort by date
      changes nothing. */
  lemma {:induction false} FillFromSorted(txs: seq<Transaction>, d: Date, last: Date)
    requires WellFormed(d)
    ensures forall i, j :: 0 <= i < j < |FillFrom(txs, d, last)| ==>
      Before(FillFrom(txs, d, last)[i].date, FillFrom(txs, d, last)[j].date)
    ensures SortedBy(FillFrom(txs, d, last), PointTime)
    ensures forall p :: p in FillFrom(txs, d, last) ==> NotAfter(d, p.date)
    decreases Key(last) - Key(d)
  {
    if !Before(last, d) {
      FillFromSorted(txs, NextDay(d), last);
    }
  }

  /** Every calendar day between `d` and `last` appears. */
  lemma {:induction false} FillFromCovers(txs: seq<Transaction>, d: Date, last: Date, x: Date)
    requires WellFormed(d) && WellFormed(x) && NotAfter(d, x) && NotAfter(x, last)
    ensures exists p :: p in FillFrom(txs, d, last) && p.date == x
    decreases Key(last) - Key(d)
  {
    var r := FillFrom(txs, d, last);
    if Key(d) == Key(x) {
      KeyInjective(d, x);
      assert r[0].date == x;
    } else {
      NoDayBetween(d, x);
      FillFromCovers(txs, NextDay(d), last, x);
      var p :| p in FillFrom(txs, NextDay(d), last) && p.date == x;
      assert p in r;
    }
  }

  /** With two transactions or more, the chart runs from the earliest transaction
      day to the latest, one point per calendar day in order. */
  lemma HistorySpan(txs: seq<Transaction>)
    requires AllValid(txs) && |txs| >= 2
    ensures var r := History(txs);
      && |r| > 0
      && r[0].date == FirstDay(txs) && r[|r| - 1].date == LastDay(txs)
      && (forall t :: t in txs ==> NotAfter(r[0].date, t.date) && NotAfter(t.date, r[|r| - 1].date))
      && (forall i :: 0 <= i < |r| - 1 ==> DayAfter(r[i].date, r[i + 1].date))
  {
    SpanFacts(txs);
    FillFromShape(txs, FirstDay(txs), LastDay(txs));
  }

  /** Each point carries the balance at the end of its day, and the last point
      the sum of all transactions. */
  lemma HistoryBalances(txs: seq<Transaction>)
    requires AllValid(txs)
    ensures forall p :: p in History(txs) ==> p.balance == BalanceOn(txs, p.date)
    ensures |txs| > 0 ==> BalanceOn(txs, LastDay(txs)) == SumBy(txs, Signed)
  {
    if |txs| > 0 {
      SpanFacts(txs);
      FilterAll(txs, OnOrBefore(LastDay(txs)));
      if |txs| == 1 {
        assert txs == [txs[0]];
        SingleBalance(txs[0]);
      } else {
        FillFromBalances(txs, FirstDay(txs), LastDay(txs));
      }
    }
  }

  /** Every day between the earliest and the latest transaction has a point. */
  lemma HistoryHasEveryDay(txs: seq<Transaction>, x: Date)
    requires AllValid(txs) && |txs| >= 2 && WellFormed(x)
    requires exists t :: t in txs && NotAfter(t.date, x)
    requires exists t :: t in txs && NotAfter(x, t.date)
    ensures exists p :: p in History(txs) && p.date == x
  {
    SpanFacts(txs);
    var lo :| lo in txs && NotAfter(lo.date, x);
    var hi :| hi in txs && NotAfter(x, hi.date);
    FillFromCovers(txs, FirstDay(txs), LastDay(txs), x);
  }
}
