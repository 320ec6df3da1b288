/** The recurring materializer (`processRecurringTransactions` in App.tsx): a
    catch-up batch, run once when the app starts, that walks every recurring
    template forward one month at a time up to "today" (and its optional end date),
    emits one ledger transaction per step with the deterministic id
    `rec-<templateId>-<date>`, advances the template's `lastProcessedDate`, then
    appends the transactions not already in the ledger and re-sorts the ledger by
    date, newest first.  Month steps use the JavaScript `setMonth`, which carries
    a day the next month lacks into the month after (31 January -> 2 March in a
    leap year); resuming from a cursor applies `setDate(startDay)` after the step,
    which can carry again. */
module Recurring {
  import opened Wrappers
  import opened Dates
  import opened Types
  import opened Seqs

  // ---------------------------------------------------------------------------
  // Identifiers
  // ---------------------------------------------------------------------------

  /** `rec-${templateId}-${date}`. */
  function RecurringId(templateId: string, d: Date): (s: string)
    requires Valid(d)
    ensures |s| == |templateId| + 15
  {
    "rec-" + templateId + "-" + IsoDay(d)
  }

  /** The id names its template and its date: no two (template, date) pairs share one. */
  lemma RecurringIdInjective(t1: string, d1: Date, t2: string, d2: Date)
    requires Valid(d1) && Valid(d2)
    requires RecurringId(t1, d1) == RecurringId(t2, d2)
    ensures t1 == t2 && d1 == d2
  {
    var s := RecurringId(t1, d1);
    assert |t1| == |t2|;
    assert s[4..4 + |t1|] == t1;
    assert RecurringId(t2, d2)[4..4 + |t2|] == t2;
    assert s[|s| - 10..] == IsoDay(d1);
    assert RecurringId(t2, d2)[|s| - 10..] == IsoDay(d2);
    IsoDayInjective(d1, d2);
  }

  // ---------------------------------------------------------------------------
  // The schedule of one template
  // ---------------------------------------------------------------------------

  /** Where the walk starts: the start date, or, once a cursor is set, one month
      after the cursor with the day of month reset to the start date's day. */
  function FirstPending(r: RecurringTransaction): (d: Date)
    requires ValidRecurring(r)
    ensures WellFormed(d) && d.day <= r.startDate.day
    ensures r.lastProcessedDate.None? ==> d == r.startDate
    ensures r.lastProcessedDate.Some? ==> Before(r.lastProcessedDate.value, d)
  {
    match r.lastProcessedDate
    case None => r.startDate
    case Some(last) =>
      var next := AddMonth(last);
      var d := SetDay(next, r.startDate.day);
      MonthIndexOrder(last, d);
      d
  }

  /** The dates the `while (next <= today)` loop visits from `next`, stopping at the
      first one past `end`. */
  function Schedule(next: Date, today: Date, end: Option<Date>): seq<Date>
    requires WellFormed(next) && WellFormed(today)
    decreases MonthIndex(today) - MonthIndex(next)
  {
    if !NotAfter(next, today) then []
    else if end.Some? && Before(end.value, next) then []
    else
      MonthIndexOrder(next, today);
      [next] + Schedule(AddMonth(next), today, end)
  }

  /** The dates a template is due on, given "today": none while its start date
      is still ahead. */
  function PendingDates(r: RecurringTransaction, today: Date): seq<Date>
    requires ValidRecurring(r) && Valid(today)
  {
    if Before(today, r.startDate) then [] else Schedule(FirstPending(r), today, r.endDate)
  }

  /** The ledger entry for one due date. */
  function Emit(r: RecurringTransaction, d: Date): Transaction
    requires Valid(d)
  {
    Transaction(RecurringId(r.id, d), d, r.description, r.amount, r.kind)
  }

  predicate AllValid(ds: seq<Date>) {
    forall i :: 0 <= i < |ds| ==> Valid(ds[i])
  }

  function EmitAll(r: RecurringTransaction, ds: seq<Date>): (txs: seq<Transaction>)
    requires AllValid(ds)
    ensures |txs| == |ds|
  {
    seq(|ds|, i requires 0 <= i < |ds| => Emit(r, ds[i]))
  }

  lemma EmitAllSnoc(r: RecurringTransaction, ds: seq<Date>, d: Date)
    requires AllValid(ds) && Valid(d)
    ensures AllValid(ds + [d])
    ensures EmitAll(r, ds + [d]) == EmitAll(r, ds) + [Emit(r, d)]
  {
  }

  /** The template after the walk: its cursor is the last date emitted. */
  function Advance(r: RecurringTransaction, ds: seq<Date>): RecurringTransaction {
    if ds == [] then r else r.(lastProcessedDate := Some(ds[|ds| - 1]))
  }

  /** One step of the walk: a due date is emitted and the walk goes on a month later. */
  lemma ScheduleStep(next: Date, today: Date, end: Option<Date>)
    requires WellFormed(next) && WellFormed(today) && NotAfter(next, today)
    requires !(end.Some? && Before(end.value, next))
    ensures Schedule(next, today, end) == [next] + Schedule(AddMonth(next), today, end)
  {
  }

  /** Every date the walk from `next` visits lies between `next` and today, on or
      before the end date, and no later in its month than `next`'s day. */
  lemma {:induction false} ScheduleWithin(next: Date, today: Date, end: Option<Date>)
    requires WellFormed(next) && WellFormed(today)
    ensures forall d :: d in Schedule(next, today, end) ==>
      && WellFormed(d) && NotAfter(next, d) && NotAfter(d, today) && d.day <= next.day
      && (end.Some? ==> NotAfter(d, end.value))
    decreases MonthIndex(today) - MonthIndex(next)
  {
    if Schedule(next, today, end) != [] {
      MonthIndexOrder(next, today);
      ScheduleWithin(AddMonth(next), today, end);
    }
  }

  predicate Increasing(ds: seq<Date>) {
    forall i, j :: 0 <= i < j < |ds| ==> Before(ds[i], ds[j])
  }

  /** The walk visits strictly increasing dates. */
  lemma {:induction false} ScheduleIncreasing(next: Date, today: Date, end: Option<Date>)
    requires WellFormed(next) && WellFormed(today)
    ensures Increasing(Schedule(next, today, end))
    decreases MonthIndex(today) - MonthIndex(next)
  {
    var s := Schedule(next, today, end);
    if s != [] {
      MonthIndexOrder(next, today);
      var next' := AddMonth(next);
      var s' := Schedule(next', today, end);
      ScheduleIncreasing(next', today, end);
      ScheduleWithin(next', today, end);
      assert s == [next] + s';
      forall i, j | 0 <= i < j < |s| ensures Before(s[i], s[j]) {
        assert s[j] == s'[j - 1] && s'[j - 1] in s';
        if i > 0 {
          assert s[i] == s'[i - 1];
          assert Before(s'[i - 1], s'[j - 1]);
        } else {
          assert s[i] == next && Before(next, next') && NotAfter(next', s[j]);
        }
      }
    }
  }

  /** The walk starts at `next`, and the step after its last date is not due. */
  lemma {:induction false} ScheduleEnds(next: Date, today: Date, end: Option<Date>)
    requires WellFormed(next) && WellFormed(today)
    ensures var s := Schedule(next, today, end);
      s != [] ==> s[0] == next && WellFormed(s[|s| - 1]) && Schedule(AddMonth(s[|s| - 1]), today, end) == []
    decreases MonthIndex(today) - MonthIndex(next)
  {
    var s := Schedule(next, today, end);
    if s != [] {
      MonthIndexOrder(next, today);
      var next' := AddMonth(next);
      var s' := Schedule(next', today, end);
      ScheduleEnds(next', today, end);
      ScheduleWithin(next, today, end);
      assert s == [next] + s';
      assert s[|s| - 1] in s;
      if s' != [] {
        assert s[|s| - 1] == s'[|s'| - 1];
      }
    }
  }

  /** A schedule that is over stays over for any later start. */
  lemma ScheduleOverLater(a: Date, b: Date, today: Date, end: Option<Date>)
    requires WellFormed(a) && WellFormed(b) && WellFormed(today) && NotAfter(a, b)
    requires Schedule(a, today, end) == []
    ensures Schedule(b, today, end) == []
  {
  }

  /** Every due date is a `YYYY-MM-DD` day. */
  lemma PendingValid(r: RecurringTransaction, today: Date)
    requires ValidRecurring(r) && Valid(today)
    ensures AllValid(PendingDates(r, today))
  {
    var ds := PendingDates(r, today);
    if !Before(today, r.startDate) {
      var f := FirstPending(r);
      ScheduleWithin(f, today, r.endDate);
      var lo := if r.lastProcessedDate.Some? then r.lastProcessedDate.value else r.startDate;
      forall i | 0 <= i < |ds| ensures Valid(ds[i]) {
        assert ds[i] in ds;
        ValidBetween(lo, ds[i], today);
      }
    }
  }

  /** A template whose start date is after today emits nothing and keeps its cursor. */
  lemma NotYetActive(r: RecurringTransaction, today: Date)
    requires ValidRecurring(r) && Valid(today) && Before(today, r.startDate)
    ensures PendingDates(r, today) == []
    ensures Advance(r, PendingDates(r, today)) == r
  {
  }

  /** Every due date lies on or before today and on or before the end date; the
      dates strictly increase; and the new cursor is the last of them. */
  lemma {:induction false} PendingDatesBounded(r: RecurringTransaction, today: Date)
    requires ValidRecurring(r) && Valid(today)
    ensures var ds := PendingDates(r, today);
      && (forall d :: d in ds ==> NotAfter(d, today))
      && (r.endDate.Some? ==> forall d :: d in ds ==> NotAfter(d, r.endDate.value))
      && Increasing(ds)
      && (ds != [] ==> Advance(r, ds).lastProcessedDate == Some(ds[|ds| - 1]))
      && (ds == [] ==> Advance(r, ds) == r)
  {
    if !Before(today, r.startDate) {
      ScheduleWithin(FirstPending(r), today, r.endDate);
      ScheduleIncreasing(FirstPending(r), today, r.endDate);
    }
  }

  /** The cursor never moves backwards: after the walk it is set whenever it was
      set before, and no earlier. */
  lemma {:induction false} CursorMonotone(r: RecurringTransaction, today: Date)
    requires ValidRecurring(r) && Valid(today)
    ensures var r' := Advance(r, PendingDates(r, today));
      && r'.id == r.id && r'.startDate == r.startDate && r'.endDate == r.endDate
      && r'.description == r.description && r'.amount == r.amount && r'.kind == r.kind
      && (r.lastProcessedDate.Some? ==>
            r'.lastProcessedDate.Some? && NotAfter(r.lastProcessedDate.value, r'.lastProcessedDate.value))
  {
    var ds := PendingDates(r, today);
    if ds != [] {
      ScheduleWithin(FirstPending(r), today, r.endDate);
      assert ds[|ds| - 1] in ds;
    }
  }

  /** Every emitted transaction copies its template's description, amount and type,
      carries the due date, and has the id `rec-<templateId>-<date>`. */
  lemma EmittedTransactions(r: RecurringTransaction, ds: seq<Date>, i: int)
    requires AllValid(ds) && 0 <= i < |ds|
    ensures var tx := EmitAll(r, ds)[i];
      tx.date == ds[i] && tx.id == RecurringId(r.id, ds[i]) &&
      tx.description == r.description && tx.amount == r.amount && tx.kind == r.kind
  {
  }

  /** The worked example of the recurring rules, as the code behaves: a template
      starting on 31 January 2024, caught up on 15 April 2024, is due on
      31 January, 2 March and 2 April (not on 29 February and 31 March), and its
      cursor ends on 2 April. */
  lemma ScheduleExample()
    ensures var r := RecurringTransaction("salary", "Salary", 1000.0, Income, Date(2024, 1, 31), None, None);
      PendingDates(r, Date(2024, 4, 15)) == [Date(2024, 1, 31), Date(2024, 3, 2), Date(2024, 4, 2)]
  {
    var r := RecurringTransaction("salary", "Salary", 1000.0, Income, Date(2024, 1, 31), None, None);
    PendingExample(r, Date(2024, 4, 15));
  }

  /** The example above, walked one month at a time. */
  lemma PendingExample(r: RecurringTransaction, today: Date)
    requires r.startDate == Date(2024, 1, 31) && r.endDate.None? && r.lastProcessedDate.None?
    requires today == Date(2024, 4, 15)
    ensures ValidRecurring(r) && Valid(today)
    ensures PendingDates(r, today) == [Date(2024, 1, 31), Date(2024, 3, 2), Date(2024, 4, 2)]
  {
    var d1 := r.startDate;
    AddMonthCarries(d1, Date(2024, 3, 2));
    var d2 := AddMonth(d1);
    AddMonthKeepsDay(d2, Date(2024, 4, 2));
    var d3 := AddMonth(d2);
    AddMonthKeepsDay(d3, Date(2024, 5, 2));
    var d4 := AddMonth(d3);
    assert Schedule(d4, today, None) == [];
    ScheduleStep(d3, today, None);
    ScheduleStep(d2, today, None);
    ScheduleStep(d1, today, None);
    PendingFromStart(r, today);
  }

  /** A template without a cursor that has started walks from its start date. */
  lemma PendingFromStart(r: RecurringTransaction, today: Date)
    requires ValidRecurring(r) && Valid(today) && r.lastProcessedDate.None? && !Before(today, r.startDate)
    ensures PendingDates(r, today) == Schedule(r.startDate, today, r.endDate)
  {
  }

  /** Resuming from a cursor sets the day after the month step, which can carry a
      second time: a template started on 31 January whose cursor is 2 March is next
      due on 1 May, whereas the uninterrupted walk above is due on 2 April. */
  lemma ResumeExample()
    ensures var r := RecurringTransaction("rent", "Rent", 900.0, Expense, Date(2024, 1, 31), None, Some(Date(2024, 3, 2)));
      FirstPending(r) == Date(2024, 5, 1)
  {
    var r := RecurringTransaction("rent", "Rent", 900.0, Expense, Date(2024, 1, 31), None, Some(Date(2024, 3, 2)));
    ResumeFrom(r);
  }

  lemma ResumeFrom(r: RecurringTransaction)
    requires r.startDate == Date(2024, 1, 31) && r.endDate.None? && r.lastProcessedDate == Some(Date(2024, 3, 2))
    ensures ValidRecurring(r) && FirstPending(r) == Date(2024, 5, 1)
  {
    var last := r.lastProcessedDate.value;
    AddMonthKeepsDay(last, Date(2024, 4, 2));
    var next := AddMonth(last);
    SetDayCarries(next, 31, Date(2024, 5, 1));
    assert ValidRecurring(r);
    FirstPendingResumes(r);
  }

  /** Once a cursor is set, the walk resumes a month after it on the start day. */
  lemma FirstPendingResumes(r: RecurringTransaction)
    requires ValidRecurring(r) && r.lastProcessedDate.Some?
    ensures FirstPending(r) == SetDay(AddMonth(r.lastProcessedDate.value), r.startDate.day)
  {
  }

  // ---------------------------------------------------------------------------
  // The walk as the source runs it
  // ---------------------------------------------------------------------------

  /** One template's iteration of the `forEach`: the `while` loop that emits the
      due transactions and moves the cursor. */
  method MaterializeTemplate(r: RecurringTransaction, today: Date)
    returns (emitted: seq<Transaction>, updated: RecurringTransaction)
    requires ValidRecurring(r) && Valid(today)
    ensures AllValid(PendingDates(r, today))
    ensures emitted == EmitAll(r, PendingDates(r, today))
    ensures updated == Advance(r, PendingDates(r, today))
  {
    PendingValid(r, today);
    emitted, updated := [], r;
    if Before(today, r.startDate) {
      return;
    }
    ghost var all := Schedule(FirstPending(r), today, r.endDate);
    ghost var k := 0;
    var next := FirstPending(r);
    while NotAfter(next, today)
      invariant WellFormed(next)
      invariant 0 <= k <= |all| && Schedule(next, today, r.endDate) == all[k..]
      invariant emitted == EmitAll(r, all[..k])
      invariant updated == Advance(r, all[..k])
      decreases MonthIndex(today) - MonthIndex(next)
    {
      if r.endDate.Some? && Before(r.endDate.value, next) {
        break;
      }
      MonthIndexOrder(next, today);
      ScheduleStep(next, today, r.endDate);
      assert all[k] == next;
      assert all[k + 1..] == all[k..][1..];
      assert all[..k + 1] == all[..k] + [next];
      EmitAllSnoc(r, all[..k], next);
      emitted := emitted + [Emit(r, next)];
      updated := updated.(lastProcessedDate := Some(next));
      k := k + 1;
      next := AddMonth(next);
    }
    assert all[..k] == all;
  }

  // ---------------------------------------------------------------------------
  // The whole batch
  // ---------------------------------------------------------------------------

  predicate AllValidTemplates(ts: seq<RecurringTransaction>) {
    forall i :: 0 <= i < |ts| ==> ValidRecurring(ts[i])
  }

  /** `newTransactions`: the templates' emissions, template by template. */
  function NewTransactions(ts: seq<RecurringTransaction>, today: Date): seq<Transaction>
    requires AllValidTemplates(ts) && Valid(today)
  {
    if ts == [] then []
    else
      var r := ts[|ts| - 1];
      PendingValid(r, today);
      NewTransactions(ts[..|ts| - 1], today) + EmitAll(r, PendingDates(r, today))
  }

  /** `updatedRecurringTxs`: every template with its cursor advanced. */
  function AdvanceAll(ts: seq<RecurringTransaction>, today: Date): (us: seq<RecurringTransaction>)
    requires AllValidTemplates(ts) && Valid(today)
    ensures |us| == |ts|
  {
    seq(|ts|, i requires 0 <= i < |ts| => Advance(ts[i], PendingDates(ts[i], today)))
  }

  lemma AdvanceAllSnoc(ts: seq<RecurringTransaction>, t: RecurringTransaction, today: Date)
    requires AllValidTemplates(ts) && ValidRecurring(t) && Valid(today)
    ensures AllValidTemplates(ts + [t])
    ensures AdvanceAll(ts + [t], today) == AdvanceAll(ts, today) + [Advance(t, PendingDates(t, today))]
  {
    var us := AdvanceAll(ts + [t], today);
    var vs := AdvanceAll(ts, today) + [Advance(t, PendingDates(t, today))];
    forall i | 0 <= i < |us| ensures us[i] == vs[i] {
      if i < |ts| {
        assert (ts + [t])[i] == ts[i];
      }
    }
  }

  lemma NewTransactionsSnoc(ts: seq<RecurringTransaction>, t: RecurringTransaction, today: Date)
    requires AllValidTemplates(ts) && ValidRecurring(t) && Valid(today)
    ensures AllValidTemplates(ts + [t]) && AllValid(PendingDates(t, today))
    ensures NewTransactions(ts + [t], today) == NewTransactions(ts, today) + EmitAll(t, PendingDates(t, today))
  {
    PendingValid(t, today);
    var s := ts + [t];
    assert s[..|s| - 1] == ts && s[|s| - 1] == t;
  }

  /** The templates before position `i` and up to it are valid. */
  lemma PrefixValid(ts: seq<RecurringTransaction>, i: int)
    requires AllValidTemplates(ts) && 0 <= i < |ts|
    ensures ValidRecurring(ts[i]) && AllValidTemplates(ts[..i]) && AllValidTemplates(ts[..i + 1])
  {
    assert forall j | 0 <= j < i + 1 :: ts[..i + 1][j] == ts[j];
  }

  /** One more template of the `forEach`. */
  lemma PrefixStep(ts: seq<RecurringTransaction>, i: int, today: Date)
    requires AllValidTemplates(ts) && Valid(today) && 0 <= i < |ts|
    requires ValidRecurring(ts[i]) && AllValidTemplates(ts[..i]) && AllValidTemplates(ts[..i + 1])
    ensures AllValid(PendingDates(ts[i], today))
    ensures NewTransactions(ts[..i + 1], today) == NewTransactions(ts[..i], today) + EmitAll(ts[i], PendingDates(ts[i], today))
  {
    var ps, t := ts[..i], ts[i];
    assert ts[..i + 1] == ps + [t];
    NewTransactionsSnoc(ps, t, today);
  }

  lemma PrefixAdvance(ts: seq<RecurringTransaction>, i: int, today: Date)
    requires AllValidTemplates(ts) && Valid(today) && 0 <= i < |ts|
    requires ValidRecurring(ts[i]) && AllValidTemplates(ts[..i]) && AllValidTemplates(ts[..i + 1])
    ensures AdvanceAll(ts[..i + 1], today) == AdvanceAll(ts[..i], today) + [Advance(ts[i], PendingDates(ts[i], today))]
  {
    var ps, t := ts[..i], ts[i];
    assert ts[..i + 1] == ps + [t];
    AdvanceAllSnoc(ps, t, today);
  }

  /** The `forEach` over the deep copy of the templates. */
  method MaterializeAll(ts: seq<RecurringTransaction>, today: Date)
    returns (newTxs: seq<Transaction>, updated: seq<RecurringTransaction>)
    requires AllValidTemplates(ts) && Valid(today)
    ensures newTxs == NewTransactions(ts, today)
    ensures updated == AdvanceAll(ts, today)
  {
    newTxs, updated := [], [];
    var i := 0;
    while i < |ts|
      invariant 0 <= i <= |ts|
      invariant AllValidTemplates(ts[..i])
      invariant newTxs == NewTransactions(ts[..i], today)
      invariant updated == AdvanceAll(ts[..i], today)
    {
      PrefixValid(ts, i);
      PrefixStep(ts, i, today);
      PrefixAdvance(ts, i, today);
      var emitted, r := MaterializeTemplate(ts[i], today);
      newTxs := newTxs + emitted;
      updated := updated + [r];
      i := i + 1;
    }
    assert ts[..i] == ts;
  }

  function LedgerIds(ledger: seq<Transaction>): set<string> {
    set t | t in ledger :: t.id
  }

  /** `sortDateFn`: newest first. */
  function DateDescending(t: Transaction): int {
    -Key(t.date)
  }

  /** `[...prev, ...uniqueNewTxs].sort(sortDateFn)`. */
  function SortLedger(s: seq<Transaction>): seq<Transaction> {
    SortBy(s, DateDescending)
  }

  /** `!existingTxIds.has(tx.id)`. */
  function NotInLedger(ledger: seq<Transaction>): Transaction -> bool {
    var ids := LedgerIds(ledger);
    (tx: Transaction) => tx.id !in ids
  }

  /** The new transactions whose id the ledger does not hold yet. */
  function UniqueNew(ledger: seq<Transaction>, newTxs: seq<Transaction>): seq<Transaction> {
    Filter(newTxs, NotInLedger(ledger))
  }

  /** The whole effect on the two stored collections: the ledger and the templates
      are written only when some new transaction survives the id check. */
  function ProcessRecurring(ledger: seq<Transaction>, ts: seq<RecurringTransaction>, today: Date)
    : (seq<Transaction>, seq<RecurringTransaction>)
    requires AllValidTemplates(ts) && Valid(today)
  {
    var newTxs := NewTransactions(ts, today);
    if |newTxs| == 0 then (ledger, ts)
    else
      var unique := UniqueNew(ledger, newTxs);
      if |unique| == 0 then (ledger, ts)
      else (SortLedger(ledger + unique), AdvanceAll(ts, today))
  }

  predicate UniqueIds(s: seq<Transaction>) {
    UniqueBy(s, (t: Transaction) => t.id)
  }

  predicate UniqueTemplateIds(ts: seq<RecurringTransaction>) {
    forall i, j :: 0 <= i < j < |ts| ==> ts[i].id != ts[j].id
  }

  /** Drops exactly the new transactions whose id is in the ledger, keeping order. */
  lemma UniqueNewExact(ledger: seq<Transaction>, newTxs: seq<Transaction>)
    ensures forall tx :: tx in UniqueNew(ledger, newTxs) <==>
      tx in newTxs && forall prior :: prior in ledger ==> prior.id != tx.id
  {
  }

  /** When no new transaction survives, neither collection changes; otherwise the
      ledger becomes the old ledger plus the surviving transactions, sorted newest
      first, and every template's cursor is advanced. */
  lemma {:induction false} ProcessRecurringEffect(ledger: seq<Transaction>, ts: seq<RecurringTransaction>, today: Date)
    requires AllValidTemplates(ts) && Valid(today)
    ensures var (ledger', ts') := ProcessRecurring(ledger, ts, today);
      var unique := UniqueNew(ledger, NewTransactions(ts, today));
      && (unique == [] ==> ledger' == ledger && ts' == ts)
      && (unique != [] ==>
            && multiset(ledger') == multiset(ledger + unique)
            && SortedBy(ledger', DateDescending)
            && ts' == AdvanceAll(ts, today))
  {
    var newTxs := NewTransactions(ts, today);
    var unique := UniqueNew(ledger, newTxs);
    if |newTxs| == 0 {
      assert newTxs == [];
      FilterNone(newTxs, NotInLedger(ledger));
    }
    if unique != [] {
      SortByCorrect(ledger + unique, DateDescending);
    }
  }

  /** Every new transaction has the id `rec-<templateId>-<date>` of one of the templates. */
  lemma {:induction false} NewTransactionsOrigin(ts: seq<RecurringTransaction>, today: Date)
    requires AllValidTemplates(ts) && Valid(today)
    ensures forall tx :: tx in NewTransactions(ts, today) ==>
      Valid(tx.date) && exists j :: 0 <= j < |ts| && tx.id == RecurringId(ts[j].id, tx.date)
  {
    if ts != [] {
      var ts' := ts[..|ts| - 1];
      var r := ts[|ts| - 1];
      NewTransactionsOrigin(ts', today);
      PendingValid(r, today);
      var ds := PendingDates(r, today);
      forall tx | tx in NewTransactions(ts, today)
        ensures Valid(tx.date) && exists j :: 0 <= j < |ts| && tx.id == RecurringId(ts[j].id, tx.date)
      {
        if tx in NewTransactions(ts', today) {
          var j :| 0 <= j < |ts'| && tx.id == RecurringId(ts'[j].id, tx.date);
          assert ts[j] == ts'[j];
        } else {
          assert tx in EmitAll(r, ds);
          var k :| 0 <= k < |ds| && EmitAll(r, ds)[k] == tx;
          assert tx.id == RecurringId(ts[|ts| - 1].id, tx.date);
        }
      }
    }
  }

  /** One template never emits the same id twice. */
  lemma EmitAllUnique(r: RecurringTransaction, today: Date)
    requires ValidRecurring(r) && Valid(today)
    ensures AllValid(PendingDates(r, today))
    ensures UniqueIds(EmitAll(r, PendingDates(r, today)))
  {
    PendingValid(r, today);
    PendingDatesBounded(r, today);
    var ds := PendingDates(r, today);
    var txs := EmitAll(r, ds);
    forall i, j | 0 <= i < j < |txs| ensures txs[i].id != txs[j].id {
      assert Before(ds[i], ds[j]);
      if txs[i].id == txs[j].id {
        RecurringIdInjective(r.id, ds[i], r.id, ds[j]);
      }
    }
  }

  /** Templates with distinct ids emit transactions with distinct ids. */
  lemma {:induction false} NewTransactionsUnique(ts: seq<RecurringTransaction>, today: Date)
    requires AllValidTemplates(ts) && Valid(today) && UniqueTemplateIds(ts)
    ensures UniqueIds(NewTransactions(ts, today))
  {
    if ts != [] {
      var ts' := ts[..|ts| - 1];
      var r := ts[|ts| - 1];
      NewTransactionsUnique(ts', today);
      NewTransactionsOrigin(ts', today);
      EmitAllUnique(r, today);
      var ds := PendingDates(r, today);
      var mine := EmitAll(r, ds);
      forall x, y | x in NewTransactions(ts', today) && y in mine ensures x.id != y.id {
        var j :| 0 <= j < |ts'| && x.id == RecurringId(ts'[j].id, x.date);
        var k :| 0 <= k < |ds| && mine[k] == y;
        assert ts[j] == ts'[j];
        if x.id == y.id {
          RecurringIdInjective(ts'[j].id, x.date, r.id, ds[k]);
        }
      }
      ConcatUnique(NewTransactions(ts', today), mine, (t: Transaction) => t.id);
    }
  }

  /** No id appears twice in the ledger afterwards, provided none appeared twice
      before and the templates' ids are distinct. */
  lemma LedgerStaysUnique(ledger: seq<Transaction>, ts: seq<RecurringTransaction>, today: Date)
    requires AllValidTemplates(ts) && Valid(today)
    requires UniqueIds(ledger) && UniqueTemplateIds(ts)
    ensures UniqueIds(ProcessRecurring(ledger, ts, today).0)
  {
    var newTxs := NewTransactions(ts, today);
    var unique := UniqueNew(ledger, newTxs);
    if |newTxs| != 0 && |unique| != 0 {
      var id := (t: Transaction) => t.id;
      NewTransactionsUnique(ts, today);
      FilterUnique(newTxs, NotInLedger(ledger), id);
      forall x, y | x in ledger && y in unique ensures x.id != y.id {
        assert x.id in LedgerIds(ledger);
      }
      ConcatUnique(ledger, unique, id);
      SortByUnique(ledger + unique, DateDescending, id);
    }
  }

  /** After a walk, the template has nothing left to emit today. */
  lemma {:induction false} AdvancedIsCaughtUp(r: RecurringTransaction, today: Date)
    requires ValidRecurring(r) && Valid(today)
    ensures ValidRecurring(Advance(r, PendingDates(r, today)))
    ensures PendingDates(Advance(r, PendingDates(r, today)), today) == []
  {
    PendingValid(r, today);
    var ds := PendingDates(r, today);
    if ds != [] {
      var f := FirstPending(r);
      assert ds == Schedule(f, today, r.endDate);
      ScheduleWithin(f, today, r.endDate);
      ScheduleEnds(f, today, r.endDate);
      var last := ds[|ds| - 1];
      assert last in ds && Valid(last);
      var r' := Advance(r, ds);
      assert r' == r.(lastProcessedDate := Some(last));
      var step := AddMonth(last);
      assert Schedule(step, today, r.endDate) == [];
      SetDayNotEarlier(step, r.startDate.day);
      var f' := FirstPending(r');
      assert f' == SetDay(step, r.startDate.day);
      ScheduleOverLater(step, f', today, r.endDate);
      assert PendingDates(r', today) == Schedule(f', today, r.endDate);
    }
  }

  lemma AdvanceAllCaughtUp(ts: seq<RecurringTransaction>, today: Date)
    requires AllValidTemplates(ts) && Valid(today)
    ensures AllValidTemplates(AdvanceAll(ts, today))
    ensures NewTransactions(AdvanceAll(ts, today), today) == []
  {
    var us := AdvanceAll(ts, today);
    forall i | 0 <= i < |ts|
      ensures ValidRecurring(us[i]) && PendingDates(us[i], today) == []
    {
      AdvancedIsCaughtUp(ts[i], today);
    }
    NoneDue(us, today);
  }

  lemma {:induction false} NoneDue(ts: seq<RecurringTransaction>, today: Date)
    requires AllValidTemplates(ts) && Valid(today)
    requires forall i :: 0 <= i < |ts| ==> PendingDates(ts[i], today) == []
    ensures NewTransactions(ts, today) == []
  {
    if ts != [] {
      NoneDue(ts[..|ts| - 1], today);
    }
  }

  /** Running the catch-up again on its own result, the same day, changes nothing. */
  lemma Idempotent(ledger: seq<Transaction>, ts: seq<RecurringTransaction>, today: Date)
    requires AllValidTemplates(ts) && Valid(today)
    ensures var (ledger', ts') := ProcessRecurring(ledger, ts, today);
      AllValidTemplates(ts') && ProcessRecurring(ledger', ts', today) == (ledger', ts')
  {
    var newTxs := NewTransactions(ts, today);
    if |newTxs| != 0 && |UniqueNew(ledger, newTxs)| != 0 {
      AdvanceAllCaughtUp(ts, today);
    }
  }
}
