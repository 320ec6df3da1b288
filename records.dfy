/** The record operations of the app's provider (App.tsx): add, update and delete
    for each stored collection, marking a receivable or a monthly reminder as paid,
    and the statuses the receivables and reminders pages show.

    An add appends the record under a fresh id and re-sorts the list (newest first
    for transactions and allocations, earliest due date first for receivables,
    smallest due day first for reminders; recurring templates stay in insertion
    order).  An update replaces every record carrying the updated record's id and
    re-sorts; a delete keeps the records with another id.  The fresh id, the
    current date and the translated labels are parameters. */
module Records {
  import opened Wrappers
  import opened Dates
  import opened Types
  import opened Seqs
  import Recurring

  // ---------------------------------------------------------------------------
  // The three list idioms, once for every collection
  // ---------------------------------------------------------------------------

  /** `prev.map(x => x.id === updated.id ? updated : x)`. */
  function ReplaceById<T>(s: seq<T>, x: T, id: T -> string): (r: seq<T>)
    ensures |r| == |s|
    ensures forall i :: 0 <= i < |s| ==> r[i] == (if id(s[i]) == id(x) then x else s[i])
  {
    seq(|s|, i requires 0 <= i < |s| => if id(s[i]) == id(x) then x else s[i])
  }

  function KeepOthers<T>(k: string, id: T -> string): T -> bool {
    (x: T) => id(x) != k
  }

  /** `prev.filter(x => x.id !== k)`. */
  function DeleteById<T(!new)>(s: seq<T>, k: string, id: T -> string): seq<T> {
    Filter(s, KeepOthers(k, id))
  }

  /** Some record carries the id `k`. */
  ghost predicate HasId<T>(s: seq<T>, k: string, id: T -> string) {
    exists z :: z in s && id(z) == k
  }

  /** `[...prev, x].sort(cmp)`. */
  function AddSorted<T>(s: seq<T>, x: T, key: T -> int): seq<T> {
    SortBy(s + [x], key)
  }

  /** `prev.map(...).sort(cmp)`. */
  function UpdateSorted<T>(s: seq<T>, x: T, id: T -> string, key: T -> int): seq<T> {
    SortBy(ReplaceById(s, x, id), key)
  }

  /** `prev.find(x => x.id === k)`: the first record with that id. */
  function FindById<T>(s: seq<T>, k: string, id: T -> string): (r: Option<T>)
    ensures r.Some? ==> r.value in s && id(r.value) == k
    ensures r.Some? ==> exists i :: 0 <= i < |s| && s[i] == r.value && forall j :: 0 <= j < i ==> id(s[j]) != k
    ensures r.None? <==> forall x :: x in s ==> id(x) != k
  {
    if s == [] then None
    else if id(s[0]) == k then Some(s[0])
    else
      assert forall x :: x in s ==> x == s[0] || x in s[1..];
      FindById(s[1..], k, id)
  }

  /** An add keeps every record, holds the new one once more, and leaves the
      list in order. */
  lemma AddSortedCorrect<T>(s: seq<T>, x: T, key: T -> int)
    ensures multiset(AddSorted(s, x, key)) == multiset(s) + multiset{x}
    ensures SortedBy(AddSorted(s, x, key), key)
    ensures |AddSorted(s, x, key)| == |s| + 1
  {
    SortByCorrect(s + [x], key);
  }

  /** After an update the list is in order, as long as before, and holds exactly
      the records with another id and, when some record carried the id, the
      updated record. */
  lemma UpdateSortedCorrect<T>(s: seq<T>, x: T, id: T -> string, key: T -> int)
    ensures SortedBy(UpdateSorted(s, x, id, key), key) && |UpdateSorted(s, x, id, key)| == |s|
    ensures forall y :: y in UpdateSorted(s, x, id, key) <==> (y in s && id(y) != id(x)) || (y == x && HasId(s, id(x), id))
  {
    var m := ReplaceById(s, x, id);
    SortByCorrect(m, key);
    SortByMembers(m, key);
    forall y ensures y in m <==> (y in s && id(y) != id(x)) || (y == x && HasId(s, id(x), id)) {
      if y in m {
        var i :| 0 <= i < |m| && m[i] == y;
        assert s[i] in s;
      }
      if y in s && id(y) != id(x) {
        var i :| 0 <= i < |s| && s[i] == y;
        assert m[i] == y;
      }
      if y == x && HasId(s, id(x), id) {
        var z :| z in s && id(z) == id(x);
        var i :| 0 <= i < |s| && s[i] == z;
        assert m[i] == x;
      }
    }
  }

  lemma UpdatedMember<T>(s: seq<T>, x: T, id: T -> string, key: T -> int, y: T)
    requires y in UpdateSorted(s, x, id, key) && id(y) == id(x)
    ensures y == x
  {
    UpdateSortedCorrect(s, x, id, key);
  }

  /** Every record in an updated list that carries the updated id is the updated
      record. */
  lemma UpdatedIdIsUpdated<T>(s: seq<T>, x: T, id: T -> string, key: T -> int)
    ensures forall y :: y in UpdateSorted(s, x, id, key) && id(y) == id(x) ==> y == x
  {
    forall y | y in UpdateSorted(s, x, id, key) && id(y) == id(x) ensures y == x {
      UpdatedMember(s, x, id, key, y);
    }
  }

  /** Updating with an id no record carries changes nothing in a sorted list. */
  lemma UpdateUnknownId<T>(s: seq<T>, x: T, id: T -> string, key: T -> int)
    requires SortedBy(s, key)
    requires forall y :: y in s ==> id(y) != id(x)
    ensures UpdateSorted(s, x, id, key) == s
  {
    forall i | 0 <= i < |s| ensures ReplaceById(s, x, id)[i] == s[i] {
      assert s[i] in s;
    }
    assert ReplaceById(s, x, id) == s;
    SortBySorted(s, key);
  }

  /** A delete keeps, in their order, exactly the records with another id. */
  lemma DeleteCorrect<T(!new)>(s: seq<T>, k: string, id: T -> string)
    ensures forall y :: y in DeleteById(s, k, id) <==> y in s && id(y) != k
    ensures (forall y :: y in s ==> id(y) != k) ==> DeleteById(s, k, id) == s
    ensures |DeleteById(s, k, id)| <= |s|
  {
    if forall y :: y in s ==> id(y) != k {
      FilterAll(s, KeepOthers(k, id));
    }
  }

  /** A delete keeps every record with another id as often as it occurs. */
  lemma DeleteMultiset<T(!new)>(s: seq<T>, k: string, id: T -> string)
    ensures forall y :: multiset(DeleteById(s, k, id))[y] == if id(y) != k then multiset(s)[y] else 0
  {
    forall y ensures multiset(DeleteById(s, k, id))[y] == if id(y) != k then multiset(s)[y] else 0 {
      FilterMultiset(s, KeepOthers(k, id), y);
    }
  }

  /** An add under an id no record carries keeps the ids distinct. */
  lemma AddKeepsUnique<T>(s: seq<T>, x: T, key: T -> int, id: T -> string)
    requires UniqueBy(s, id)
    requires forall y :: y in s ==> id(y) != id(x)
    ensures UniqueBy(AddSorted(s, x, key), id)
  {
    ConcatUnique(s, [x], id);
    SortByUnique(s + [x], key, id);
  }

  /** Replacing by id leaves every position's id as it was. */
  lemma ReplaceKeepsIds<T>(s: seq<T>, x: T, id: T -> string)
    ensures forall i :: 0 <= i < |s| ==> id(ReplaceById(s, x, id)[i]) == id(s[i])
    ensures UniqueBy(s, id) ==> UniqueBy(ReplaceById(s, x, id), id)
  {
  }

  /** An update keeps the ids distinct. */
  lemma UpdateKeepsUnique<T>(s: seq<T>, x: T, id: T -> string, key: T -> int)
    requires UniqueBy(s, id)
    ensures UniqueBy(UpdateSorted(s, x, id, key), id)
  {
    ReplaceKeepsIds(s, x, id);
    SortByUnique(ReplaceById(s, x, id), key, id);
  }

  /** A delete keeps the ids distinct. */
  lemma DeleteKeepsUnique<T(!new)>(s: seq<T>, k: string, id: T -> string)
    requires UniqueBy(s, id)
    ensures UniqueBy(DeleteById(s, k, id), id)
  {
    FilterUnique(s, KeepOthers(k, id), id);
  }

  // ---------------------------------------------------------------------------
  // Sort keys
  // ---------------------------------------------------------------------------

  function TransactionId(t: Transaction): string { t.id }
  function AllocationId(a: Allocation): string { a.id }
  function RecurringId(r: RecurringTransaction): string { r.id }
  function ReceivableId(r: Receivable): string { r.id }
  function ReminderId(r: Reminder): string { r.id }

  /** `sortDateFn` on allocations: newest first. */
  function AllocationDescending(a: Allocation): int {
    -Key(a.date)
  }

  /** `sortDueDateFn`: earliest due date first. */
  function DueDateAscending(r: Receivable): int {
    Key(r.dueDate)
  }

  /** `(a, b) => a.dueDay - b.dueDay`. */
  function DueDayAscending(r: Reminder): int {
    r.dueDay
  }

  // ---------------------------------------------------------------------------
  // The collections
  // ---------------------------------------------------------------------------

  /** `addTransaction`: the draft under the fresh id, newest first. */
  function AddTransaction(txs: seq<Transaction>, draft: Transaction, freshId: string): (r: seq<Transaction>)
    ensures multiset(r) == multiset(txs) + multiset{draft.(id := freshId)}
    ensures SortedBy(r, Recurring.DateDescending)
  {
    AddSortedCorrect(txs, draft.(id := freshId), Recurring.DateDescending);
    Recurring.SortLedger(txs + [draft.(id := freshId)])
  }

  /** `updateTransaction`. */
  function UpdateTransaction(txs: seq<Transaction>, updated: Transaction): (r: seq<Transaction>)
    ensures SortedBy(r, Recurring.DateDescending) && |r| == |txs|
    ensures forall y :: y in r <==> (y in txs && y.id != updated.id) || (y == updated && HasId(txs, updated.id, TransactionId))
  {
    UpdateSortedCorrect(txs, updated, TransactionId, Recurring.DateDescending);
    UpdateSorted(txs, updated, TransactionId, Recurring.DateDescending)
  }

  /** `deleteTransaction`. */
  function DeleteTransaction(txs: seq<Transaction>, k: string): (r: seq<Transaction>)
    ensures forall y :: y in r <==> y in txs && y.id != k
  {
    DeleteCorrect(txs, k, TransactionId);
    DeleteById(txs, k, TransactionId)
  }

  /** `addAllocation`. */
  function AddAllocation(allocs: seq<Allocation>, draft: Allocation, freshId: string): (r: seq<Allocation>)
    ensures multiset(r) == multiset(allocs) + multiset{draft.(id := freshId)}
    ensures SortedBy(r, AllocationDescending)
  {
    AddSortedCorrect(allocs, draft.(id := freshId), AllocationDescending);
    AddSorted(allocs, draft.(id := freshId), AllocationDescending)
  }

  /** `updateAllocation`. */
  function UpdateAllocation(allocs: seq<Allocation>, updated: Allocation): (r: seq<Allocation>)
    ensures SortedBy(r, AllocationDescending) && |r| == |allocs|
    ensures forall y :: y in r <==> (y in allocs && y.id != updated.id) || (y == updated && HasId(allocs, updated.id, AllocationId))
  {
    UpdateSortedCorrect(allocs, updated, AllocationId, AllocationDescending);
    UpdateSorted(allocs, updated, AllocationId, AllocationDescending)
  }

  /** `deleteAllocation`. */
  function DeleteAllocation(allocs: seq<Allocation>, k: string): (r: seq<Allocation>)
    ensures forall y :: y in r <==> y in allocs && y.id != k
  {
    DeleteCorrect(allocs, k, AllocationId);
    DeleteById(allocs, k, AllocationId)
  }

  /** `addRecurringTransaction`: appended, unsorted, with no cursor yet. */
  function AddRecurring(rs: seq<RecurringTransaction>, draft: RecurringTransaction, freshId: string)
    : (r: seq<RecurringTransaction>)
    ensures |r| == |rs| + 1 && r[..|rs|] == rs
    ensures r[|rs|].id == freshId && r[|rs|].lastProcessedDate.None?
    ensures r[|rs|] == draft.(id := freshId, lastProcessedDate := None)
  {
    rs + [draft.(id := freshId, lastProcessedDate := None)]
  }

  /** `updateRecurringTransaction`: replaced in place, order kept. */
  function UpdateRecurring(rs: seq<RecurringTransaction>, updated: RecurringTransaction)
    : (r: seq<RecurringTransaction>)
    ensures |r| == |rs|
    ensures forall i :: 0 <= i < |rs| && rs[i].id != updated.id ==> r[i] == rs[i]
    ensures forall i :: 0 <= i < |rs| && rs[i].id == updated.id ==> r[i] == updated
  {
    ReplaceById(rs, updated, RecurringId)
  }

  /** `deleteRecurringTransaction`. */
  function DeleteRecurring(rs: seq<RecurringTransaction>, k: string): (r: seq<RecurringTransaction>)
    ensures forall y :: y in r <==> y in rs && y.id != k
    ensures forall y :: multiset(r)[y] == if y.id != k then multiset(rs)[y] else 0
  {
    DeleteCorrect(rs, k, RecurringId);
    DeleteMultiset(rs, k, RecurringId);
    DeleteById(rs, k, RecurringId)
  }

  /** The templates' relative order survives a delete: deleting from two parts
      and joining them is deleting from the whole. */
  lemma DeleteRecurringKeepsOrder(a: seq<RecurringTransaction>, b: seq<RecurringTransaction>, k: string)
    ensures DeleteRecurring(a + b, k) == DeleteRecurring(a, k) + DeleteRecurring(b, k)
  {
    FilterConcat(a, b, KeepOthers(k, RecurringId));
  }

  /** `addReceivable`. */
  function AddReceivable(recs: seq<Receivable>, draft: Receivable, freshId: string): (r: seq<Receivable>)
    ensures multiset(r) == multiset(recs) + multiset{draft.(id := freshId)}
    ensures SortedBy(r, DueDateAscending)
  {
    AddSortedCorrect(recs, draft.(id := freshId), DueDateAscending);
    AddSorted(recs, draft.(id := freshId), DueDateAscending)
  }

  /** `updateReceivable`. */
  function UpdateReceivable(recs: seq<Receivable>, updated: Receivable): (r: seq<Receivable>)
    ensures SortedBy(r, DueDateAscending) && |r| == |recs|
    ensures forall y :: y in r <==> (y in recs && y.id != updated.id) || (y == updated && HasId(recs, updated.id, ReceivableId))
  {
    UpdateSortedCorrect(recs, updated, ReceivableId, DueDateAscending);
    UpdateSorted(recs, updated, ReceivableId, DueDateAscending)
  }

  /** `deleteReceivable`. */
  function DeleteReceivable(recs: seq<Receivable>, k: string): (r: seq<Receivable>)
    ensures forall y :: y in r <==> y in recs && y.id != k
  {
    DeleteCorrect(recs, k, ReceivableId);
    DeleteById(recs, k, ReceivableId)
  }

  /** `addReminder`: no month paid yet. */
  function AddReminder(rems: seq<Reminder>, draft: Reminder, freshId: string): (r: seq<Reminder>)
    ensures multiset(r) == multiset(rems) + multiset{draft.(id := freshId, paidMonths := [])}
    ensures SortedBy(r, DueDayAscending)
  {
    AddSortedCorrect(rems, draft.(id := freshId, paidMonths := []), DueDayAscending);
    AddSorted(rems, draft.(id := freshId, paidMonths := []), DueDayAscending)
  }

  /** `updateReminder`. */
  function UpdateReminder(rems: seq<Reminder>, updated: Reminder): (r: seq<Reminder>)
    ensures SortedBy(r, DueDayAscending) && |r| == |rems|
    ensures forall y :: y in r <==> (y in rems && y.id != updated.id) || (y == updated && HasId(rems, updated.id, ReminderId))
  {
    UpdateSortedCorrect(rems, updated, ReminderId, DueDayAscending);
    UpdateSorted(rems, updated, ReminderId, DueDayAscending)
  }

  /** `deleteReminder`. */
  function DeleteReminder(rems: seq<Reminder>, k: string): (r: seq<Reminder>)
    ensures forall y :: y in r <==> y in rems && y.id != k
  {
    DeleteCorrect(rems, k, ReminderId);
    DeleteById(rems, k, ReminderId)
  }

  // ---------------------------------------------------------------------------
  // Receivables
  // ---------------------------------------------------------------------------

  /** `` `${t('paid')}: ${clientName} - ${description}` ``. */
  function PaidDescription(paidLabel: string, rec: Receivable): string {
    paidLabel + ": " + rec.clientName + " - " + rec.description
  }

  /** `markReceivableAsPaid`: the receivable's id is updated to a paid copy, and an
      income of its amount, dated today, is added under a fresh id. */
  function MarkReceivableAsPaid(recs: seq<Receivable>, txs: seq<Transaction>, rec: Receivable,
                                today: Date, paidLabel: string, freshId: string)
    : (seq<Receivable>, seq<Transaction>)
  {
    var paid := rec.(status := Paid);
    var income := Transaction("", today, PaidDescription(paidLabel, rec), rec.amount, Income);
    (UpdateReceivable(recs, paid), AddTransaction(txs, income, freshId))
  }

  /** After marking, every receivable with that id is the paid copy, the list keeps
      its length, the others are as they were, and the ledger gains exactly one income of the receivable's amount. */
  lemma MarkReceivableAsPaidEffect(recs: seq<Receivable>, txs: seq<Transaction>, rec: Receivable,
                                   today: Date, paidLabel: string, freshId: string)
    ensures var (recs', txs') := MarkReceivableAsPaid(recs, txs, rec, today, paidLabel, freshId);
      && (forall y :: y in recs' && y.id == rec.id ==> y == rec.(status := Paid))
      && |recs'| == |recs|
      && (forall y :: y in recs && y.id != rec.id ==> y in recs')
      && (HasId(recs, rec.id, ReceivableId) ==> rec.(status := Paid) in recs')
      && multiset(txs') == multiset(txs) + multiset{Transaction(freshId, today, PaidDescription(paidLabel, rec), rec.amount, Income)}
  {
    UpdatedIdIsUpdated(recs, rec.(status := Paid), ReceivableId, DueDateAscending);
  }

  datatype DisplayStatus = ShownPending | ShownBilled | ShownPaid | ShownOverdue

  function Shown(s: ReceivableStatus): DisplayStatus {
    match s
    case Pending => ShownPending
    case Billed => ShownBilled
    case Paid => ShownPaid
  }

  /** `getDisplayStatus`: an unpaid receivable whose due date is before today shows
      as overdue; otherwise its stored status shows. */
  function DisplayStatusOf(rec: Receivable, today: Date): (s: DisplayStatus)
    ensures s == ShownOverdue <==> rec.status != Paid && Before(rec.dueDate, today)
    ensures s != ShownOverdue ==> s == Shown(rec.status)
  {
    if rec.status != Paid && Before(rec.dueDate, today) then ShownOverdue else Shown(rec.status)
  }

  /** A receivable marked as paid shows as paid, whatever its due date. */
  lemma PaidReceivableShowsPaid(recs: seq<Receivable>, txs: seq<Transaction>, rec: Receivable,
                                today: Date, paidLabel: string, freshId: string, later: Date)
    ensures var (recs', _) := MarkReceivableAsPaid(recs, txs, rec, today, paidLabel, freshId);
      forall y :: y in recs' && y.id == rec.id ==> DisplayStatusOf(y, later) == ShownPaid
  {
    MarkReceivableAsPaidEffect(recs, txs, rec, today, paidLabel, freshId);
  }

  // ---------------------------------------------------------------------------
  // Reminders
  // ---------------------------------------------------------------------------

  predicate ValidReminders(rems: seq<Reminder>) {
    forall r :: r in rems ==> ValidReminder(r)
  }

  /** `` `${t('reminders')}: ${description}` ``. */
  function ReminderDescription(reminderLabel: string, rem: Reminder): string {
    reminderLabel + ": " + rem.description
  }

  /** The expense a payment of `rem` adds: its amount, on its due day of the
      payment's month (carried into the next month when that month is shorter). */
  function ReminderExpense(rem: Reminder, paymentDate: Date, reminderLabel: string, freshId: string): Transaction
    requires ValidReminder(rem) && 1 <= paymentDate.month <= 12
  {
    Transaction(freshId, SetDay(paymentDate, rem.dueDay), ReminderDescription(reminderLabel, rem), rem.amount, Expense)
  }

  /** `markReminderAsPaid`: nothing happens for an unknown id or a month already
      paid; otherwise the payment's month `YYYY-MM` is appended to the reminder's
      paid months and one expense is added. */
  function MarkReminderAsPaid(rems: seq<Reminder>, txs: seq<Transaction>, id: string, paymentDate: Date,
                              reminderLabel: string, freshId: string)
    : (seq<Reminder>, seq<Transaction>)
    requires ValidReminders(rems) && Valid(paymentDate)
  {
    match FindById(rems, id, ReminderId)
    case None => (rems, txs)
    case Some(rem) =>
      var monthStr := IsoMonth(paymentDate.year, paymentDate.month);
      if monthStr in rem.paidMonths then (rems, txs)
      else
        var updated := rem.(paidMonths := rem.paidMonths + [monthStr]);
        var expense := ReminderExpense(rem, paymentDate, reminderLabel, "");
        (UpdateReminder(rems, updated), AddTransaction(txs, expense, freshId))
  }

  /** Updating a reminder with another valid reminder keeps every reminder valid. */
  lemma UpdateKeepsValid(rems: seq<Reminder>, updated: Reminder)
    requires ValidReminders(rems) && ValidReminder(updated)
    ensures ValidReminders(UpdateReminder(rems, updated))
  {
  }

  /** Appending a month text keeps a reminder valid. */
  lemma PaidMonthKeepsValid(rem: Reminder, y: int, m: int)
    requires ValidReminder(rem) && 0 <= y <= 9999 && 1 <= m <= 12
    ensures ValidReminder(rem.(paidMonths := rem.paidMonths + [IsoMonth(y, m)]))
  {
    var months := rem.paidMonths + [IsoMonth(y, m)];
    forall i | 0 <= i < |months| ensures IsMonthText(months[i]) {
      if i < |rem.paidMonths| {
        assert months[i] == rem.paidMonths[i];
      } else {
        assert months[i] == IsoMonth(y, m);
      }
    }
  }

  /** A payment of an unpaid month records that month on the reminder, leaves the
      other reminders as they were, and adds exactly one expense of the reminder's
      amount on its due day; in every other case nothing changes. */
  lemma MarkReminderAsPaidEffect(rems: seq<Reminder>, txs: seq<Transaction>, id: string, paymentDate: Date,
                                 reminderLabel: string, freshId: string)
    requires ValidReminders(rems) && Valid(paymentDate)
    ensures var (rems', txs') := MarkReminderAsPaid(rems, txs, id, paymentDate, reminderLabel, freshId);
      var monthStr := IsoMonth(paymentDate.year, paymentDate.month);
      var found := FindById(rems, id, ReminderId);
      && (found.None? || monthStr in found.value.paidMonths ==> rems' == rems && txs' == txs)
      && (found.Some? && monthStr !in found.value.paidMonths ==>
            && (forall y :: y in rems' && y.id == id ==> y == found.value.(paidMonths := found.value.paidMonths + [monthStr]))
            && (exists y :: y in rems' && y.id == id)
            && (forall y :: y in rems && y.id != id ==> y in rems')
            && multiset(txs') == multiset(txs) + multiset{ReminderExpense(found.value, paymentDate, reminderLabel, freshId)})
  {
    var found := FindById(rems, id, ReminderId);
    if found.Some? {
      var rem := found.value;
      var monthStr := IsoMonth(paymentDate.year, paymentDate.month);
      var updated := rem.(paidMonths := rem.paidMonths + [monthStr]);
      UpdateSortedCorrect(rems, updated, ReminderId, DueDayAscending);
      assert updated in UpdateReminder(rems, updated);
    }
  }

  /** Paying the same month twice is paying it once. */
  lemma MarkReminderAsPaidIdempotent(rems: seq<Reminder>, txs: seq<Transaction>, id: string, paymentDate: Date,
                                     reminderLabel: string, freshId: string, freshId2: string)
    requires ValidReminders(rems) && Valid(paymentDate)
    ensures var (rems', txs') := MarkReminderAsPaid(rems, txs, id, paymentDate, reminderLabel, freshId);
      ValidReminders(rems') &&
      MarkReminderAsPaid(rems', txs', id, paymentDate, reminderLabel, freshId2) == (rems', txs')
  {
    var found := FindById(rems, id, ReminderId);
    var monthStr := IsoMonth(paymentDate.year, paymentDate.month);
    if found.Some? && monthStr !in found.value.paidMonths {
      var rem := found.value;
      var updated := rem.(paidMonths := rem.paidMonths + [monthStr]);
      PaidMonthKeepsValid(rem, paymentDate.year, paymentDate.month);
      var rems' := UpdateReminder(rems, updated);
      UpdateKeepsValid(rems, updated);
      UpdatedIdIsUpdated(rems, updated, ReminderId, DueDayAscending);
      var again := FindById(rems', id, ReminderId);
      assert again == Some(updated);
    }
  }

  datatype ReminderStatus = PaidStatus | PendingStatus | OverdueStatus

  /** `getReminderStatus` for the displayed month `year`-`month`: paid when that
      month's text is among the paid months, otherwise overdue when the due day of
      that month (carried forward like `new Date(y, m, d)`) is before today, and
      pending otherwise. */
  function ReminderStatusOf(rem: Reminder, year: int, month: int, today: Date): (s: ReminderStatus)
    requires ValidReminder(rem) && 0 <= year <= 9999 && 1 <= month <= 12
    ensures s == PaidStatus <==> IsoMonth(year, month) in rem.paidMonths
    ensures s == OverdueStatus <==>
      IsoMonth(year, month) !in rem.paidMonths && Before(SetDay(Date(year, month, 1), rem.dueDay), today)
    ensures s == PendingStatus <==>
      IsoMonth(year, month) !in rem.paidMonths && !Before(SetDay(Date(year, month, 1), rem.dueDay), today)
  {
    if IsoMonth(year, month) in rem.paidMonths then PaidStatus
    else if Before(SetDay(Date(year, month, 1), rem.dueDay), today) then OverdueStatus
    else PendingStatus
  }

  /** Once a payment is recorded, the reminder with that id shows the payment's
      month as paid. */
  lemma PaidMonthShowsPaid(rems: seq<Reminder>, txs: seq<Transaction>, id: string, paymentDate: Date,
                           reminderLabel: string, freshId: string, today: Date)
    requires ValidReminders(rems) && Valid(paymentDate)
    requires FindById(rems, id, ReminderId).Some?
    ensures var (rems', _) := MarkReminderAsPaid(rems, txs, id, paymentDate, reminderLabel, freshId);
      var found := FindById(rems', id, ReminderId);
      && ValidReminders(rems') && found.Some?
      && ReminderStatusOf(found.value, paymentDate.year, paymentDate.month, today) == PaidStatus
  {
    MarkReminderAsPaidIdempotent(rems, txs, id, paymentDate, reminderLabel, freshId, freshId);
    MarkReminderAsPaidEffect(rems, txs, id, paymentDate, reminderLabel, freshId);
  }

  // ---------------------------------------------------------------------------
  // Paying the month on show
  // ---------------------------------------------------------------------------

  /** The due date of a reminder in a month, as `new Date(year, month - 1, dueDay)`
      gives it, is a printable day: it only ever spills over from a month shorter
      than 31 days, so never out of December. */
  lemma DueDateValid(year: int, month: int, dueDay: int)
    requires 0 <= year <= 9999 && 1 <= month <= 12 && 1 <= dueDay <= 31
    ensures Valid(SetDay(Date(year, month, 1), dueDay))
    ensures SetDay(Date(year, month, 1), dueDay).year == year
  {
  }

  /** `confirmPaid` on the reminders page, as written: the payment date is the
      reminder's due day in the month on show, carried into the next month when
      the month is shorter, and that date is handed to `markReminderAsPaid`. */
  function ConfirmPaid(rems: seq<Reminder>, txs: seq<Transaction>, item: Reminder, year: int, month: int,
                       reminderLabel: string, freshId: string)
    : (seq<Reminder>, seq<Transaction>)
    requires ValidReminders(rems) && ValidReminder(item) && 0 <= year <= 9999 && 1 <= month <= 12
  {
    DueDateValid(year, month, item.dueDay);
    MarkReminderAsPaid(rems, txs, item.id, SetDay(Date(year, month, 1), item.dueDay), reminderLabel, freshId)
  }

  /** The rent reminder of the example below. */
  function Rent(): Reminder {
    Reminder("rent", "Rent", 100.0, 31, [])
  }

  lemma RentPaymentRollsOver()
    ensures SetDay(Date(2024, 4, 1), Rent().dueDay) == Date(2024, 5, 1)
    ensures SetDay(Date(2024, 5, 1), Rent().dueDay) == Date(2024, 5, 31)
  {
  }

  lemma RentUpdated()
    ensures UpdateReminder([Rent()], Rent().(paidMonths := [IsoMonth(2024, 5)])) == [Rent().(paidMonths := [IsoMonth(2024, 5)])]
  {
    var paid := Rent().(paidMonths := [IsoMonth(2024, 5)]);
    assert ReplaceById([Rent()], paid, ReminderId) == [paid];
    SortBySorted([paid], DueDayAscending);
  }

  lemma RentExpenseAdded()
    ensures AddTransaction([], ReminderExpense(Rent(), Date(2024, 5, 1), "Reminders", ""), "t1")
         == [Transaction("t1", Date(2024, 5, 31), ReminderDescription("Reminders", Rent()), 100.0, Expense)]
  {
    RentPaymentRollsOver();
    var expense := Transaction("t1", Date(2024, 5, 31), ReminderDescription("Reminders", Rent()), 100.0, Expense);
    assert ReminderExpense(Rent(), Date(2024, 5, 1), "Reminders", "").(id := "t1") == expense;
    assert [] + [expense] == [expense];
    SortBySorted([expense], Recurring.DateDescending);
  }

  lemma RentPaidInMay()
    ensures ValidReminders([Rent()])
    ensures MarkReminderAsPaid([Rent()], [], "rent", Date(2024, 5, 1), "Reminders", "t1")
         == ([Rent().(paidMonths := [IsoMonth(2024, 5)])],
             [Transaction("t1", Date(2024, 5, 31), ReminderDescription("Reminders", Rent()), 100.0, Expense)])
  {
    assert Rent().paidMonths + [IsoMonth(2024, 5)] == [IsoMonth(2024, 5)];
    assert FindById([Rent()], "rent", ReminderId) == Some(Rent());
    RentUpdated();
    RentExpenseAdded();
  }

  /** A rent reminder due on the 31st, paid while April 2024 is on show, records
      May 2024 as paid, leaves April unpaid and dates the expense May 31. */
  lemma ConfirmPaidSkipsShortMonth(today: Date)
    ensures var (rems', txs') := ConfirmPaid([Rent()], [], Rent(), 2024, 4, "Reminders", "t1");
      && FindById(rems', "rent", ReminderId).Some?
      && FindById(rems', "rent", ReminderId).value.paidMonths == [IsoMonth(2024, 5)]
      && ReminderStatusOf(FindById(rems', "rent", ReminderId).value, 2024, 4, today) != PaidStatus
      && txs' == [Transaction("t1", Date(2024, 5, 31), ReminderDescription("Reminders", Rent()), 100.0, Expense)]
  {
    RentPaymentRollsOver();
    RentPaidInMay();
    var paid := Rent().(paidMonths := [IsoMonth(2024, 5)]);
    assert FindById([paid], "rent", ReminderId) == Some(paid);
    if IsoMonth(2024, 4) in paid.paidMonths {
      IsoMonthInjective(2024, 4, 2024, 5);
      assert false;
    }
  }

  /** `confirmPaid` as intended: the month on show is the month paid, and the
      expense is dated on that month's due date as the status column reckons it. */
  function ConfirmShownMonthPaid(rems: seq<Reminder>, txs: seq<Transaction>, item: Reminder, year: int, month: int,
                                 reminderLabel: string, freshId: string)
    : (seq<Reminder>, seq<Transaction>)
    requires ValidReminders(rems) && 0 <= year <= 9999 && 1 <= month <= 12
  {
    MarkReminderAsPaid(rems, txs, item.id, Date(year, month, 1), reminderLabel, freshId)
  }

  /** After the corrected confirmation the month on show reads as paid, and the
      expense falls on the due date the status column uses for that month. */
  lemma ConfirmShownMonthShowsPaid(rems: seq<Reminder>, txs: seq<Transaction>, item: Reminder, year: int, month: int,
                                   reminderLabel: string, freshId: string, today: Date)
    requires ValidReminders(rems) && 0 <= year <= 9999 && 1 <= month <= 12
    requires FindById(rems, item.id, ReminderId).Some?
    ensures var (rems', _) := ConfirmShownMonthPaid(rems, txs, item, year, month, reminderLabel, freshId);
      var found := FindById(rems', item.id, ReminderId);
      && ValidReminders(rems') && found.Some?
      && ReminderStatusOf(found.value, year, month, today) == PaidStatus
    ensures var rem := FindById(rems, item.id, ReminderId).value;
      ReminderExpense(rem, Date(year, month, 1), reminderLabel, freshId).date == SetDay(Date(year, month, 1), rem.dueDay)
  {
    PaidMonthShowsPaid(rems, txs, item.id, Date(year, month, 1), reminderLabel, freshId, today);
  }

  /** When the due day fits in the month on show, the source and the corrected
      confirmation do the same thing. */
  lemma ConfirmPaidAgreesWhenDayFits(rems: seq<Reminder>, txs: seq<Transaction>, item: Reminder, year: int, month: int,
                                     reminderLabel: string, freshId: string)
    requires ValidReminders(rems) && ValidReminder(item) && 0 <= year <= 9999 && 1 <= month <= 12
    requires item.dueDay <= DaysInMonth(year, month)
    ensures ConfirmPaid(rems, txs, item, year, month, reminderLabel, freshId)
         == ConfirmShownMonthPaid(rems, txs, item, year, month, reminderLabel, freshId)
  {
    assert SetDay(Date(year, month, 1), item.dueDay) == Date(year, month, item.dueDay);
  }
}
