/** The provider's state (`AppProvider` in App.tsx): the five stored collections
    and the operations that replace them.  Each method sets a collection to what
    the matching function of `Records` or `Recurring` computes, and keeps the
    invariant `Valid`: the sorted collections are in order, ids are distinct in
    the ledger and among the templates, and every template and reminder is
    well formed.  Fresh ids and "today" are parameters. */
module AppState {
  import opened Wrappers
  import opened Dates
  import opened Types
  import opened Seqs
  import opened Records
  import Recurring

  /** The template ids are distinct, in the form the record operations use. */
  lemma TemplateIdsAgree(ts: seq<RecurringTransaction>)
    ensures Recurring.UniqueTemplateIds(ts) <==> UniqueBy(ts, Records.RecurringId)
  {
  }

  lemma LedgerIdsAgree(txs: seq<Transaction>)
    ensures Recurring.UniqueIds(txs) <==> UniqueBy(txs, TransactionId)
  {
  }

  /** Catching the templates up keeps them well formed with the same ids. */
  lemma AdvanceAllKeeps(ts: seq<RecurringTransaction>, today: Date)
    requires Recurring.AllValidTemplates(ts) && Valid(today)
    ensures Recurring.AllValidTemplates(Recurring.AdvanceAll(ts, today))
    ensures forall i :: 0 <= i < |ts| ==> Recurring.AdvanceAll(ts, today)[i].id == ts[i].id
  {
    forall i | 0 <= i < |ts| ensures ValidRecurring(Recurring.AdvanceAll(ts, today)[i]) {
      Recurring.PendingValid(ts[i], today);
    }
  }

  /** Deleting templates keeps the rest well formed. */
  lemma DeleteTemplatesKeeps(ts: seq<RecurringTransaction>, k: string)
    requires Recurring.AllValidTemplates(ts)
    ensures Recurring.AllValidTemplates(DeleteRecurring(ts, k))
  {
    var r := DeleteRecurring(ts, k);
    forall i | 0 <= i < |r| ensures ValidRecurring(r[i]) {
      assert r[i] in r;
      var j :| 0 <= j < |ts| && ts[j] == r[i];
    }
  }

  /** The batch keeps the ledger sorted with distinct ids, and the templates well
      formed with distinct ids. */
  lemma ProcessKeeps(txs: seq<Transaction>, ts: seq<RecurringTransaction>, today: Date)
    requires Recurring.AllValidTemplates(ts) && Valid(today)
    requires Recurring.UniqueIds(txs) && Recurring.UniqueTemplateIds(ts)
    ensures var (txs', ts') := Recurring.ProcessRecurring(txs, ts, today);
      && (txs' != txs ==> SortedBy(txs', Recurring.DateDescending))
      && Recurring.UniqueIds(txs')
      && Recurring.AllValidTemplates(ts') && Recurring.UniqueTemplateIds(ts')
  {
    Recurring.LedgerStaysUnique(txs, ts, today);
    var newTxs := Recurring.NewTransactions(ts, today);
    var unique := Recurring.UniqueNew(txs, newTxs);
    if |newTxs| > 0 && |unique| > 0 {
      SortByCorrect(txs + unique, Recurring.DateDescending);
      AdvanceAllKeeps(ts, today);
    }
  }

  class Store {
    var transactions: seq<Transaction>
    var allocations: seq<Allocation>
    var recurringTransactions: seq<RecurringTransaction>
    var receivables: seq<Receivable>
    var reminders: seq<Reminder>

    ghost predicate Valid()
      reads this
    {
      && SortedBy(transactions, Recurring.DateDescending) && Recurring.UniqueIds(transactions)
      && SortedBy(allocations, AllocationDescending)
      && Recurring.AllValidTemplates(recurringTransactions) && Recurring.UniqueTemplateIds(recurringTransactions)
      && SortedBy(receivables, DueDateAscending)
      && SortedBy(reminders, DueDayAscending) && ValidReminders(reminders)
    }

    /** An id no transaction carries. */
    ghost predicate FreshTransactionId(freshId: string)
      reads this
    {
      forall t :: t in transactions ==> t.id != freshId
    }

    constructor ()
      ensures Valid()
      ensures transactions == [] && allocations == [] && recurringTransactions == []
      ensures receivables == [] && reminders == []
    {
      transactions, allocations, recurringTransactions := [], [], [];
      receivables, reminders := [], [];
    }

    /** `processRecurringTransactions`, run when the app starts. */
    method ProcessRecurringTransactions(today: Date)
      requires Valid() && Dates.Valid(today)
      modifies this
      ensures Valid()
      ensures (transactions, recurringTransactions)
           == Recurring.ProcessRecurring(old(transactions), old(recurringTransactions), today)
      ensures allocations == old(allocations) && receivables == old(receivables) && reminders == old(reminders)
    {
      var newTransactions, updatedRecurringTxs := Recurring.MaterializeAll(recurringTransactions, today);
      ProcessKeeps(transactions, recurringTransactions, today);
      if |newTransactions| > 0 {
        var uniqueNewTxs := Recurring.UniqueNew(transactions, newTransactions);
        if |uniqueNewTxs| > 0 {
          transactions := Recurring.SortLedger(transactions + uniqueNewTxs);
          recurringTransactions := updatedRecurringTxs;
        }
      }
    }

    method AddTransaction(draft: Transaction, freshId: string)
      requires Valid() && FreshTransactionId(freshId)
      modifies this
      ensures Valid()
      ensures transactions == Records.AddTransaction(old(transactions), draft, freshId)
      ensures allocations == old(allocations) && recurringTransactions == old(recurringTransactions)
      ensures receivables == old(receivables) && reminders == old(reminders)
    {
      LedgerIdsAgree(transactions);
      AddKeepsUnique(transactions, draft.(id := freshId), Recurring.DateDescending, TransactionId);
      transactions := Records.AddTransaction(transactions, draft, freshId);
      LedgerIdsAgree(transactions);
    }

    method UpdateTransaction(updated: Transaction)
      requires Valid()
      modifies this
      ensures Valid()
      ensures transactions == Records.UpdateTransaction(old(transactions), updated)
      ensures allocations == old(allocations) && recurringTransactions == old(recurringTransactions)
      ensures receivables == old(receivables) && reminders == old(reminders)
    {
      LedgerIdsAgree(transactions);
      UpdateKeepsUnique(transactions, updated, TransactionId, Recurring.DateDescending);
      transactions := Records.UpdateTransaction(transactions, updated);
      LedgerIdsAgree(transactions);
    }

    method DeleteTransaction(k: string)
      requires Valid()
      modifies this
      ensures Valid()
      ensures transactions == Records.DeleteTransaction(old(transactions), k)
      ensures allocations == old(allocations) && recurringTransactions == old(recurringTransactions)
      ensures receivables == old(receivables) && reminders == old(reminders)
    {
      LedgerIdsAgree(transactions);
      DeleteKeepsUnique(transactions, k, TransactionId);
      FilterSortedBy(transactions, KeepOthers(k, TransactionId), Recurring.DateDescending);
      transactions := Records.DeleteTransaction(transactions, k);
      LedgerIdsAgree(transactions);
    }

    method AddAllocation(draft: Allocation, freshId: string)
      requires Valid()
      modifies this
      ensures Valid()
      ensures allocations == Records.AddAllocation(old(allocations), draft, freshId)
      ensures transactions == old(transactions) && recurringTransactions == old(recurringTransactions)
      ensures receivables == old(receivables) && reminders == old(reminders)
    {
      allocations := Records.AddAllocation(allocations, draft, freshId);
    }

    method UpdateAllocation(updated: Allocation)
      requires Valid()
      modifies this
      ensures Valid()
      ensures allocations == Records.UpdateAllocation(old(allocations), updated)
      ensures transactions == old(transactions) && recurringTransactions == old(recurringTransactions)
      ensures receivables == old(receivables) && reminders == old(reminders)
    {
      allocations := Records.UpdateAllocation(allocations, updated);
    }

    method DeleteAllocation(k: string)
      requires Valid()
      modifies this
      ensures Valid()
      ensures allocations == Records.DeleteAllocation(old(allocations), k)
      ensures transactions == old(transactions) && recurringTransactions == old(recurringTransactions)
      ensures receivables == old(receivables) && reminders == old(reminders)
    {
      FilterSortedBy(allocations, KeepOthers(k, AllocationId), AllocationDescending);
      allocations := Records.DeleteAllocation(allocations, k);
    }

    method AddRecurringTransaction(draft: RecurringTransaction, freshId: string)
      requires Valid()
      requires Dates.Valid(draft.startDate) && (draft.endDate.Some? ==> Dates.Valid(draft.endDate.value))
      requires forall r :: r in recurringTransactions ==> r.id != freshId
      modifies this
      ensures Valid()
      ensures recurringTransactions == AddRecurring(old(recurringTransactions), draft, freshId)
      ensures transactions == old(transactions) && allocations == old(allocations)
      ensures receivables == old(receivables) && reminders == old(reminders)
    {
      var ts := AddRecurring(recurringTransactions, draft, freshId);
      assert forall i :: 0 <= i < |recurringTransactions| ==> recurringTransactions[i] in recurringTransactions;
      recurringTransactions := ts;
    }

    method UpdateRecurringTransaction(updated: RecurringTransaction)
      requires Valid() && ValidRecurring(updated)
      modifies this
      ensures Valid()
      ensures recurringTransactions == UpdateRecurring(old(recurringTransactions), updated)
      ensures transactions == old(transactions) && allocations == old(allocations)
      ensures receivables == old(receivables) && reminders == old(reminders)
    {
      TemplateIdsAgree(recurringTransactions);
      ReplaceKeepsIds(recurringTransactions, updated, Records.RecurringId);
      recurringTransactions := UpdateRecurring(recurringTransactions, updated);
      TemplateIdsAgree(recurringTransactions);
    }

    method DeleteRecurringTransaction(k: string)
      requires Valid()
      modifies this
      ensures Valid()
      ensures recurringTransactions == DeleteRecurring(old(recurringTransactions), k)
      ensures transactions == old(transactions) && allocations == old(allocations)
      ensures receivables == old(receivables) && reminders == old(reminders)
    {
      TemplateIdsAgree(recurringTransactions);
      DeleteKeepsUnique(recurringTransactions, k, Records.RecurringId);
      DeleteTemplatesKeeps(recurringTransactions, k);
      recurringTransactions := DeleteRecurring(recurringTransactions, k);
      TemplateIdsAgree(recurringTransactions);
    }

    method AddReceivable(draft: Receivable, freshId: string)
      requires Valid()
      modifies this
      ensures Valid()
      ensures receivables == Records.AddReceivable(old(receivables), draft, freshId)
      ensures transactions == old(transactions) && allocations == old(allocations)
      ensures recurringTransactions == old(recurringTransactions) && reminders == old(reminders)
    {
      receivables := Records.AddReceivable(receivables, draft, freshId);
    }

    method UpdateReceivable(updated: Receivable)
      requires Valid()
      modifies this
      ensures Valid()
      ensures receivables == Records.UpdateReceivable(old(receivables), updated)
      ensures transactions == old(transactions) && allocations == old(allocations)
      ensures recurringTransactions == old(recurringTransactions) && reminders == old(reminders)
    {
      receivables := Records.UpdateReceivable(receivables, updated);
    }

    method DeleteReceivable(k: string)
      requires Valid()
      modifies this
      ensures Valid()
      ensures receivables == Records.DeleteReceivable(old(receivables), k)
      ensures transactions == old(transactions) && allocations == old(allocations)
      ensures recurringTransactions == old(recurringTransactions) && reminders == old(reminders)
    {
      FilterSortedBy(receivables, KeepOthers(k, ReceivableId), DueDateAscending);
      receivables := Records.DeleteReceivable(receivables, k);
    }

    method AddReminder(draft: Reminder, freshId: string)
      requires Valid() && 1 <= draft.dueDay <= 31
      modifies this
      ensures Valid()
      ensures reminders == Records.AddReminder(old(reminders), draft, freshId)
      ensures transactions == old(transactions) && allocations == old(allocations)
      ensures recurringTransactions == old(recurringTransactions) && receivables == old(receivables)
    {
      var rems := Records.AddReminder(reminders, draft, freshId);
      forall y | y in rems ensures ValidReminder(y) {
        assert y in multiset(rems);
      }
      reminders := rems;
    }

    method UpdateReminder(updated: Reminder)
      requires Valid() && ValidReminder(updated)
      modifies this
      ensures Valid()
      ensures reminders == Records.UpdateReminder(old(reminders), updated)
      ensures transactions == old(transactions) && allocations == old(allocations)
      ensures recurringTransactions == old(recurringTransactions) && receivables == old(receivables)
    {
      UpdateKeepsValid(reminders, updated);
      reminders := Records.UpdateReminder(reminders, updated);
    }

    method DeleteReminder(k: string)
      requires Valid()
      modifies this
      ensures Valid()
      ensures reminders == Records.DeleteReminder(old(reminders), k)
      ensures transactions == old(transactions) && allocations == old(allocations)
      ensures recurringTransactions == old(recurringTransactions) && receivables == old(receivables)
    {
      FilterSortedBy(reminders, KeepOthers(k, ReminderId), DueDayAscending);
      reminders := Records.DeleteReminder(reminders, k);
    }

    /** `markReceivableAsPaid`. */
    method MarkReceivableAsPaid(rec: Receivable, today: Date, paidLabel: string, freshId: string)
      requires Valid() && FreshTransactionId(freshId)
      modifies this
      ensures Valid()
      ensures (receivables, transactions)
           == Records.MarkReceivableAsPaid(old(receivables), old(transactions), rec, today, paidLabel, freshId)
      ensures allocations == old(allocations) && recurringTransactions == old(recurringTransactions)
      ensures reminders == old(reminders)
    {
      UpdateReceivable(rec.(status := Paid));
      AddTransaction(Transaction("", today, PaidDescription(paidLabel, rec), rec.amount, Income), freshId);
    }

    /** `markReminderAsPaid`. */
    method MarkReminderAsPaid(id: string, paymentDate: Date, reminderLabel: string, freshId: string)
      requires Valid() && Dates.Valid(paymentDate) && FreshTransactionId(freshId)
      modifies this
      ensures Valid()
      ensures (reminders, transactions)
           == Records.MarkReminderAsPaid(old(reminders), old(transactions), id, paymentDate, reminderLabel, freshId)
      ensures allocations == old(allocations) && recurringTransactions == old(recurringTransactions)
      ensures receivables == old(receivables)
    {
      var found := FindById(reminders, id, ReminderId);
      if found.None? {
        return;
      }
      var reminder := found.value;
      var monthStr := IsoMonth(paymentDate.year, paymentDate.month);
      if monthStr !in reminder.paidMonths {
        PaidMonthKeepsValid(reminder, paymentDate.year, paymentDate.month);
        UpdateReminder(reminder.(paidMonths := reminder.paidMonths + [monthStr]));
        AddTransaction(ReminderExpense(reminder, paymentDate, reminderLabel, ""), freshId);
      }
    }

    /** The reminders page's "mark as paid" for the month on show, with the month
        handed over as that month itself rather than as the rolled due date. */
    method ConfirmReminderPaid(item: Reminder, year: int, month: int, reminderLabel: string, freshId: string)
      requires Valid() && 0 <= year <= 9999 && 1 <= month <= 12 && FreshTransactionId(freshId)
      modifies this
      ensures Valid()
      ensures (reminders, transactions)
           == ConfirmShownMonthPaid(old(reminders), old(transactions), item, year, month, reminderLabel, freshId)
      ensures allocations == old(allocations) && recurringTransactions == old(recurringTransactions)
      ensures receivables == old(receivables)
    {
      MarkReminderAsPaid(item.id, Date(year, month, 1), reminderLabel, freshId);
    }
  }
}
