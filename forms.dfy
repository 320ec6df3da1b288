/** The allocation form (App.tsx, `AllocationForm`): how much may still be
    allocated, which entries it accepts, and the allocation a submission stores.

    The form's text fields are modelled after parsing: a number field that
    `parseFloat` cannot read is `None` (its `NaN`), an empty date field is
    `None`. */
module Forms {
  import opened Wrappers
  import opened Dates
  import opened Types
  import opened Seqs
  import opened Records
  import opened Aggregation

  /** The form's state at submission. */
  datatype AllocationDraft = AllocationDraft(
    category: AllocationCategory,
    description: string,
    amount: Option<real>,
    date: Option<Date>,
    interestRate: Option<real>,
    investmentType: string)

  /** `financials.unallocated + (allocationToEdit ? allocationToEdit.amount : 0)`:
      the allocation being edited gives back its own amount. */
  function AvailableToAllocate(unallocated: real, editing: Option<Allocation>): real {
    unallocated + (if editing.Some? then editing.value.amount else 0.0)
  }

  /** The guard of `handleSubmit`: a readable amount that is positive (which also
      rules out the zero `!numAmount` refuses) and not more than is available, and
      a date. */
  predicate Admits(draft: AllocationDraft, available: real) {
    && draft.amount.Some? && draft.amount.value > 0.0
    && draft.date.Some?
    && draft.amount.value <= available
  }

  /** `allocationData`: rate and type only for investments, an unreadable rate
      stored as 0. */
  function BuildAllocation(draft: AllocationDraft, id: string): (a: Allocation)
    requires draft.amount.Some? && draft.date.Some?
    ensures a.amount == draft.amount.value && a.date == draft.date.value && a.category == draft.category
    ensures a.interestRate.Some? <==> draft.category == Investments
    ensures a.investmentType.Some? <==> draft.category == Investments
    ensures a.interestRate.Some? ==> a.interestRate.value == draft.interestRate.GetOr(0.0)
  {
    var investment := draft.category == Investments;
    Allocation(
      id, draft.date.value, draft.category, draft.amount.value, Some(draft.description),
      if investment then Some(if draft.interestRate.Some? then draft.interestRate.value else 0.0) else None,
      if investment then Some(draft.investmentType) else None)
  }

  /** `handleSubmit`: a refused entry stores nothing; an accepted one updates the
      allocation being edited (keeping its id) or adds a new allocation under a
      fresh id. */
  function SubmitAllocation(allocs: seq<Allocation>, draft: AllocationDraft, unallocated: real,
                            editing: Option<Allocation>, freshId: string): (r: seq<Allocation>)
    ensures !Admits(draft, AvailableToAllocate(unallocated, editing)) ==> r == allocs
    ensures Admits(draft, AvailableToAllocate(unallocated, editing)) && editing.None? ==>
      multiset(r) == multiset(allocs) + multiset{BuildAllocation(draft, freshId)}
    ensures Admits(draft, AvailableToAllocate(unallocated, editing)) && editing.Some? ==>
      forall y :: y in r <==>
        || (y in allocs && y.id != editing.value.id)
        || (y == BuildAllocation(draft, editing.value.id) && HasId(allocs, editing.value.id, AllocationId))
  {
    if !Admits(draft, AvailableToAllocate(unallocated, editing)) then allocs
    else if editing.Some? then UpdateAllocation(allocs, BuildAllocation(draft, editing.value.id))
    else AddAllocation(allocs, BuildAllocation(draft, ""), freshId)
  }

  /** With distinct ids, replacing by id changes exactly the one position that
      carries it. */
  lemma ReplaceOne<T>(s: seq<T>, j: int, x: T, id: T -> string)
    requires UniqueBy(s, id) && 0 <= j < |s| && id(s[j]) == id(x)
    ensures ReplaceById(s, x, id) == s[j := x]
  {
    forall i | 0 <= i < |s| ensures ReplaceById(s, x, id)[i] == s[j := x][i] {
      if i != j {
        assert id(s[i]) != id(s[j]) by {
          if i < j { } else { }
        }
      }
    }
  }

  /** The sum after one position changes. */
  lemma SumUpdate<T>(s: seq<T>, j: int, x: T, f: T -> real)
    requires 0 <= j < |s|
    ensures SumBy(s[j := x], f) == SumBy(s, f) - f(s[j]) + f(x)
  {
    assert s == s[..j] + [s[j]] + s[j + 1..];
    assert s[j := x] == s[..j] + [x] + s[j + 1..];
    SumConcat(s[..j] + [s[j]], s[j + 1..], f);
    SumConcat(s[..j], [s[j]], f);
    SumConcat(s[..j] + [x], s[j + 1..], f);
    SumConcat(s[..j], [x], f);
    SumSingle(s[j], f);
    SumSingle(x, f);
  }

  /** The total allocated after a submission. */
  lemma SubmittedTotal(allocs: seq<Allocation>, draft: AllocationDraft, unallocated: real,
                       editing: Option<Allocation>, freshId: string)
    requires UniqueBy(allocs, AllocationId)
    requires editing.Some? ==> editing.value in allocs
    requires Admits(draft, AvailableToAllocate(unallocated, editing))
    ensures SumBy(SubmitAllocation(allocs, draft, unallocated, editing, freshId), AllocationAmount)
         == SumBy(allocs, AllocationAmount) - (if editing.Some? then editing.value.amount else 0.0) + draft.amount.value
  {
    var r := SubmitAllocation(allocs, draft, unallocated, editing, freshId);
    if editing.Some? {
      var x := BuildAllocation(draft, editing.value.id);
      var j :| 0 <= j < |allocs| && allocs[j] == editing.value;
      ReplaceOne(allocs, j, x, AllocationId);
      SortByCorrect(ReplaceById(allocs, x, AllocationId), AllocationDescending);
      SumPermutation(r, allocs[j := x], AllocationAmount);
      SumUpdate(allocs, j, x, AllocationAmount);
    } else {
      var x := BuildAllocation(draft, "").(id := freshId);
      SumPermutation(r, allocs + [x], AllocationAmount);
      SumConcat(allocs, [x], AllocationAmount);
      SumSingle(x, AllocationAmount);
    }
  }

  /** Over the whole ledger, the form never lets the money allocated exceed the
      balance: unallocated money that was not negative stays not negative. */
  lemma SubmitKeepsUnallocated(txs: seq<Transaction>, allocs: seq<Allocation>, draft: AllocationDraft,
                               editing: Option<Allocation>, freshId: string)
    requires UniqueBy(allocs, AllocationId)
    requires editing.Some? ==> editing.value in allocs
    requires ComputeFinancials(txs, allocs, DateFilter(All, None)).unallocated >= 0.0
    ensures var unallocated := ComputeFinancials(txs, allocs, DateFilter(All, None)).unallocated;
      ComputeFinancials(txs, SubmitAllocation(allocs, draft, unallocated, editing, freshId), DateFilter(All, None)).unallocated >= 0.0
  {
    var all := DateFilter(All, None);
    var fin := ComputeFinancials(txs, allocs, all);
    var r := SubmitAllocation(allocs, draft, fin.unallocated, editing, freshId);
    if Admits(draft, AvailableToAllocate(fin.unallocated, editing)) {
      SubmittedTotal(allocs, draft, fin.unallocated, editing, freshId);
      AllFilterUsesEverything(txs, allocs, None);
      AllFilterUsesEverything(txs, r, None);
      FinancialsTotals(txs, allocs, all);
      FinancialsTotals(txs, r, all);
      if fin.totalBalance > 0.0 {
        assert fin.unallocated == fin.totalBalance - SumBy(allocs, AllocationAmount);
      } else {
        assert editing.Some?;
      }
    }
  }
}
