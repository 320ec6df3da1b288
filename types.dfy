/** The record shapes and enumerations of `types.ts`.  Record dates are calendar
    days (`Dates.Date`) whose text form is `IsoDay`; money is `real`.  An identifier
    is an opaque string.  The TypeScript field `type` is called `kind` here because
    `type` is a Dafny keyword. */
module Types {
  import opened Wrappers
  import opened Dates

  // ---------------------------------------------------------------------------
  // Enumerations and the strings they are stored as
  // ---------------------------------------------------------------------------

  datatype TransactionType = Income | Expense

  function TransactionTypeName(t: TransactionType): string {
    match t
    case Income => "income"
    case Expense => "expense"
  }

  function ParseTransactionType(s: string): (r: Option<TransactionType>)
    ensures r.Some? ==> TransactionTypeName(r.value) == s
  {
    if s == "income" then Some(Income)
    else if s == "expense" then Some(Expense)
    else None
  }

  /** Exactly two transaction types, each stored under its own name. */
  lemma TransactionTypeRoundTrip(t: TransactionType)
    ensures ParseTransactionType(TransactionTypeName(t)) == Some(t)
    ensures t == Income || t == Expense
  {
    match t
    case Income =>
    case Expense => assert TransactionTypeName(t) != "income";
  }

  datatype AllocationCategory = Investments | EmergencyFund | Goals

  function AllocationCategoryName(c: AllocationCategory): string {
    match c
    case Investments => "investments"
    case EmergencyFund => "emergency_fund"
    case Goals => "goals"
  }

  function ParseAllocationCategory(s: string): (r: Option<AllocationCategory>)
    ensures r.Some? ==> AllocationCategoryName(r.value) == s
  {
    if s == "investments" then Some(Investments)
    else if s == "emergency_fund" then Some(EmergencyFund)
    else if s == "goals" then Some(Goals)
    else None
  }

  lemma AllocationCategoryRoundTrip(c: AllocationCategory)
    ensures ParseAllocationCategory(AllocationCategoryName(c)) == Some(c)
    ensures c == Investments || c == EmergencyFund || c == Goals
  {
    match c
    case Investments =>
    case EmergencyFund => assert AllocationCategoryName(c) != "investments";
    case Goals =>
      assert AllocationCategoryName(c) != "investments";
      assert AllocationCategoryName(c) != "emergency_fund";
  }

  datatype ReceivableStatus = Pending | Billed | Paid

  function ReceivableStatusName(s: ReceivableStatus): string {
    match s
    case Pending => "pending"
    case Billed => "billed"
    case Paid => "paid"
  }

  function ParseReceivableStatus(s: string): (r: Option<ReceivableStatus>)
    ensures r.Some? ==> ReceivableStatusName(r.value) == s
  {
    if s == "pending" then Some(Pending)
    else if s == "billed" then Some(Billed)
    else if s == "paid" then Some(Paid)
    else None
  }

  lemma ReceivableStatusRoundTrip(s: ReceivableStatus)
    ensures ParseReceivableStatus(ReceivableStatusName(s)) == Some(s)
    ensures s == Pending || s == Billed || s == Paid
  {
    match s
    case Pending =>
    case Billed => assert ReceivableStatusName(s) != "pending";
    case Paid =>
      assert ReceivableStatusName(s) != "pending";
      assert ReceivableStatusName(s) != "billed";
  }

  datatype FilterType = All | Year | Month | Day

  function FilterTypeName(f: FilterType): string {
    match f
    case All => "all"
    case Year => "year"
    case Month => "month"
    case Day => "day"
  }

  function ParseFilterType(s: string): (r: Option<FilterType>)
    ensures r.Some? ==> FilterTypeName(r.value) == s
  {
    if s == "all" then Some(All)
    else if s == "year" then Some(Year)
    else if s == "month" then Some(Month)
    else if s == "day" then Some(Day)
    else None
  }

  lemma FilterTypeRoundTrip(f: FilterType)
    ensures ParseFilterType(FilterTypeName(f)) == Some(f)
    ensures f == All || f == Year || f == Month || f == Day
  {
    match f
    case All =>
    case Year => assert FilterTypeName(f) != "all";
    case Month =>
      assert FilterTypeName(f) != "all";
      assert FilterTypeName(f) != "year";
    case Day =>
      assert FilterTypeName(f) != "all";
      assert FilterTypeName(f) != "year";
      assert FilterTypeName(f) != "month";
  }

  // ---------------------------------------------------------------------------
  // Records
  // ---------------------------------------------------------------------------

  datatype Transaction = Transaction(
    id: string,
    date: Date,
    description: string,
    amount: real,
    kind: TransactionType)

  datatype Allocation = Allocation(
    id: string,
    date: Date,
    category: AllocationCategory,
    amount: real,
    description: Option<string>,
    interestRate: Option<real>,     // annual percent; investments only
    investmentType: Option<string>) // free-text label; investments only

  datatype RecurringTransaction = RecurringTransaction(
    id: string,
    description: string,
    amount: real,
    kind: TransactionType,
    startDate: Date,
    endDate: Option<Date>,
    lastProcessedDate: Option<Date>)

  datatype Receivable = Receivable(
    id: string,
    clientName: string,
    description: string,
    amount: real,
    dueDate: Date,
    status: ReceivableStatus)

  datatype Reminder = Reminder(
    id: string,
    description: string,
    amount: real,
    dueDay: int,
    paidMonths: seq<string>)

  datatype DateFilter = DateFilter(kind: FilterType, value: Option<string>)

  /** Every record date is a `YYYY-MM-DD` day. */
  predicate ValidTransaction(t: Transaction) {
    Valid(t.date)
  }

  /** The rate and the label belong to investment allocations only. */
  predicate ValidAllocation(a: Allocation) {
    Valid(a.date) &&
    (a.category != Investments ==> a.interestRate.None? && a.investmentType.None?)
  }

  /** Start, optional end and optional cursor are `YYYY-MM-DD` days. */
  predicate ValidRecurring(r: RecurringTransaction) {
    Valid(r.startDate) &&
    (r.endDate.Some? ==> Valid(r.endDate.value)) &&
    (r.lastProcessedDate.Some? ==> Valid(r.lastProcessedDate.value))
  }

  predicate IsMonthText(s: string) {
    exists y, m :: 0 <= y <= 9999 && 1 <= m <= 12 && s == IsoMonth(y, m)
  }

  /** A due day of month in 1..31 and paid months written `YYYY-MM`. */
  predicate ValidReminder(r: Reminder) {
    1 <= r.dueDay <= 31 &&
    forall i :: 0 <= i < |r.paidMonths| ==> IsMonthText(r.paidMonths[i])
  }
}
