# finanzen_app: a verified model of the financial engine

finanzen_app is a personal-finance web app. Its `AppProvider` (App.tsx) holds five
collections: the ledger of income and expense transactions, savings allocations,
recurring templates, receivables and monthly bill reminders. From these it derives
every figure the app shows. This project models that engine in Dafny and proves
what the code promises about it.

The model covers:

- **Recurring materializer** (`recurring.dfy`). At start-up every template walks
  month by month from its start date or its cursor up to today and its optional end
  date. Each step emits a ledger entry with the id `rec-<templateId>-<YYYY-MM-DD>`.
  Entries whose id is already in the ledger are dropped. When something is left,
  the ledger is re-sorted newest first and the templates' cursors are saved.
- **Calendar arithmetic** (`dates.dfy`). Dates are `Date(year, month, day)`.
  `setMonth`, `setDate` and `new Date(y, m, d)` are modelled as JavaScript does
  them: a day past the end of the month carries into the next month.
- **Record operations** (`records.dfy`):
  - add, update and delete for each collection;
  - marking a receivable or a reminder as paid;
  - the receivable and reminder status rules.
- **Provider state** (`store.dfy`). The class `AppState.Store` holds the five
  collections. Its methods replace them through the functions above and keep an
  invariant: the lists stay sorted, ids stay distinct, and templates and reminders
  stay well formed.
- **Aggregation** (`aggregation.dfy`):
  - the date filter and the `financials` totals;
  - the allocation pie;
  - the emergency-fund progress bar;
  - the list of years the filter offers.
- **Investments** (`investments.dfy`). Monthly compounding over whole months,
  the floors on value and growth, and the breakdown by investment type.
- **Projection** (`projection.dfy`):
  - the amount-weighted average rate;
  - the 60-month projection with recurring net flow.
- **Balance history** (`balance_history.dfy`). The chart's running balance, with
  every day filled in between the first and the last transaction.
- **Allocation form** (`forms.dfy`). Which entries the form accepts and how much
  may still be allocated.

The record shapes and enums of types.ts are in `types.dfy`. Generic sequence
facts (filter, sum, stable sort, grouping) are in `seqs.dfy`.

Parameters stand in for what the code reads from its environment:

- "today" and "now" (the wall clock);
- fresh ids (the code uses a timestamp plus `Math.random()`);
- the translated labels (`t(...)`);
- the fractional power `Math.pow(1 + r/100, 1/12) - 1`, passed as a function
  `monthlyRate`. The only fact used about it is that a zero rate gives a zero
  monthly rate.

### Behaviour worth knowing

- **Day rollover.** Adding a month to 31 January 2024 gives 2 March
  (`Dates.AddMonthOverflowExample`). A template starting 31 January 2024 is
  therefore due on 31 January, 2 March and 2 April (`Recurring.ScheduleExample`).
- **Resuming from a cursor can skip a month.** The code adds one month to the
  cursor and then sets the start date's day. With the cursor on 2 March and a start
  day of 31, this gives 2 April and then 1 May, so April is skipped
  (`Recurring.ResumeExample`).
- **Materialized ids.** They have the form `rec-<templateId>-<date>`
  (`Recurring.RecurringIdInjective`).
- **Unallocated money is not floored.** It is 0 when the balance is not positive;
  otherwise it is exactly the balance minus the total allocated, so it can be
  negative (`Aggregation.UnallocatedCanBeNegative`).
- **Filter scoping.** The `financials` totals are consistent. Filter type `all`
  uses both unfiltered collections; any other type filters both by the same
  prefix.
- **Projection month labels.** On the 31st of a month, the label for "one month
  ahead" also rolls over. Two consecutive points can then carry the same month,
  for example March twice from 31 January (`Projection.MonthLabelExample`).

## Model

| member | source | states |
|---|---|---|
| `Types.TransactionTypeRoundTrip` | types.ts:2-5 | exactly two transaction types; each name parses back to its type |
| `Types.AllocationCategoryRoundTrip` | types.ts:15-19 | exactly the categories investments, emergency_fund and goals; names round-trip |
| `Types.ReceivableStatusRoundTrip` | types.ts:41-45 | exactly the statuses pending, billed and paid; names round-trip |
| `Types.FilterTypeRoundTrip` | types.ts:76 | exactly the filter types all, year, month and day; names round-trip |
| `Dates.IsoDayRoundTrip` | types.ts:9 | a record date printed as `YYYY-MM-DD` parses back to the same date |
| `Dates.ParseIsoDayExact` | types.ts:9 | every text that parses as a date is exactly the printed form of that date |
| `Dates.AddMonth` | App.tsx:175 | `setMonth(getMonth() + 1)` gives a later day in a later month, never a later day of month |
| `Dates.SetDay` | App.tsx:176 | `setDate(k)` stays in the month when k fits, otherwise carries into the next month with a smaller day |
| `Dates.AddMonthOverflowExample` | App.tsx:192 | 31 January plus a month is 2 March in 2024 and 3 March in 2023 |
| `Dates.AddMonthsDayNumber` | App.tsx:175 | `setMonth` lands `day - 1` days after the first of the target month, counted in days since year 0 |
| `Dates.AddMonthKeepsDay` | App.tsx:192 | a month later keeps the day of month when the next month has that day |
| `Dates.AddMonthCarries` | App.tsx:192 | a day the next month lacks carries into the month after it by the missing days |
| `Dates.SetDayDayNumber` | App.tsx:176 | `setDate(k)` and `new Date(y, m, k)` land `k - 1` days after the first of the month |
| `Dates.SetDayCarries` | App.tsx:267 | a day past the end of the month carries into the next month by the surplus |
| `Dates.NextDay` | App.tsx:537 | `setDate(getDate() + 1)` gives a valid later calendar day |
| `Dates.NextDayDayNumber` | App.tsx:537 | the next day is exactly one day later in the day count |
| `Dates.NoDayBetween` | App.tsx:537 | no calendar day lies strictly between a day and the next one |
| `Dates.MonthPrefix` | App.tsx:294 | a date's text starts with `YYYY-MM` exactly when the date is in that month |
| `Dates.YearPrefix` | App.tsx:294 | a date's text starts with `YYYY` exactly when the date is in that year |
| `Dates.DayPrefix` | App.tsx:294 | a date's text starts with another date's full text exactly when the dates are equal |
| `Recurring.RecurringIdInjective` | App.tsx:184 | two materialized ids are equal only for the same template and the same date |
| `Recurring.FirstPending` | App.tsx:172-177 | without a cursor the walk starts exactly at the start date; with one it starts strictly after the cursor; either way on a well-formed day no later than the start day |
| `Recurring.PendingFromStart` | App.tsx:172 | a template without a cursor that has started walks from its start date |
| `Recurring.FirstPendingResumes` | App.tsx:173-177 | with a cursor, the walk resumes one month after it, on the start date's day |
| `Recurring.NotYetActive` | App.tsx:167 | a template whose start date is after today emits nothing and keeps its cursor |
| `Recurring.PendingDatesBounded` | App.tsx:179-193 | every due date is at most today and at most the end date; the dates strictly increase; the cursor becomes the last one |
| `Recurring.ScheduleExample` | App.tsx:179-193 | a template from 31 January 2024, run on 15 April 2024, is due on 31 January, 2 March and 2 April |
| `Recurring.ResumeExample` | App.tsx:173-177 | resuming from a cursor on 2 March with start day 31 first falls due on 1 May |
| `Recurring.EmittedTransactions` | App.tsx:183-189 | each emitted entry copies description, amount and type and carries the id `rec-<templateId>-<date>` |
| `Recurring.CursorMonotone` | App.tsx:190 | the walk changes only the cursor, and never moves it back |
| `Recurring.MaterializeTemplate` | App.tsx:165-194 | the loop over one template emits one entry per due date and leaves the cursor on the last one |
| `Recurring.MaterializeAll` | App.tsx:163-194 | the loop over the deep copy yields every template's entries in order and every template caught up |
| `Recurring.UniqueNewExact` | App.tsx:197-198 | exactly the new entries whose id the ledger does not hold survive |
| `Recurring.ProcessRecurringEffect` | App.tsx:196-204 | with nothing surviving nothing changes; otherwise the ledger is the old one plus the survivors, sorted newest first, and templates are caught up |
| `Recurring.NewTransactionsOrigin` | App.tsx:182-185 | every new entry has a printable date and the id of one of the templates |
| `Recurring.NewTransactionsUnique` | App.tsx:182-185 | templates with distinct ids never emit the same id twice |
| `Recurring.LedgerStaysUnique` | App.tsx:196-204 | a ledger without repeated ids keeps none after the batch |
| `Recurring.AdvancedIsCaughtUp` | App.tsx:179-193 | a caught-up template has nothing left to emit for the same day |
| `Recurring.Idempotent` | App.tsx:158-209 | running the batch a second time on the same day changes nothing |
| `Records.FindById` | App.tsx:258 | `find` gives the first record with the wanted id (no earlier record carries it), and nothing exactly when no record has it |
| `Records.AddSortedCorrect` | App.tsx:220-222 | an add keeps every record, adds the new one, and leaves the list sorted |
| `Records.UpdateSortedCorrect` | App.tsx:224 | after an update the list is sorted, as long, and holds the other records plus the updated one when its id was present |
| `Records.UpdatedIdIsUpdated` | App.tsx:224 | every record carrying the updated id is the updated record |
| `Records.UpdateUnknownId` | App.tsx:224 | updating with an id no record carries changes nothing in a sorted list |
| `Records.DeleteCorrect` | App.tsx:225 | a delete keeps exactly the records with another id, and changes nothing when the id is absent |
| `Records.AddKeepsUnique` | App.tsx:220-222 | an add under a fresh id keeps ids distinct |
| `Records.UpdateKeepsUnique` | App.tsx:224 | an update keeps ids distinct |
| `Records.DeleteKeepsUnique` | App.tsx:225 | a delete keeps ids distinct |
| `Records.AddTransaction` | App.tsx:220-223 | the ledger gains the draft under the fresh id and stays sorted newest first |
| `Records.UpdateTransaction` | App.tsx:224 | the ledger holds the others and the updated entry, sorted newest first |
| `Records.DeleteTransaction` | App.tsx:225 | the ledger keeps exactly the entries with another id |
| `Records.AddAllocation` | App.tsx:227-230 | the allocations gain the draft under the fresh id, sorted newest first |
| `Records.UpdateAllocation` | App.tsx:231 | the allocations hold the others and the updated one, sorted newest first |
| `Records.DeleteAllocation` | App.tsx:232 | the allocations keep exactly those with another id |
| `Records.AddRecurring` | App.tsx:234 | the template is appended unsorted, under the fresh id, with no cursor |
| `Records.UpdateRecurring` | App.tsx:235 | templates with the updated id are replaced in place; the others stay where they were |
| `Records.DeleteRecurring` | App.tsx:236 | the templates keep exactly those with another id, each as often as before |
| `Records.DeleteRecurringKeepsOrder` | App.tsx:236 | the delete keeps the templates' relative order: deleting from two parts and joining them is deleting from the whole |
| `Records.AddReceivable` | App.tsx:238-240 | the receivables gain the draft under the fresh id, earliest due date first |
| `Records.UpdateReceivable` | App.tsx:241 | the receivables hold the others and the updated one, earliest due date first |
| `Records.DeleteReceivable` | App.tsx:242 | the receivables keep exactly those with another id |
| `Records.AddReminder` | App.tsx:253 | the reminders gain the draft under the fresh id with no paid month, by due day |
| `Records.UpdateReminder` | App.tsx:254 | the reminders hold the others and the updated one, by due day |
| `Records.DeleteReminder` | App.tsx:255 | the reminders keep exactly those with another id |
| `Records.MarkReceivableAsPaidEffect` | App.tsx:243-250 | every receivable with that id is now exactly the paid copy and the list keeps its length; the others stay; the ledger gains exactly one income of its amount dated today |
| `Records.DisplayStatusOf` | App.tsx:1395-1402 | overdue exactly when not paid and due before today; otherwise the stored status |
| `Records.PaidReceivableShowsPaid` | App.tsx:243-250 | a receivable marked as paid shows as paid on any later day |
| `Records.PaidMonthKeepsValid` | App.tsx:264 | appending a `YYYY-MM` month keeps a reminder's paid months well formed |
| `Records.MarkReminderAsPaidEffect` | App.tsx:257-276 | a missing reminder or a paid month changes nothing; otherwise the month is appended once and exactly one expense of the reminder's amount is added on its due day |
| `Records.MarkReminderAsPaidIdempotent` | App.tsx:257-276 | paying the same month twice is paying it once |
| `Records.ReminderStatusOf` | App.tsx:1547-1563 | paid exactly when the month is recorded; overdue exactly when it is not and the month's due date is before today; pending otherwise |
| `Records.PaidMonthShowsPaid` | App.tsx:257-276 | after a payment the paid month shows as paid |
| `Records.DueDateValid` | App.tsx:1541 | the due date of a month never leaves its year, so it is always printable |
| `Records.ConfirmPaidSkipsShortMonth` | App.tsx:1538-1545 | a reminder due on the 31st, paid while April 2024 is shown, records May, leaves April unpaid and dates the expense 31 May |
| `Records.ConfirmShownMonthShowsPaid` | App.tsx:1538-1545 | the corrected confirmation records the month shown as paid and dates the expense on that month's due date |
| `Records.ConfirmPaidAgreesWhenDayFits` | App.tsx:1538-1545 | when the due day fits in the month, the code and the correction do the same |
| `AppState.Store.constructor` | App.tsx:140-144 | an empty store satisfies the invariant |
| `AppState.Store.ProcessRecurringTransactions` | App.tsx:158-209 | the batch sets the ledger and templates to the recurring model's result and keeps the invariant |
| `AppState.Store.AddTransaction` | App.tsx:220-223 | the ledger becomes the model's add; the invariant, including distinct ids, is kept |
| `AppState.Store.UpdateTransaction` | App.tsx:224 | the ledger becomes the model's update; the invariant is kept |
| `AppState.Store.DeleteTransaction` | App.tsx:225 | the ledger becomes the model's delete; the invariant is kept |
| `AppState.Store.AddAllocation` | App.tsx:227-230 | the allocations become the model's add; nothing else changes |
| `AppState.Store.UpdateAllocation` | App.tsx:231 | the allocations become the model's update; nothing else changes |
| `AppState.Store.DeleteAllocation` | App.tsx:232 | the allocations become the model's delete; nothing else changes |
| `AppState.Store.AddRecurringTransaction` | App.tsx:234 | the templates become the model's add; ids stay distinct |
| `AppState.Store.UpdateRecurringTransaction` | App.tsx:235 | the templates become the model's update; they stay well formed with distinct ids |
| `AppState.Store.DeleteRecurringTransaction` | App.tsx:236 | the templates become the model's delete; they stay well formed with distinct ids |
| `AppState.Store.AddReceivable` | App.tsx:240 | the receivables become the model's add; nothing else changes |
| `AppState.Store.UpdateReceivable` | App.tsx:241 | the receivables become the model's update; nothing else changes |
| `AppState.Store.DeleteReceivable` | App.tsx:242 | the receivables become the model's delete; nothing else changes |
| `AppState.Store.AddReminder` | App.tsx:253 | the reminders become the model's add; they stay well formed |
| `AppState.Store.UpdateReminder` | App.tsx:254 | the reminders become the model's update; they stay well formed |
| `AppState.Store.DeleteReminder` | App.tsx:255 | the reminders become the model's delete; nothing else changes |
| `AppState.Store.MarkReceivableAsPaid` | App.tsx:243-250 | receivables and ledger become the model's result; the invariant is kept |
| `AppState.Store.MarkReminderAsPaid` | App.tsx:257-276 | reminders and ledger become the model's result; the invariant is kept |
| `AppState.Store.ConfirmReminderPaid` | App.tsx:1538-1545 | the corrected confirmation on the store; the invariant is kept |
| `Aggregation.FilterTransactionsExact` | App.tsx:292-295 | an inactive filter keeps everything; otherwise exactly the entries whose date text starts with the value |
| `Aggregation.SelectsMeaning` | App.tsx:294 | a year, month or day filter value selects exactly the dates in that year, month or day |
| `Aggregation.MonthFilterKeepsMonth` | App.tsx:292-295 | the month filter is the in-order filter on year and month |
| `Aggregation.YearFilterKeepsYear` | App.tsx:292-295 | the year filter is the in-order filter on year |
| `Aggregation.ComputeFinancials` | App.tsx:308-317 | the savings rate is 0 without positive income and otherwise balance / income × 100; unallocated is 0 without a positive balance and otherwise balance − allocated |
| `Aggregation.FinancialsTotals` | App.tsx:303-308 | income and expenses each sum their own type over the filtered entries; the balance is their difference |
| `Aggregation.FinancialsAllocations` | App.tsx:311-316 | one sum per category present, each the sum of that category; the total is the sum of all filtered allocations |
| `Aggregation.AllFilterUsesEverything` | App.tsx:303-304 | filter type `all` sums the whole ledger and all allocations |
| `Aggregation.UnallocatedCanBeNegative` | App.tsx:317 | allocating 150 of a balance of 100 leaves −50 unallocated |
| `Aggregation.PieDataCorrect` | App.tsx:579-590 | the pie holds exactly the positive category sums, plus unallocated when positive |
| `Aggregation.EmergencyFundProgress` | App.tsx:1086 | progress is 0 for a goal that is not positive, and otherwise the fund as a percentage of the goal |
| `Aggregation.ProgressBarWidth` | App.tsx:1130 | the bar's width is the progress below 100 and exactly 100 from there on |
| `Aggregation.ProgressBarBounds` | App.tsx:1086-1130 | the bar is full once the goal is reached, and between 0 and 100 for a fund that is not negative |
| `Aggregation.AvailableYearNumbersMembers` | App.tsx:722-725 | the offered years are exactly the years of the ledger's entries |
| `Aggregation.AvailableYearNumbersDecreasing` | App.tsx:724 | the years are listed newest first, each once |
| `Aggregation.AvailableYearsMembers` | App.tsx:723 | the offered texts are exactly the first four characters of the entries' dates |
| `Aggregation.AvailableYearsDecreasing` | App.tsx:724 | the texts are four digits, in strictly decreasing order |
| `Investments.WholeMonths` | App.tsx:335-336 | the whole calendar months from the allocation's month to today's month, ignoring days, and 0 when negative |
| `Investments.Figures` | App.tsx:345-351 | the reported value is the amount paid in plus the growth; it is never below the amount paid in, growth is never negative, and above the amount paid in growth is the difference |
| `Investments.ComputeFigures` | App.tsx:322-354 | the `forEach` accumulates exactly the figures defined over the investment allocations |
| `Investments.ZeroRateKeepsPrincipal` | App.tsx:331-338 | a missing or zero rate keeps an allocation at its principal |
| `Investments.GrowthNeverLoses` | App.tsx:338 | a non-negative rate never loses a non-negative principal |
| `Investments.NoRatesNoGrowth` | App.tsx:323-351 | without rates the value is what was paid in, and there is no growth |
| `Investments.BreakdownAddsUp` | App.tsx:341-346 | exactly one breakdown entry per type label among the investments, holding that label's summed value; the entries add up to the value before its floor; when that value is below the amount paid in, the reported value is the amount paid in and the growth is 0 |
| `Investments.OnlyInvestmentsCount` | App.tsx:323 | the figures depend on the investment allocations alone |
| `Projection.AverageIgnoresUnrated` | App.tsx:359-365 | allocations with no or zero rate do not affect the average, which is 0 when no allocation has a rate |
| `Projection.SameRateAverage` | App.tsx:359-365 | when every rated investment has the same rate, the average is that rate |
| `Projection.FutureMonth` | App.tsx:374-376 | the label date is the 1st of the month i months ahead, or of the month after when the day rolls over |
| `Projection.CountsInMeaning` | App.tsx:380-392 | a recurring item counts in its start month only, and only when it has not ended before that month |
| `Projection.ComputeAverageRate` | App.tsx:359-365 | the loop computes exactly the weighted average rate |
| `Projection.ProjectFrom` | App.tsx:368-405 | the loop produces exactly the first 60 points of the running projection |
| `Projection.ComputeProjection` | App.tsx:356-406 | the projection has exactly 60 points, those of the model |
| `Projection.PointsNonNegative` | App.tsx:399-403 | every point's value and contributions are at least 0, and its month is a 1st |
| `Projection.ContributionsGrow` | App.tsx:395-397 | running contributions never decrease |
| `Projection.ReportedContributionsGrow` | App.tsx:395-402 | reported contributions never decrease from one point to the next |
| `Projection.FlatWithoutGrowth` | App.tsx:378-394 | with no rate and no recurring items, the running state stays where it started |
| `Projection.MonthLabelExample` | App.tsx:374-376 | from 31 January 2024 the first two points are both labelled March |
| `BalanceHistory.ComputeDailyBalances` | App.tsx:521-528 | the first loop records, for each day with entries, the balance after that day's last entry |
| `BalanceHistory.FillDays` | App.tsx:532-543 | the second loop lists every day from the first to the last with the latest balance so far |
| `BalanceHistory.ComputeHistory` | App.tsx:519-549 | the chart data is exactly the history of the model |
| `BalanceHistory.HistorySpan` | App.tsx:532-547 | with two or more entries, the history runs from the first entry's day to the last's, one day at a time |
| `BalanceHistory.HistoryBalances` | App.tsx:525-543 | every point's balance is the sum of the signed amounts up to that day; the last day's balance is the whole ledger's sum |
| `BalanceHistory.HistoryHasEveryDay` | App.tsx:537-543 | every day between the first and the last entry has a point |
| `Forms.BuildAllocation` | App.tsx:981-988 | the stored allocation has rate and type exactly for investments, and an unreadable rate counts as 0 |
| `Forms.SubmitAllocation` | App.tsx:963-995 | a refused entry stores nothing; an accepted one is added under a fresh id or replaces the edited allocation |
| `Forms.SubmittedTotal` | App.tsx:963-993 | after an accepted entry, the total allocated changes by the new amount minus the edited allocation's amount |
| `Forms.SubmitKeepsUnallocated` | App.tsx:963-979 | over the whole ledger, a submission never makes unallocated money negative |

## Left out

- The React components, theme and language effects, the chart layouts and the pie-label trigonometry. They only render.
- `updateSettings`, `setLang`, `toggleTheme`, `loadSampleData` and the stored filter (App.tsx:279-290, 150), because they only replace settings or load fixed sample lists. The emergency-fund goal is a parameter of `Aggregation.EmergencyFundProgress`.
- `useLocalStorage` and the initial state read from storage, because they are persistence I/O. The store starts empty.
- `exportToCSV`, because it builds a download in the page.
- The Gemini service calls (`services/geminiService.ts`, `src/services/geminiService.ts`), because they are network calls.
- The `toISOString()` conversion to UTC. In time zones east of UTC it can print the day before a local date (App.tsx:182, 246, 261, 270, 400, 538); at App.tsx:261 this decides which month a reminder payment records, so east of UTC a payment dated the 1st of a month records the month before. Dates are modelled as local calendar days.
- The same goes for `new Date('YYYY-MM-DD')` in `sortDateFn`, `sortDueDateFn` and `getDisplayStatus`. JavaScript reads that form as UTC midnight. The model compares calendar days.
- The wall clock, `Math.random()` ids and the translated labels. They are parameters.
- `Math.pow(1 + r/100, 1/12) - 1` is a parameter `monthlyRate`. Floating-point rounding is not modelled; money is `real`.
- `parseFloat` of the form fields is modelled after parsing: an unreadable number is `None`. The `NaN` that a record with an unreadable amount would carry is not modelled.
- Text comparison with `localeCompare` in `availableYears`. For four-digit years it is the numeric order, which is what the model sorts by.
- The allocation form reads the unallocated figure under whatever date filter is active. `Forms.SubmitKeepsUnallocated` states the guarantee for the filter `all` only.
- `Records.DisplayStatusOf` and `Records.ReminderStatusOf` return a status value rather than its translated label text.

## Findings

| source | as written | input that shows it | evidently intended | confidence | as-written member | corrected member |
|---|---|---|---|---|---|---|
| App.tsx:1538-1545 | `confirmPaid` builds the payment date as `new Date(year, month - 1, dueDay)` and hands it to `markReminderAsPaid`, which records that date's month | at UTC or west of it, a reminder due on the 31st, marked paid while April 2024 is shown: the date rolls to 1 May, so "2024-05" is recorded, April stays unpaid and the expense is dated 31 May | record the month on show and date the expense on that month's due date, as the status column reckons it | not executed; follows from the code | `Records.ConfirmPaid` (`Records.ConfirmPaidSkipsShortMonth`) | `Records.ConfirmShownMonthPaid` (`Records.ConfirmShownMonthShowsPaid`, used by `AppState.Store.ConfirmReminderPaid`) |
