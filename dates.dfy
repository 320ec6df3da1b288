/** Calendar dates as the app's JavaScript `Date` values hold them: a local calendar
    day (year, month 1..12, day of month).  The JavaScript setters `setMonth`,
    `setDate` and the constructor `new Date(y, m, d)` do not clamp an out-of-range
    day: the surplus days carry into the following month.  `Roll` models exactly
    that normalisation, and `DayNumber` (days since 1 January of year 0) is the
    independent reference it is proved against. */
module Dates {
  import opened Wrappers

  datatype Date = Date(year: int, month: int, day: int)

  predicate IsLeapYear(y: int) {
    y % 4 == 0 && (y % 100 != 0 || y % 400 == 0)
  }

  function DaysInMonth(y: int, m: int): (n: int)
    ensures 28 <= n <= 31
  {
    if m == 2 then (if IsLeapYear(y) then 29 else 28)
    else if m == 4 || m == 6 || m == 9 || m == 11 then 30
    else 31
  }

  function YearLength(y: int): int {
    if IsLeapYear(y) then 366 else 365
  }

  /** A real calendar day. */
  predicate WellFormed(d: Date) {
    1 <= d.month <= 12 && 1 <= d.day <= DaysInMonth(d.year, d.month)
  }

  /** A calendar day whose year prints in four digits, as `YYYY-MM-DD` requires. */
  predicate Valid(d: Date) {
    WellFormed(d) && 0 <= d.year <= 9999
  }

  // ---------------------------------------------------------------------------
  // Day numbers: the reference for the JavaScript normalisation
  // ---------------------------------------------------------------------------

  /** Days in the years 0 .. y-1: 365 each, plus one per leap year among them. */
  function DaysBeforeYear(y: nat): nat {
    365 * y + (y + 3) / 4 - (y + 99) / 100 + (y + 399) / 400
  }

  lemma DaysBeforeNextYear(y: nat)
    ensures DaysBeforeYear(y + 1) == DaysBeforeYear(y) + YearLength(y)
  {
    StepFour(y);
    StepHundred(y);
    StepFourHundred(y);
    LeapCount(y);
  }

  /** The leap-year rule as the count of multiples of 4, 100 and 400 sees it. */
  lemma LeapCount(y: nat)
    ensures (if y % 4 == 0 then 1 else 0) - (if y % 100 == 0 then 1 else 0) + (if y % 400 == 0 then 1 else 0)
         == YearLength(y) - 365
  {
    if y % 100 == 0 {
      MultipleOf100(y);
    }
    if y % 400 == 0 {
      MultipleOf400(y);
    }
  }

  lemma MultipleOf100(y: nat)
    requires y % 100 == 0
    ensures y % 4 == 0
  {
    var q := y / 100;
    assert y == 100 * q;
    var k := 25 * q;
    assert y == 4 * k;
    assert y / 4 == k;
  }

  lemma MultipleOf400(y: nat)
    requires y % 400 == 0
    ensures y % 100 == 0
  {
    var q := y / 400;
    assert y == 400 * q;
    var k := 4 * q;
    assert y == 100 * k;
    assert y / 100 == k;
  }

  lemma StepFour(y: nat)
    ensures (y + 4) / 4 == (y + 3) / 4 + (if y % 4 == 0 then 1 else 0)
  {
    assert y == y / 4 * 4 + y % 4;
  }

  lemma StepHundred(y: nat)
    ensures (y + 100) / 100 == (y + 99) / 100 + (if y % 100 == 0 then 1 else 0)
  {
    assert y == y / 100 * 100 + y % 100;
  }

  lemma StepFourHundred(y: nat)
    ensures (y + 400) / 400 == (y + 399) / 400 + (if y % 400 == 0 then 1 else 0)
  {
    assert y == y / 400 * 400 + y % 400;
  }

  function DaysBeforeMonth(y: int, m: int): nat
    requires 1 <= m <= 13
  {
    if m == 1 then 0 else DaysBeforeMonth(y, m - 1) + DaysInMonth(y, m - 1)
  }

  /** Days elapsed from 1 January of year 0 to `d`. */
  function DayNumber(d: Date): int
    requires d.year >= 0 && 1 <= d.month <= 12
  {
    DaysBeforeYear(d.year) + DaysBeforeMonth(d.year, d.month) + d.day - 1
  }

  lemma DaysBeforeMonthYear(y: int)
    ensures DaysBeforeMonth(y, 13) == YearLength(y)
  {
    assert DaysBeforeMonth(y, 2) == 31;
    assert DaysBeforeMonth(y, 3) == 31 + DaysInMonth(y, 2);
    assert DaysBeforeMonth(y, 4) == 62 + DaysInMonth(y, 2);
    assert DaysBeforeMonth(y, 5) == 92 + DaysInMonth(y, 2);
    assert DaysBeforeMonth(y, 6) == 123 + DaysInMonth(y, 2);
    assert DaysBeforeMonth(y, 7) == 153 + DaysInMonth(y, 2);
    assert DaysBeforeMonth(y, 8) == 184 + DaysInMonth(y, 2);
    assert DaysBeforeMonth(y, 9) == 215 + DaysInMonth(y, 2);
    assert DaysBeforeMonth(y, 10) == 245 + DaysInMonth(y, 2);
    assert DaysBeforeMonth(y, 11) == 276 + DaysInMonth(y, 2);
    assert DaysBeforeMonth(y, 12) == 306 + DaysInMonth(y, 2);
  }

  // ---------------------------------------------------------------------------
  // Ordering: the comparison of two `Date` values (`getTime()` order)
  // ---------------------------------------------------------------------------

  /** Months elapsed since January of year 0. */
  function MonthIndex(d: Date): int {
    d.year * 12 + d.month - 1
  }

  /** A number that orders well-formed dates as the calendar does. */
  function Key(d: Date): int {
    MonthIndex(d) * 32 + d.day
  }

  predicate Before(a: Date, b: Date) {
    Key(a) < Key(b)
  }

  predicate NotAfter(a: Date, b: Date) {
    Key(a) <= Key(b)
  }

  /** The first day of the month with the given month index. */
  function MonthStart(i: int): (r: Date)
    ensures WellFormed(r) && r.day == 1 && MonthIndex(r) == i
  {
    Date(i / 12, i % 12 + 1, 1)
  }

  lemma MonthStartOf(d: Date)
    requires 1 <= d.month <= 12
    ensures MonthStart(MonthIndex(d)) == Date(d.year, d.month, 1)
  {
    var i := MonthIndex(d);
    assert i == d.year * 12 + (d.month - 1);
    assert i / 12 == d.year;
  }

  /** Well-formed dates with the same key are the same date. */
  lemma {:induction false} KeyInjective(a: Date, b: Date)
    requires WellFormed(a) && WellFormed(b) && Key(a) == Key(b)
    ensures a == b
  {
    MonthIndexOrder(a, b);
    MonthIndexOrder(b, a);
    assert MonthIndex(a) == MonthIndex(b);
    assert a.day == b.day;
    assert a.year * 12 <= MonthIndex(a) <= a.year * 12 + 11;
    assert b.year * 12 <= MonthIndex(b) <= b.year * 12 + 11;
  }

  /** The key orders first by month, then by day. */
  lemma MonthIndexOrder(a: Date, b: Date)
    requires WellFormed(a) && WellFormed(b)
    ensures Key(a) <= Key(b) ==> MonthIndex(a) <= MonthIndex(b)
    ensures MonthIndex(a) < MonthIndex(b) ==> Key(a) < Key(b)
  {
    if MonthIndex(b) < MonthIndex(a) {
      assert Key(b) <= MonthIndex(b) * 32 + 31 < (MonthIndex(b) + 1) * 32 <= MonthIndex(a) * 32 < Key(a);
    }
    if MonthIndex(a) < MonthIndex(b) {
      assert Key(a) <= MonthIndex(a) * 32 + 31 < (MonthIndex(a) + 1) * 32 <= MonthIndex(b) * 32 < Key(b);
    }
  }

  /** A well-formed date between two four-digit-year dates has a four-digit year. */
  lemma ValidBetween(lo: Date, x: Date, hi: Date)
    requires Valid(lo) && WellFormed(x) && Valid(hi)
    requires NotAfter(lo, x) && NotAfter(x, hi)
    ensures Valid(x)
  {
    MonthIndexOrder(lo, x);
    MonthIndexOrder(x, hi);
    assert x.year * 12 <= MonthIndex(x) <= x.year * 12 + 11;
    assert lo.year * 12 <= MonthIndex(lo) && MonthIndex(hi) <= hi.year * 12 + 11;
  }

  // ---------------------------------------------------------------------------
  // JavaScript normalisation
  // ---------------------------------------------------------------------------

  /** `new Date(y, m - 1, d)` for a day that overshoots month `m` by less than a
      month: the day `d - 1` days after the first of month `m`. */
  function Roll(y: int, m: int, d: int): (r: Date)
    requires 1 <= m <= 12 && 1 <= d <= 32
    ensures WellFormed(r)
    ensures var i := y * 12 + m - 1; MonthIndex(r) == i || MonthIndex(r) == i + 1
    ensures r.day <= d
    ensures r.day == d <==> MonthIndex(r) == y * 12 + m - 1
  {
    var n := DaysInMonth(y, m);
    if d <= n then Date(y, m, d)
    else if m < 12 then Date(y, m + 1, d - n)
    else Date(y + 1, 1, d - n)
  }

  /** `Roll` against the day count: the result is `d - 1` days after the first of
      month `m`. */
  lemma RollDayNumber(y: int, m: int, d: int)
    requires 1 <= m <= 12 && 1 <= d <= 32 && y >= 0
    ensures Roll(y, m, d).year >= 0
    ensures DayNumber(Roll(y, m, d)) == DayNumber(Date(y, m, 1)) + d - 1
  {
    if d > DaysInMonth(y, m) && m == 12 {
      DaysBeforeMonthYear(y);
      DaysBeforeNextYear(y);
    }
  }

  /** `d.setMonth(d.getMonth() + n)`: move `n` months, keep the day of month, and
      let a day the target month lacks carry into the month after it. */
  function AddMonths(d: Date, n: int): (r: Date)
    requires WellFormed(d)
    ensures WellFormed(r)
    ensures MonthIndex(r) == MonthIndex(d) + n || MonthIndex(r) == MonthIndex(d) + n + 1
    ensures r.day <= d.day
    ensures r.day == d.day <==> MonthIndex(r) == MonthIndex(d) + n
  {
    var idx := d.month - 1 + n;
    var y := d.year + idx / 12;
    var m := idx % 12 + 1;
    MonthStartOf(Date(y, m, 1));
    Roll(y, m, d.day)
  }

  /** `AddMonths` against the day count: the day of month counted from the first
      of the target month. */
  lemma AddMonthsDayNumber(d: Date, n: int)
    requires WellFormed(d) && MonthStart(MonthIndex(d) + n).year >= 0
    ensures AddMonths(d, n).year >= 0
    ensures DayNumber(AddMonths(d, n)) == DayNumber(MonthStart(MonthIndex(d) + n)) + d.day - 1
  {
    var idx := d.month - 1 + n;
    var y, m := d.year + idx / 12, idx % 12 + 1;
    AddMonthsIsRoll(d, n);
    assert MonthStart(MonthIndex(d) + n) == Date(y, m, 1);
    assert AddMonths(d, n) == Roll(y, m, d.day);
    RollDayNumber(y, m, d.day);
  }

  lemma AddMonthsIsRoll(d: Date, n: int)
    requires WellFormed(d)
    ensures var idx := d.month - 1 + n;
      && AddMonths(d, n) == Roll(d.year + idx / 12, idx % 12 + 1, d.day)
      && MonthStart(MonthIndex(d) + n) == Date(d.year + idx / 12, idx % 12 + 1, 1)
  {
    var idx := d.month - 1 + n;
    MonthShift(d, n, d.year + idx / 12, idx % 12 + 1);
  }

  lemma MonthShift(d: Date, n: int, y: int, m: int)
    requires 1 <= d.month <= 12
    requires y == d.year + (d.month - 1 + n) / 12 && m == (d.month - 1 + n) % 12 + 1
    ensures MonthStart(MonthIndex(d) + n) == Date(y, m, 1)
  {
    var idx := d.month - 1 + n;
    assert idx == idx / 12 * 12 + idx % 12;
    assert MonthIndex(Date(y, m, 1)) == MonthIndex(d) + n;
    MonthStartOf(Date(y, m, 1));
  }

  /** One step of the recurring schedule: `d.setMonth(d.getMonth() + 1)`. */
  function AddMonth(d: Date): (r: Date)
    requires WellFormed(d)
    ensures WellFormed(r)
    ensures Before(d, r)
    ensures MonthIndex(d) < MonthIndex(r)
    ensures r.day <= d.day
  {
    var r := AddMonths(d, 1);
    MonthIndexOrder(d, r);
    r
  }

  /** `d.setDate(k)` (and `new Date(d.year, d.month - 1, k)`) for a day `k` in 1..31. */
  function SetDay(d: Date, k: int): (r: Date)
    requires 1 <= d.month <= 12 && 1 <= k <= 31
    ensures WellFormed(r)
    ensures MonthIndex(r) == MonthIndex(d) || MonthIndex(r) == MonthIndex(d) + 1
    ensures r.day <= k
    ensures r.day == k <==> MonthIndex(r) == MonthIndex(d)
  {
    Roll(d.year, d.month, k)
  }

  /** `SetDay` against the day count: `k - 1` days after the first of the month. */
  lemma SetDayDayNumber(d: Date, k: int)
    requires 1 <= d.month <= 12 && 1 <= k <= 31 && d.year >= 0
    ensures SetDay(d, k).year >= 0
    ensures DayNumber(SetDay(d, k)) == DayNumber(Date(d.year, d.month, 1)) + k - 1
  {
    RollDayNumber(d.year, d.month, k);
  }

  /** `d.setDate(d.getDate() + 1)`: the next calendar day. */
  function NextDay(d: Date): (r: Date)
    requires WellFormed(d)
    ensures WellFormed(r)
    ensures Before(d, r)
  {
    var r := Roll(d.year, d.month, d.day + 1);
    if r.day == d.day + 1 then r
    else
      MonthIndexOrder(d, r);
      r
  }

  /** `NextDay` against the day count: exactly one day later. */
  lemma NextDayDayNumber(d: Date)
    requires WellFormed(d) && d.year >= 0
    ensures NextDay(d).year >= 0
    ensures DayNumber(NextDay(d)) == DayNumber(d) + 1
  {
    RollDayNumber(d.year, d.month, d.day + 1);
  }

  /** No calendar day lies strictly between a day and the next one. */
  lemma NoDayBetween(d: Date, x: Date)
    requires WellFormed(d) && WellFormed(x) && Before(d, x)
    ensures NotAfter(NextDay(d), x)
  {
    MonthIndexOrder(d, x);
    if d.day + 1 > DaysInMonth(d.year, d.month) {
      var n := NextDay(d);
      assert n.day == 1 && MonthIndex(n) == MonthIndex(d) + 1;
      assert MonthIndex(x) != MonthIndex(d);
    }
  }

  /** Setting a day no earlier than the current one never moves a date backwards. */
  lemma SetDayNotEarlier(d: Date, k: int)
    requires WellFormed(d) && d.day <= k <= 31
    ensures NotAfter(d, SetDay(d, k))
  {
    var r := SetDay(d, k);
    MonthIndexOrder(d, r);
  }

  /** The JavaScript behaviour the recurring schedule inherits: one month after
      31 January 2024 is 2 March 2024, not the last day of February. */
  lemma AddMonthOverflowExample()
    ensures AddMonth(Date(2024, 1, 31)) == Date(2024, 3, 2)
    ensures AddMonth(Date(2023, 1, 31)) == Date(2023, 3, 3)
    ensures SetDay(Date(2024, 4, 2), 31) == Date(2024, 5, 1)
  {
    AddMonthCarries(Date(2024, 1, 31), Date(2024, 3, 2));
    AddMonthCarries(Date(2023, 1, 31), Date(2023, 3, 3));
    SetDayCarries(Date(2024, 4, 2), 31, Date(2024, 5, 1));
  }

  /** Within a year, a month later keeps the day of month when the next month has it. */
  lemma AddMonthKeepsDay(d: Date, r: Date)
    requires WellFormed(d) && d.month < 12 && d.day <= DaysInMonth(d.year, d.month + 1)
    requires r == Date(d.year, d.month + 1, d.day)
    ensures AddMonth(d) == r
  {
  }

  /** Within a year, a day that the next month lacks carries into the month after it. */
  lemma AddMonthCarries(d: Date, r: Date)
    requires WellFormed(d) && d.month < 11 && d.day > DaysInMonth(d.year, d.month + 1)
    requires r == Date(d.year, d.month + 2, d.day - DaysInMonth(d.year, d.month + 1))
    ensures AddMonth(d) == r
  {
  }

  /** Within a year, setting a day past the end of the month carries into the next. */
  lemma SetDayCarries(d: Date, k: int, r: Date)
    requires 1 <= d.month < 12 && DaysInMonth(d.year, d.month) < k <= 31
    requires r == Date(d.year, d.month + 1, k - DaysInMonth(d.year, d.month))
    ensures SetDay(d, k) == r
  {
  }

  // ---------------------------------------------------------------------------
  // ISO text: `YYYY-MM-DD` and `YYYY-MM`
  // ---------------------------------------------------------------------------

  predicate IsDigit(c: char) {
    '0' <= c <= '9'
  }

  function DigitChar(n: int): (c: char)
    requires 0 <= n <= 9
    ensures IsDigit(c)
  {
    ('0' as int + n) as char
  }

  function DigitValue(c: char): int {
    c as int - '0' as int
  }

  function Pad2(n: int): (s: string)
    requires 0 <= n <= 99
    ensures |s| == 2 && IsDigit(s[0]) && IsDigit(s[1])
  {
    [DigitChar(n / 10), DigitChar(n % 10)]
  }

  function Pad4(n: int): (s: string)
    requires 0 <= n <= 9999
    ensures |s| == 4 && forall i :: 0 <= i < 4 ==> IsDigit(s[i])
  {
    Pad2(n / 100) + Pad2(n % 100)
  }

  function Parse2(s: string): int
    requires |s| == 2
  {
    DigitValue(s[0]) * 10 + DigitValue(s[1])
  }

  function Parse4(s: string): int
    requires |s| == 4
  {
    Parse2(s[..2]) * 100 + Parse2(s[2..])
  }

  lemma Pad2RoundTrip(n: int)
    requires 0 <= n <= 99
    ensures Parse2(Pad2(n)) == n
  {
  }

  lemma Parse2RoundTrip(s: string)
    requires |s| == 2 && IsDigit(s[0]) && IsDigit(s[1])
    ensures 0 <= Parse2(s) <= 99 && Pad2(Parse2(s)) == s
  {
    var n := Parse2(s);
    assert n / 10 == DigitValue(s[0]) && n % 10 == DigitValue(s[1]);
  }

  lemma Pad4RoundTrip(n: int)
    requires 0 <= n <= 9999
    ensures Parse4(Pad4(n)) == n
  {
    var s := Pad4(n);
    assert s[..2] == Pad2(n / 100) && s[2..] == Pad2(n % 100);
    Pad2RoundTrip(n / 100);
    Pad2RoundTrip(n % 100);
  }

  lemma Parse4RoundTrip(s: string)
    requires |s| == 4 && forall i :: 0 <= i < 4 ==> IsDigit(s[i])
    ensures 0 <= Parse4(s) <= 9999 && Pad4(Parse4(s)) == s
  {
    var hi, lo := s[..2], s[2..];
    assert IsDigit(hi[0]) && IsDigit(hi[1]) && IsDigit(lo[0]) && IsDigit(lo[1]);
    Parse2RoundTrip(hi);
    Parse2RoundTrip(lo);
    var n := Parse4(s);
    assert n / 100 == Parse2(hi) && n % 100 == Parse2(lo);
    assert s == hi + lo;
  }

  /** `YYYY-MM`, the text `toISOString().slice(0, 7)` gives and `paidMonths` holds. */
  function IsoMonth(y: int, m: int): (s: string)
    requires 0 <= y <= 9999 && 1 <= m <= 12
    ensures |s| == 7 && s[4] == '-'
  {
    Pad4(y) + "-" + Pad2(m)
  }

  /** `YYYY-MM-DD`, the text form of every record date. */
  function IsoDay(d: Date): (s: string)
    requires Valid(d)
    ensures |s| == 10 && s[4] == '-' && s[7] == '-'
    ensures s[..7] == IsoMonth(d.year, d.month) && s[..4] == Pad4(d.year)
  {
    IsoMonth(d.year, d.month) + "-" + Pad2(d.day)
  }

  /** A text of the shape `YYYY-MM-DD` with digits where the shape asks for them. */
  predicate IsIsoDayShape(s: string) {
    |s| == 10 && s[4] == '-' && s[7] == '-' &&
    forall i :: 0 <= i < 10 && i != 4 && i != 7 ==> IsDigit(s[i])
  }

  /** Reads a `YYYY-MM-DD` text back as a date; `None` for any other text or for a
      day the calendar does not have. */
  function ParseIsoDay(s: string): (r: Option<Date>)
    ensures r.Some? ==> Valid(r.value)
  {
    if !IsIsoDayShape(s) then None
    else
      assert forall i :: 0 <= i < 4 ==> IsDigit(s[..4][i]);
      Parse4RoundTrip(s[..4]);
      var d := Date(Parse4(s[..4]), Parse2(s[5..7]), Parse2(s[8..10]));
      if WellFormed(d) then Some(d) else None
  }

  lemma IsoDayShape(d: Date)
    requires Valid(d)
    ensures IsIsoDayShape(IsoDay(d))
  {
    var s := IsoDay(d);
    var y, m, dd := Pad4(d.year), Pad2(d.month), Pad2(d.day);
    assert s == y + "-" + m + "-" + dd;
    forall i | 0 <= i < 10 && i != 4 && i != 7 ensures IsDigit(s[i]) {
      if i < 4 { assert s[i] == y[i]; }
      else if i < 7 { assert s[i] == m[i - 5]; }
      else { assert s[i] == dd[i - 8]; }
    }
  }

  /** Printing a date and reading it back gives the date. */
  lemma {:induction false} IsoDayRoundTrip(d: Date)
    requires Valid(d)
    ensures ParseIsoDay(IsoDay(d)) == Some(d)
  {
    var s := IsoDay(d);
    IsoDayShape(d);
    assert s == Pad4(d.year) + "-" + Pad2(d.month) + "-" + Pad2(d.day);
    assert s[..4] == Pad4(d.year);
    assert s[5..7] == Pad2(d.month);
    assert s[8..10] == Pad2(d.day);
    Pad4RoundTrip(d.year);
    Pad2RoundTrip(d.month);
    Pad2RoundTrip(d.day);
  }

  /** Every text that reads as a date is exactly that date's `YYYY-MM-DD` form. */
  lemma {:induction false} ParseIsoDayExact(s: string)
    requires ParseIsoDay(s).Some?
    ensures IsoDay(ParseIsoDay(s).value) == s
  {
    var d := ParseIsoDay(s).value;
    var ys, ms, ds := s[..4], s[5..7], s[8..10];
    assert forall i :: 0 <= i < 4 ==> IsDigit(ys[i]);
    assert IsDigit(ms[0]) && IsDigit(ms[1]) && IsDigit(ds[0]) && IsDigit(ds[1]);
    Parse4RoundTrip(ys);
    Parse2RoundTrip(ms);
    Parse2RoundTrip(ds);
    assert s == ys + "-" + ms + "-" + ds;
  }

  /** Distinct dates print differently. */
  lemma IsoDayInjective(a: Date, b: Date)
    requires Valid(a) && Valid(b) && IsoDay(a) == IsoDay(b)
    ensures a == b
  {
    IsoDayRoundTrip(a);
    IsoDayRoundTrip(b);
  }

  lemma IsoMonthInjective(y1: int, m1: int, y2: int, m2: int)
    requires 0 <= y1 <= 9999 && 1 <= m1 <= 12 && 0 <= y2 <= 9999 && 1 <= m2 <= 12
    requires IsoMonth(y1, m1) == IsoMonth(y2, m2)
    ensures y1 == y2 && m1 == m2
  {
    var s1, s2 := IsoMonth(y1, m1), IsoMonth(y2, m2);
    assert s1[..4] == Pad4(y1) && s2[..4] == Pad4(y2);
    assert s1[5..] == Pad2(m1) && s2[5..] == Pad2(m2);
    Pad4RoundTrip(y1);
    Pad4RoundTrip(y2);
    Pad2RoundTrip(m1);
    Pad2RoundTrip(m2);
  }

  /** A `YYYY-MM` filter value selects exactly the days of that month. */
  lemma MonthPrefix(y: int, m: int, d: Date)
    requires 0 <= y <= 9999 && 1 <= m <= 12 && Valid(d)
    ensures IsoMonth(y, m) <= IsoDay(d) <==> d.year == y && d.month == m
  {
    var s := IsoDay(d);
    if IsoMonth(y, m) <= s {
      assert s[..7] == IsoMonth(y, m);
      IsoMonthInjective(y, m, d.year, d.month);
    }
  }

  /** A `YYYY` filter value selects exactly the days of that year. */
  lemma YearPrefix(y: int, d: Date)
    requires 0 <= y <= 9999 && Valid(d)
    ensures Pad4(y) <= IsoDay(d) <==> d.year == y
  {
    var s := IsoDay(d);
    if Pad4(y) <= s {
      assert s[..4] == Pad4(y);
      Pad4RoundTrip(y);
      Pad4RoundTrip(d.year);
    }
  }

  /** A `YYYY-MM-DD` filter value selects exactly that day. */
  lemma DayPrefix(e: Date, d: Date)
    requires Valid(e) && Valid(d)
    ensures IsoDay(e) <= IsoDay(d) <==> d == e
  {
    if IsoDay(e) <= IsoDay(d) {
      assert IsoDay(d)[..10] == IsoDay(d);
      IsoDayInjective(e, d);
    }
  }
}
