/**
 * The date range of a month that the invoice and collection list queries
 * filter on. The collection list writes "YYYY-MM-01" and "YYYY-MM-DD" text
 * directly, taking the last day from `new Date(year, month, 0)`; the
 * invoice list builds `Date` values at local midnight and keeps the date
 * part of `toISOString()`, which is the UTC date of that instant.
 */
module MonthRanges {
  import opened Text
  import opened Calendar

  /** A calendar date as the database's DATE columns hold it. */
  datatype Date = Date(year: int, month: int, day: int)

  predicate ValidDate(d: Date) { 1 <= d.month <= 12 && 1 <= d.day <= DaysInMonth(d.year, d.month) }

  /** Calendar order, the order `gte`/`lte` compare DATE values in. */
  predicate DateLe(a: Date, b: Date) {
    a.year < b.year || (a.year == b.year && (a.month < b.month || (a.month == b.month && a.day <= b.day)))
  }

  /** An inclusive `gte(start)` .. `lte(end)` filter. */
  datatype Range = Range(start: Date, end: Date)

  predicate InRange(d: Date, r: Range) { DateLe(r.start, d) && DateLe(d, r.end) }

  /** `String(n).padStart(2, '0')`. */
  function Pad2(s: string): (r: string)
    ensures |s| >= 2 ==> r == s
    ensures |s| < 2 ==> |r| == 2 && r[2 - |s|..] == s
  {
    if |s| >= 2 then s else if |s| == 1 then "0" + s else "00"
  }

  /** A two-digit field reads back as the number it renders. */
  lemma Pad2Value(n: nat)
    requires n < 100
    ensures |Pad2(NatToString(n))| == 2 && AllDigits(Pad2(NatToString(n)))
    ensures ValueOf(Pad2(NatToString(n))) == n
  {
    ValueOfNatToString(n);
    var s := NatToString(n);
    if n < 10 {
      assert Pad2(s) == ['0', DigitChar(n)];
      assert Pad2(s)[..1] == ['0'];
    } else {
      assert NatToString(n / 10) == [DigitChar(n / 10)];
      assert |s| == 2;
    }
  }

  /** `${year}-${MM}-${DD}` with month and day padded to two digits. */
  function DateText(d: Date): string {
    IntToString(d.year) + "-" + Pad2(IntToString(d.month)) + "-" + Pad2(IntToString(d.day))
  }

  /** The collection list's range: the first and the last day of the
      month, the last day from `new Date(year, month, 0).getDate()`. */
  function MonthRange(year: int, month: int): (r: Range)
    ensures r.start == Date(year, month, 1) && r.end.year == year && r.end.month == month
    ensures 1 <= month <= 12 && !(0 <= year <= 99) ==> r.end.day == DaysInMonth(year, month)
  {
    Range(Date(year, month, 1), Date(year, month, LastDayOfMonth(year, month)))
  }

  /** The two strings the collection list passes to `gte` and `lte`. */
  function MonthRangeText(year: int, month: int): (r: (string, string))
    ensures r.0 == DateText(MonthRange(year, month).start)
    ensures r.1 == DateText(MonthRange(year, month).end)
  {
    var start := IntToString(year) + "-" + Pad2(IntToString(month)) + "-01";
    var end := IntToString(year) + "-" + Pad2(IntToString(month)) + "-" + Pad2(IntToString(LastDayOfMonth(year, month)));
    assert Pad2(IntToString(1)) == "01";
    (start, end)
  }

  /** For a month 1..12 of a four-digit year, a valid date lies in the
      range exactly when it lies in that month. */
  lemma MonthRangeIsMonth(year: int, month: int, d: Date)
    requires 1 <= month <= 12 && !(0 <= year <= 99) && ValidDate(d)
    ensures InRange(d, MonthRange(year, month)) <==> d.year == year && d.month == month
  {
  }

  // ---------------------------------------------------------------------
  // The invoice list's range, built from local-midnight `Date` values

  /** The day before a valid date. */
  function PreviousDay(d: Date): (r: Date)
    requires ValidDate(d)
    ensures ValidDate(r) && DateLe(r, d) && r != d
    ensures forall x :: ValidDate(x) && DateLe(x, d) && x != d ==> DateLe(x, r)
  {
    if d.day > 1 then Date(d.year, d.month, d.day - 1)
    else if d.month > 1 then Date(d.year, d.month - 1, DaysInMonth(d.year, d.month - 1))
    else Date(d.year - 1, 12, 31)
  }

  /** The day after a valid date. */
  function NextDay(d: Date): (r: Date)
    requires ValidDate(d)
    ensures ValidDate(r) && DateLe(d, r) && r != d
    ensures forall x :: ValidDate(x) && DateLe(d, x) && x != d ==> DateLe(r, x)
  {
    if d.day < DaysInMonth(d.year, d.month) then Date(d.year, d.month, d.day + 1)
    else if d.month < 12 then Date(d.year, d.month + 1, 1)
    else Date(d.year + 1, 1, 1)
  }

  const SecondsPerDay: int := 86400

  /** The date part of `toISOString()` for second `second` of local day `d`
      on a server whose zone is `offsetMinutes` ahead of UTC: the UTC date
      of that instant, a day earlier or later when the offset carries it
      past midnight. */
  function UtcDateAt(d: Date, second: int, offsetMinutes: int): (r: Date)
    requires ValidDate(d) && 0 <= second < SecondsPerDay && -24 * 60 < offsetMinutes < 24 * 60
    ensures ValidDate(r)
    ensures offsetMinutes == 0 ==> r == d
    ensures second < offsetMinutes * 60 ==> r == PreviousDay(d)
    ensures second - offsetMinutes * 60 >= SecondsPerDay ==> r == NextDay(d)
  {
    var utc := second - offsetMinutes * 60;
    if utc < 0 then PreviousDay(d) else if utc >= SecondsPerDay then NextDay(d) else d
  }

  /** `new Date(year, month - 1, 1)` and `new Date(year, month, 0)`: the
      first and the last day of the month, with the constructor's two-digit
      years and its month carry. */
  function LocalMonthRange(year: int, month: int): (r: Range)
    ensures ValidDate(r.start) && ValidDate(r.end)
    ensures 1 <= month <= 12 && !(0 <= year <= 99) ==> r == MonthRange(year, month)
  {
    var y := DateConstructorYear(year) + (month - 1) / 12;
    var m := (month - 1) % 12 + 1;
    Range(Date(y, m, 1), Date(y, m, LastDayOfMonth(year, month)))
  }

  /** The invoice list's range as written: local midnight of the first
      and of the last day, each through `toISOString()`. */
  function InvoiceRangeAsWritten(year: int, month: int, offsetMinutes: int): (r: Range)
    requires -24 * 60 < offsetMinutes < 24 * 60
    ensures offsetMinutes == 0 ==> r == LocalMonthRange(year, month)
  {
    var local := LocalMonthRange(year, month);
    Range(UtcDateAt(local.start, 0, offsetMinutes), UtcDateAt(local.end, 0, offsetMinutes))
  }

  /** The sales activity list's range as written: local midnight of the
      first day and 23:59:59 of the last day, each through `toISOString()`. */
  function ActivityRangeAsWritten(year: int, month: int, offsetMinutes: int): (r: Range)
    requires -24 * 60 < offsetMinutes < 24 * 60
    ensures offsetMinutes == 0 ==> r == LocalMonthRange(year, month)
  {
    var local := LocalMonthRange(year, month);
    Range(UtcDateAt(local.start, 0, offsetMinutes), UtcDateAt(local.end, SecondsPerDay - 1, offsetMinutes))
  }

  /** East of UTC (Korean Standard Time is 540 minutes ahead) the invoice
      range starts on the last day of the previous month and leaves out
      the last day of the month itself. */
  lemma InvoiceRangeShiftedEastOfUtc(year: int, month: int, offsetMinutes: int)
    requires 1 <= month <= 12 && !(0 <= year <= 99) && 0 < offsetMinutes < 24 * 60
    ensures var r := InvoiceRangeAsWritten(year, month, offsetMinutes);
      !InRange(Date(year, month, DaysInMonth(year, month)), r) && InRange(PreviousDay(Date(year, month, 1)), r)
  {
  }

  /** In Seoul the March 2024 invoice list covers 2024-02-29 through
      2024-03-30, and the sales activity list 2024-02-29 through 2024-03-31. */
  lemma RangesMarch2024Seoul()
    ensures InvoiceRangeAsWritten(2024, 3, 540) == Range(Date(2024, 2, 29), Date(2024, 3, 30))
    ensures !InRange(Date(2024, 3, 31), InvoiceRangeAsWritten(2024, 3, 540))
    ensures ActivityRangeAsWritten(2024, 3, 540) == Range(Date(2024, 2, 29), Date(2024, 3, 31))
    ensures InRange(Date(2024, 2, 29), ActivityRangeAsWritten(2024, 3, 540))
  {
  }

  /** East of UTC the sales activity range also holds the last day of the
      previous month; west of UTC it holds the first day of the next one. */
  lemma ActivityRangeShifted(year: int, month: int, offsetMinutes: int)
    requires 1 <= month <= 12 && !(0 <= year <= 99) && -24 * 60 < offsetMinutes < 24 * 60
    ensures var r := ActivityRangeAsWritten(year, month, offsetMinutes);
      offsetMinutes > 0 ==> InRange(PreviousDay(Date(year, month, 1)), r)
    ensures var r := ActivityRangeAsWritten(year, month, offsetMinutes);
      offsetMinutes < 0 ==> InRange(NextDay(Date(year, month, DaysInMonth(year, month))), r)
  {
  }
}
