/**
 * Gregorian calendar arithmetic behind the two explicit date rules of the
 * sources: the last day of a month computed with `new Date(year, month, 0)`,
 * and the calendar month of a millisecond timestamp in UTC.
 */
module Calendar {
  predicate IsLeap(y: int) { y % 4 == 0 && (y % 100 != 0 || y % 400 == 0) }

  function DaysInYear(y: int): nat { if IsLeap(y) then 366 else 365 }

  function DaysInMonth(y: int, m: int): (d: nat)
    requires 1 <= m <= 12
    ensures 28 <= d <= 31
    ensures m == 2 ==> (d == 29 <==> IsLeap(y))
  {
    if m == 2 then (if IsLeap(y) then 29 else 28)
    else if m in {4, 6, 9, 11} then 30
    else 31
  }

  /** The year the `Date` constructor uses: two-digit years 0..99 stand
      for 1900..1999. */
  function DateConstructorYear(year: int): int {
    if 0 <= year <= 99 then 1900 + year else year
  }

  /** `new Date(year, month, 0).getDate()`: day 0 of zero-based month
      `month` is the last day of the month before it, with month overflow
      carried into the year. */
  function LastDayOfMonth(year: int, month: int): (d: nat)
    ensures 28 <= d <= 31
    ensures 1 <= month <= 12 && !(0 <= year <= 99) ==> d == DaysInMonth(year, month)
  {
    var y := DateConstructorYear(year);
    DaysInMonth(y + (month - 1) / 12, (month - 1) % 12 + 1)
  }

  const MsPerDay: int := 86400000
  const MsPerHour: int := 3600000

  /** Walks whole years from `y` until fewer than a year's days are left:
      the year containing day `doe` counted from January 1 of `y`, and the
      day within that year. */
  function YearWalk(doe: nat, y: int): (r: (int, nat))
    ensures r.0 >= y && r.1 < DaysInYear(r.0)
    decreases doe
  {
    if doe < DaysInYear(y) then (y, doe) else YearWalk(doe - DaysInYear(y), y + 1)
  }

  /** Walks whole months of year `y` from month `m`: the month containing
      day `doy` counted from the first of month `m`. */
  function MonthWalk(doy: nat, y: int, m: int): (r: int)
    requires 1 <= m <= 12
    ensures m <= r <= 12
    decreases 12 - m
  {
    if m == 12 || doy < DaysInMonth(y, m) then m else MonthWalk(doy - DaysInMonth(y, m), y, m + 1)
  }

  /** Walks whole years back from `y`: the year holding the day `k` days
      before January 1 of year `y + 1`, and the day within that year. */
  function YearWalkBack(k: nat, y: int): (r: (int, nat))
    requires k >= 1
    ensures r.0 <= y && r.1 < DaysInYear(r.0)
    decreases k
  {
    if k <= DaysInYear(y) then (y, DaysInYear(y) - k) else YearWalkBack(k - DaysInYear(y), y - 1)
  }

  /** Days of year `y` before the first of month `m`. */
  function DaysBefore(y: int, m: int): nat
    requires 1 <= m <= 13
    decreases m
  {
    if m == 1 then 0 else DaysBefore(y, m - 1) + DaysInMonth(y, m - 1)
  }

  /** All twelve months make up the year. */
  lemma {:induction false} DaysBeforeYearEnd(y: int, m: int)
    requires m == 13
    ensures DaysBefore(y, m) == DaysInYear(y)
  {
    assert DaysBefore(y, 3) == 31 + DaysInMonth(y, 2);
  }

  /** The month walk finds the month that holds the day: the day falls
      after the days of all earlier months and within the month itself. */
  lemma {:induction false} MonthWalkFindsMonth(doy: nat, y: int, m: int)
    requires 1 <= m <= 12
    requires DaysBefore(y, m) <= doy + DaysBefore(y, m) < DaysInYear(y)
    ensures var r := MonthWalk(doy, y, m);
      DaysBefore(y, r) <= doy + DaysBefore(y, m) < DaysBefore(y, r) + DaysInMonth(y, r)
    decreases 12 - m
  {
    assert DaysBefore(y, m + 1) == DaysBefore(y, m) + DaysInMonth(y, m);
    if m < 12 && doy >= DaysInMonth(y, m) {
      MonthWalkFindsMonth(doy - DaysInMonth(y, m), y, m + 1);
      assert MonthWalk(doy, y, m) == MonthWalk(doy - DaysInMonth(y, m), y, m + 1);
    } else {
      if m == 12 {
        DaysBeforeYearEnd(y, m + 1);
      }
      assert MonthWalk(doy, y, m) == m;
    }
  }

  /** The year, month and day of month (UTC) of a day counted from the
      epoch, by walking whole years from 1970 (forward or backward) and
      then whole months. */
  function UtcDate(day: int): (r: (int, int, int))
    ensures 1 <= r.1 <= 12 && 1 <= r.2 <= DaysInMonth(r.0, r.1)
  {
    var yd := if day >= 0 then YearWalk(day, 1970) else YearWalkBack(-day, 1969);
    var m := MonthWalk(yd.1, yd.0, 1);
    MonthWalkFindsMonth(yd.1, yd.0, 1);
    (yd.0, m, yd.1 - DaysBefore(yd.0, m) + 1)
  }

  /** The UTC calendar month (1..12) of a timestamp in milliseconds since
      the epoch, as `getUTCMonth() + 1` returns it. */
  function UtcMonth(ms: int): (m: int)
    ensures 1 <= m <= 12
  {
    UtcDate(ms / MsPerDay).1
  }

  /** The month of a timestamp in Korean Standard Time (UTC+9): the UTC
      month nine hours later. */
  function KstMonth(ms: int): (m: int)
    ensures 1 <= m <= 12
  {
    UtcMonth(ms + 9 * MsPerHour)
  }
}
