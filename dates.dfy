/** Civil calendar days as a JavaScript `Date` reports them at midnight local time:
    `getFullYear`, `getMonth` (0 = January .. 11 = December), `getDate` (1 .. 31) and
    `getDay` (0 = Sunday .. 6 = Saturday), on the proleptic Gregorian calendar.
    `MakeDate` is the day arithmetic of `new Date(year, month, day)`, `setDate` and
    `setMonth`: the roll-over of out-of-range months and days. The constructor's reading of
    the years 0 to 99 as 1900 to 1999 is not part of it. */
module Dates {

  datatype Date = Date(year: int, month: int, day: int)

  predicate IsLeapYear(y: int) {
    y % 4 == 0 && (y % 100 != 0 || y % 400 == 0)
  }

  function DaysInYear(y: int): int {
    if IsLeapYear(y) then 366 else 365
  }

  function DaysInMonth(y: int, m: int): (n: int)
    requires 0 <= m < 12
    ensures 28 <= n <= 31
  {
    if m == 1 then (if IsLeapYear(y) then 29 else 28)
    else if m == 3 || m == 5 || m == 8 || m == 10 then 30
    else 31
  }

  /** A date that some JavaScript `Date` can report. */
  predicate IsValidDate(d: Date) {
    0 <= d.month < 12 && 1 <= d.day <= DaysInMonth(d.year, d.month)
  }

  /** Days of year `y` that come before the first of month `m`. */
  function DaysBeforeMonth(y: int, m: int): int
    requires 0 <= m < 12
  {
    var common :=
      if m == 0 then 0 else if m == 1 then 31 else if m == 2 then 59
      else if m == 3 then 90 else if m == 4 then 120 else if m == 5 then 151
      else if m == 6 then 181 else if m == 7 then 212 else if m == 8 then 243
      else if m == 9 then 273 else if m == 10 then 304 else 334;
    if m >= 2 && IsLeapYear(y) then common + 1 else common
  }

  /** Days from 1 January of year 0 to 1 January of year `y` (negative before year 0). */
  function DaysBeforeYear(y: int): int {
    365 * y + (y + 3) / 4 - (y + 99) / 100 + (y + 399) / 400
  }

  /** The number of the day counted from 1 January of year 0, which is day 0 and a Saturday. */
  function DayNumber(d: Date): int
    requires 0 <= d.month < 12
  {
    DaysBeforeYear(d.year) + DaysBeforeMonth(d.year, d.month) + d.day - 1
  }

  /** `getDay`: 0 = Sunday .. 6 = Saturday. */
  function Weekday(d: Date): (w: int)
    requires 0 <= d.month < 12
    ensures 0 <= w < 7
  {
    (DayNumber(d) + 6) % 7
  }

  function MonthBefore(y: int, m: int): (r: (int, int))
    requires 0 <= m < 12
    ensures 0 <= r.1 < 12
  {
    if m == 0 then (y - 1, 11) else (y, m - 1)
  }

  function MonthAfter(y: int, m: int): (r: (int, int))
    requires 0 <= m < 12
    ensures 0 <= r.1 < 12
  {
    if m == 11 then (y + 1, 0) else (y, m + 1)
  }

  /** The calendar day after `d`. */
  function NextDay(d: Date): (r: Date)
    requires IsValidDate(d)
    ensures IsValidDate(r)
  {
    if d.day < DaysInMonth(d.year, d.month) then Date(d.year, d.month, d.day + 1)
    else
      var (ny, nm) := MonthAfter(d.year, d.month);
      Date(ny, nm, 1)
  }

  /** Day `d` of month `m` of year `y`, where `d` may lie before the first or after the
      last day of the month, and then counts on into the neighbouring months. */
  function Normalize(y: int, m: int, d: int): (r: Date)
    requires 0 <= m < 12
    ensures IsValidDate(r)
    decreases if d < 1 then 100 - d else d
  {
    if d < 1 then
      var (py, pm) := MonthBefore(y, m);
      Normalize(py, pm, d + DaysInMonth(py, pm))
    else if d > DaysInMonth(y, m) then
      var (ny, nm) := MonthAfter(y, m);
      Normalize(ny, nm, d - DaysInMonth(y, m))
    else
      Date(y, m, d)
  }

  /** The date that `new Date(year, month, day)` (for a year outside 0 to 99), `setDate` and
      `setMonth` produce: the month rolls over into the years around `year` (month -1 is
      December of the year before), then the day into the months around it. */
  function MakeDate(year: int, month: int, day: int): (r: Date)
    ensures IsValidDate(r)
  {
    Normalize(year + month / 12, month % 12, day)
  }

  // ---------------------------------------------------------------------------
  // Arithmetic of the day count

  lemma YearStep(y: int)
    ensures DaysBeforeYear(y + 1) == DaysBeforeYear(y) + DaysInYear(y)
  {
    QuotientStep4(y);
    QuotientStep100(y);
    QuotientStep400(y);
    DivisorsNest(y);
    var four, hundred, fourHundred := y % 4 == 0, y % 100 == 0, y % 400 == 0;
    assert DaysInYear(y) == 365 + (if four then 1 else 0) - (if hundred then 1 else 0)
                                + (if fourHundred then 1 else 0);
  }

  /** A multiple of 400 is one of 100, and a multiple of 100 is one of 4. */
  lemma DivisorsNest(y: int)
    ensures y % 400 == 0 ==> y % 100 == 0
    ensures y % 100 == 0 ==> y % 4 == 0
  {
    if y % 400 == 0 {
      var q := y / 400;
      assert y == 400 * q;
      assert y == 100 * (4 * q) + 0;
    }
    if y % 100 == 0 {
      var q := y / 100;
      assert y == 100 * q;
      assert y == 4 * (25 * q) + 0;
    }
  }

  /** One more year adds one more multiple of 4 exactly when `y` is a multiple of 4; the
      same for 100 and 400 below. */
  lemma QuotientStep4(y: int)
    ensures (y + 4) / 4 - (y + 3) / 4 == if y % 4 == 0 then 1 else 0
  {
    var q, r := y / 4, y % 4;
    assert y == 4 * q + r && 0 <= r < 4;
    assert (y + 4) / 4 == q + 1;
    assert (y + 3) / 4 == if r == 0 then q else q + 1;
  }

  lemma QuotientStep100(y: int)
    ensures (y + 100) / 100 - (y + 99) / 100 == if y % 100 == 0 then 1 else 0
  {
    var q, r := y / 100, y % 100;
    assert y == 100 * q + r && 0 <= r < 100;
    assert (y + 100) / 100 == q + 1;
    assert (y + 99) / 100 == if r == 0 then q else q + 1;
  }

  lemma QuotientStep400(y: int)
    ensures (y + 400) / 400 - (y + 399) / 400 == if y % 400 == 0 then 1 else 0
  {
    var q, r := y / 400, y % 400;
    assert y == 400 * q + r && 0 <= r < 400;
    assert (y + 400) / 400 == q + 1;
    assert (y + 399) / 400 == if r == 0 then q else q + 1;
  }

  /** The first of the month after (y, m) is DaysInMonth(y, m) days after the first of (y, m). */
  lemma FirstOfNextMonth(y: int, m: int)
    requires 0 <= m < 12
    ensures DayNumber(Date(MonthAfter(y, m).0, MonthAfter(y, m).1, 1))
         == DayNumber(Date(y, m, 1)) + DaysInMonth(y, m)
  {
    if m == 11 {
      YearStep(y);
    }
  }

  lemma {:induction false} YearsIncrease(y1: int, y2: int)
    requires y1 <= y2
    ensures DaysBeforeYear(y1) + 365 * (y2 - y1) <= DaysBeforeYear(y2)
    decreases y2 - y1
  {
    if y1 < y2 {
      YearsIncrease(y1, y2 - 1);
      YearStep(y2 - 1);
    }
  }

  lemma MonthsIncrease(y: int, m1: int, m2: int)
    requires 0 <= m1 < m2 < 12
    ensures DaysBeforeMonth(y, m1) + DaysInMonth(y, m1) <= DaysBeforeMonth(y, m2)
  {
  }

  /** Valid dates are ordered by their day numbers as (year, month, day) is ordered. */
  lemma DayNumberOrdered(a: Date, b: Date)
    requires IsValidDate(a) && IsValidDate(b)
    requires a.year < b.year
          || (a.year == b.year && a.month < b.month)
          || (a.year == b.year && a.month == b.month && a.day < b.day)
    ensures DayNumber(a) < DayNumber(b)
  {
    if a.year < b.year {
      assert DaysBeforeMonth(a.year, a.month) + a.day <= DaysInYear(a.year);
      YearStep(a.year);
      YearsIncrease(a.year + 1, b.year);
    } else if a.month < b.month {
      MonthsIncrease(a.year, a.month, b.month);
    }
  }

  /** Two valid dates with the same day number are the same date. */
  lemma DayNumberInjective(a: Date, b: Date)
    requires IsValidDate(a) && IsValidDate(b)
    requires DayNumber(a) == DayNumber(b)
    ensures a == b
  {
    if a.year < b.year || (a.year == b.year && a.month < b.month)
       || (a.year == b.year && a.month == b.month && a.day < b.day) {
      DayNumberOrdered(a, b);
    } else if b.year < a.year || (a.year == b.year && b.month < a.month)
       || (a.year == b.year && a.month == b.month && b.day < a.day) {
      DayNumberOrdered(b, a);
    }
  }

  lemma NextDayNumber(d: Date)
    requires IsValidDate(d)
    ensures DayNumber(NextDay(d)) == DayNumber(d) + 1
  {
    FirstOfNextMonth(d.year, d.month);
  }

  /** Normalize counts `d - 1` days on from the first of (y, m). */
  lemma {:induction false} NormalizeDayNumber(y: int, m: int, d: int)
    requires 0 <= m < 12
    ensures DayNumber(Normalize(y, m, d)) == DayNumber(Date(y, m, 1)) + d - 1
    decreases if d < 1 then 100 - d else d
  {
    if d < 1 {
      var (py, pm) := MonthBefore(y, m);
      FirstOfNextMonth(py, pm);
      NormalizeDayNumber(py, pm, d + DaysInMonth(py, pm));
    } else if d > DaysInMonth(y, m) {
      var (ny, nm) := MonthAfter(y, m);
      FirstOfNextMonth(y, m);
      NormalizeDayNumber(ny, nm, d - DaysInMonth(y, m));
    }
  }

  /** For a month 0 .. 11, `new Date(y, m, d)` is the day `d - 1` days after the first of (y, m). */
  lemma MakeDateDayNumber(y: int, m: int, d: int)
    requires 0 <= m < 12
    ensures MakeDate(y, m, d) == Normalize(y, m, d)
    ensures DayNumber(MakeDate(y, m, d)) == DayNumber(Date(y, m, 1)) + d - 1
  {
    assert m / 12 == 0 && m % 12 == m;
    NormalizeDayNumber(y, m, d);
  }

  // ---------------------------------------------------------------------------
  // What `new Date(year, month, day)` yields

  /** A day inside the month is taken as it is. */
  lemma MakeDateInMonth(y: int, m: int, d: int)
    requires 0 <= m < 12 && 1 <= d <= DaysInMonth(y, m)
    ensures MakeDate(y, m, d) == Date(y, m, d)
  {
    MakeDateDayNumber(y, m, d);
  }

  /** Up to 27 days before the first of the month fall in the month before. */
  lemma MakeDateBefore(y: int, m: int, d: int)
    requires 0 <= m < 12 && -27 <= d <= 0
    ensures var (py, pm) := MonthBefore(y, m);
            MakeDate(y, m, d) == Date(py, pm, DaysInMonth(py, pm) + d)
  {
    var (py, pm) := MonthBefore(y, m);
    MakeDateDayNumber(y, m, d);
    FirstOfNextMonth(py, pm);
    DayNumberInjective(MakeDate(y, m, d), Date(py, pm, DaysInMonth(py, pm) + d));
  }

  /** Up to 28 days after the last of the month fall in the month after. */
  lemma MakeDateAfter(y: int, m: int, d: int)
    requires 0 <= m < 12 && DaysInMonth(y, m) < d <= DaysInMonth(y, m) + 28
    ensures var (ny, nm) := MonthAfter(y, m);
            MakeDate(y, m, d) == Date(ny, nm, d - DaysInMonth(y, m))
  {
    var (ny, nm) := MonthAfter(y, m);
    MakeDateDayNumber(y, m, d);
    FirstOfNextMonth(y, m);
    DayNumberInjective(MakeDate(y, m, d), Date(ny, nm, d - DaysInMonth(y, m)));
  }

  /** `new Date(y, m + 1, d)` counts from the first of the month after (y, m):
      December rolls into January of the next year. */
  lemma MakeDateMonthAfter(y: int, m: int, d: int)
    requires 0 <= m < 12
    ensures MakeDate(y, m + 1, d) == MakeDate(MonthAfter(y, m).0, MonthAfter(y, m).1, d)
  {
    var (ny, nm) := MonthAfter(y, m);
    assert y + (m + 1) / 12 == ny && (m + 1) % 12 == nm;
    assert ny + nm / 12 == ny && nm % 12 == nm;
  }

  /** `new Date(y, m - 1, d)` counts from the first of the month before (y, m):
      January rolls back into December of the year before. */
  lemma MakeDateMonthBefore(y: int, m: int, d: int)
    requires 0 <= m < 12
    ensures MakeDate(y, m - 1, d) == MakeDate(MonthBefore(y, m).0, MonthBefore(y, m).1, d)
  {
    var (py, pm) := MonthBefore(y, m);
    assert y + (m - 1) / 12 == py && (m - 1) % 12 == pm;
    assert py + pm / 12 == py && pm % 12 == pm;
  }

  /** `new Date(y, m + 1, 0)` is the last day of month m. */
  lemma LastDayOfMonth(y: int, m: int)
    requires 0 <= m < 12
    ensures MakeDate(y, m + 1, 0) == Date(y, m, DaysInMonth(y, m))
  {
    var (ny, nm) := MonthAfter(y, m);
    MakeDateMonthAfter(y, m, 0);
    MakeDateBefore(ny, nm, 0);
    assert MonthBefore(ny, nm) == (y, m);
  }

  /** Counting one day further in `new Date(y, m, d)` gives the next calendar day. */
  lemma MakeDateStep(y: int, m: int, d: int)
    ensures MakeDate(y, m, d + 1) == NextDay(MakeDate(y, m, d))
  {
    var (y', m') := (y + m / 12, m % 12);
    assert y' + m' / 12 == y' && m' % 12 == m';
    assert MakeDate(y, m, d) == MakeDate(y', m', d);
    assert MakeDate(y, m, d + 1) == MakeDate(y', m', d + 1);
    MakeDateDayNumber(y', m', d);
    MakeDateDayNumber(y', m', d + 1);
    NextDayNumber(MakeDate(y, m, d));
    DayNumberInjective(MakeDate(y, m, d + 1), NextDay(MakeDate(y, m, d)));
  }

  /** `t` days after a day of weekday `w` comes weekday `(w + t) % 7`. */
  lemma WeekdayShift(a: Date, b: Date, t: int)
    requires 0 <= a.month < 12 && 0 <= b.month < 12
    requires DayNumber(b) == DayNumber(a) + t
    ensures Weekday(b) == (Weekday(a) + t) % 7
  {
    ResidueShift(DayNumber(a) + 6, t);
  }

  /** Adding `t` to a number adds `t` to its residue modulo 7. */
  lemma ResidueShift(x: int, t: int)
    ensures (x + t) % 7 == (x % 7 + t) % 7
  {
    var q, r := x / 7, x % 7;
    assert x + t == 7 * q + (r + t);
    var z := r + t;
    assert (7 * q + z) % 7 == z % 7 by {
      assert 7 * q + z == 7 * (q + z / 7) + z % 7;
    }
  }

  /** Known weekdays: 1 January 1970 was a Thursday, 1 January 2024 a Monday and
      31 December 2023 a Sunday. */
  lemma KnownWeekdays()
    ensures Weekday(Date(1970, 0, 1)) == 4
    ensures Weekday(Date(2024, 0, 1)) == 1
    ensures Weekday(Date(2023, 11, 31)) == 0
  {
  }
}
