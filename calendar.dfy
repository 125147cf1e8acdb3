/** The calendar grid of the date picker (`generateCalendar`) and the month navigation
    that regenerates it (`generateNewDatePickerData`). */
module Calendar {
  import opened Dates

  /** The `StartWeek` enum; the code uses its members as the numbers `Mon = 0`, `Sun = 1`. */
  datatype StartWeek = Mon | Sun

  function StartWeekNumber(startWeek: StartWeek): (n: int)
    ensures n == 0 || n == 1
  {
    if startWeek == Mon then 0 else 1
  }

  /** The first index of the loop of `generateCalendar`: minus the weekday of the last day of the
      previous month, except 1 for a Sunday start when that day was a Saturday. */
  function LeadingOffset(date: Date, startWeek: StartWeek): (offset: int)
    ensures -6 <= offset <= 1
  {
    var w := Weekday(MakeDate(date.year, date.month, 0));
    if startWeek == Sun && w == 6 then 1 else -w
  }

  /** The index at which the first of the displayed month stands in the grid. */
  function FirstOfMonthIndex(date: Date, startWeek: StartWeek): int {
    StartWeekNumber(startWeek) - LeadingOffset(date, startWeek)
  }

  /** Day `k` of the grid: `new Date(year, month, 1 - startWeek + offset + k)`, which, counted
      from the first of the month, is day `k - FirstOfMonthIndex + 1`. */
  function GridDay(date: Date, startWeek: StartWeek, k: int): (d: Date)
    ensures IsValidDate(d)
  {
    MakeDate(date.year, date.month, k - FirstOfMonthIndex(date, startWeek) + 1)
  }

  /** The number of days `generateCalendar` returns: `lastDay.getDate() - offset + 1`. */
  function GridLength(date: Date, startWeek: StartWeek): int
    requires IsValidDate(date)
  {
    DaysInMonth(date.year, date.month) - LeadingOffset(date, startWeek) + 1
  }

  /** The days `generateCalendar` returns for the month of `date`. */
  function CalendarGrid(date: Date, startWeek: StartWeek): (days: seq<Date>)
    requires IsValidDate(date)
    ensures |days| == GridLength(date, startWeek) && 28 <= |days| <= 38
    ensures forall k :: 0 <= k < |days| ==> days[k] == GridDay(date, startWeek, k)
  {
    seq(GridLength(date, startWeek), k => GridDay(date, startWeek, k))
  }

  /** `generateCalendar(date, startWeek)` */
  method GenerateCalendar(date: Date, startWeek: StartWeek) returns (days: seq<Date>)
    requires IsValidDate(date)
    ensures days == CalendarGrid(date, startWeek)
  {
    days := [];
    var firstDay := MakeDate(date.year, date.month, 1);
    var lastDay := MakeDate(date.year, date.month + 1, 0);
    var lastDayInPreviousMonth := MakeDate(date.year, date.month, 0);
    var day := StartWeekNumber(startWeek);
    var offset :=
      if startWeek == Sun && Weekday(lastDayInPreviousMonth) == 6 then 1
      else -Weekday(lastDayInPreviousMonth);
    MakeDateInMonth(date.year, date.month, 1);
    LastDayOfMonth(date.year, date.month);
    ghost var grid := CalendarGrid(date, startWeek);
    var index := offset;
    while index <= lastDay.day
      invariant offset <= index <= lastDay.day + 1
      invariant |days| == index - offset
      invariant days == grid[..|days|]
    {
      days := days + [MakeDate(firstDay.year, firstDay.month, firstDay.day - day + index)];
      index := index + 1;
    }
  }

  // ---------------------------------------------------------------------------
  // What the grid is

  /** The grid has `lastDay.getDate() - offset + 1` days; the first of the month stands
      within its first week. */
  lemma GridShape(date: Date, startWeek: StartWeek)
    requires IsValidDate(date)
    ensures |CalendarGrid(date, startWeek)|
         == DaysInMonth(date.year, date.month) - LeadingOffset(date, startWeek) + 1
    ensures 0 <= FirstOfMonthIndex(date, startWeek) <= 6
    ensures |CalendarGrid(date, startWeek)|
         == FirstOfMonthIndex(date, startWeek) + DaysInMonth(date.year, date.month)
            + 1 - StartWeekNumber(startWeek)
  {
  }

  /** Each day of the grid is the day after the one before it. */
  lemma GridContiguous(date: Date, startWeek: StartWeek)
    requires IsValidDate(date)
    ensures forall k :: 0 < k < |CalendarGrid(date, startWeek)| ==>
              CalendarGrid(date, startWeek)[k] == NextDay(CalendarGrid(date, startWeek)[k - 1])
  {
    var g := CalendarGrid(date, startWeek);
    var base := FirstOfMonthIndex(date, startWeek);
    forall k | 0 < k < |g| ensures g[k] == NextDay(g[k - 1]) {
      MakeDateStep(date.year, date.month, k - 1 - base + 1);
      assert k - 1 - base + 1 + 1 == k - base + 1;
    }
  }

  /** The grid's day numbers increase by one per index, so no day appears twice. */
  lemma GridDayNumbers(date: Date, startWeek: StartWeek)
    requires IsValidDate(date)
    ensures forall k :: 0 <= k < |CalendarGrid(date, startWeek)| ==>
              DayNumber(CalendarGrid(date, startWeek)[k])
              == DayNumber(Date(date.year, date.month, 1)) + k - FirstOfMonthIndex(date, startWeek)
  {
    var g := CalendarGrid(date, startWeek);
    forall k | 0 <= k < |g|
      ensures DayNumber(g[k])
              == DayNumber(Date(date.year, date.month, 1)) + k - FirstOfMonthIndex(date, startWeek)
    {
      MakeDateDayNumber(date.year, date.month, k - FirstOfMonthIndex(date, startWeek) + 1);
    }
  }

  lemma GridIncreasing(date: Date, startWeek: StartWeek, i: int, j: int)
    requires IsValidDate(date)
    requires 0 <= i < j < |CalendarGrid(date, startWeek)|
    ensures DayNumber(CalendarGrid(date, startWeek)[i]) < DayNumber(CalendarGrid(date, startWeek)[j])
    ensures CalendarGrid(date, startWeek)[i] != CalendarGrid(date, startWeek)[j]
  {
    GridDayNumbers(date, startWeek);
  }

  /** The column arithmetic behind GridWeekday, on plain numbers: `w` is the weekday of the
      last day of the previous month and `v` the start-of-week number. */
  lemma ColumnWeekday(w: int, v: int, k: int)
    requires 0 <= w < 7 && (v == 0 || v == 1)
    ensures var offset := if v == 1 && w == 6 then 1 else -w;
            (w + k - (v - offset) + 1) % 7 == (k + 1 - v) % 7
  {
    var offset := if v == 1 && w == 6 then 1 else -w;
    if v == 1 && w == 6 {
      assert w + k - (v - offset) + 1 == k + 7;
      assert (k + 7) % 7 == k % 7;
    } else {
      assert w + k - (v - offset) + 1 == k + 1 - v;
    }
  }

  /** Column k of the grid is weekday `(k + 1 - startWeek) % 7`: the rows start on Monday
      for `Mon` and on Sunday for `Sun`. */
  lemma GridWeekday(date: Date, startWeek: StartWeek, k: int)
    requires IsValidDate(date)
    ensures Weekday(GridDay(date, startWeek, k)) == (k + 1 - StartWeekNumber(startWeek)) % 7
  {
    var base := FirstOfMonthIndex(date, startWeek);
    var last := MakeDate(date.year, date.month, 0);
    MakeDateDayNumber(date.year, date.month, 0);
    MakeDateDayNumber(date.year, date.month, k - base + 1);
    WeekdayShift(last, GridDay(date, startWeek, k), k - base + 1);
    ColumnWeekday(Weekday(last), StartWeekNumber(startWeek), k);
  }

  /** The first day of the grid is a Monday for `Mon` and a Sunday for `Sun`; for a Sunday
      start after a month that ended on a Saturday it is the first of the month itself. */
  lemma GridStartsWeek(date: Date, startWeek: StartWeek)
    requires IsValidDate(date)
    ensures Weekday(CalendarGrid(date, startWeek)[0]) == if startWeek == Sun then 0 else 1
    ensures startWeek == Sun && Weekday(MakeDate(date.year, date.month, 0)) == 6 ==>
              CalendarGrid(date, startWeek)[0] == Date(date.year, date.month, 1)
  {
    FirstGridDay(date, startWeek);
    GridWeekday(date, startWeek, 0);
    if startWeek == Sun && Weekday(MakeDate(date.year, date.month, 0)) == 6 {
      MakeDateInMonth(date.year, date.month, 1);
    }
  }

  /** The first grid day, from the start-of-week number and the leading offset. */
  lemma FirstGridDay(date: Date, startWeek: StartWeek)
    requires IsValidDate(date)
    ensures CalendarGrid(date, startWeek)[0]
         == MakeDate(date.year, date.month, 1 - StartWeekNumber(startWeek) + LeadingOffset(date, startWeek))
  {
    assert CalendarGrid(date, startWeek)[0] == GridDay(date, startWeek, 0);
  }

  /** The grid ends on the last day of the month for `Sun` and on the first of the next
      month for `Mon`. */
  lemma GridEnds(date: Date, startWeek: StartWeek)
    requires IsValidDate(date)
    ensures var g := CalendarGrid(date, startWeek);
            var (ny, nm) := MonthAfter(date.year, date.month);
            g[|g| - 1] == if startWeek == Sun then Date(date.year, date.month, DaysInMonth(date.year, date.month))
                          else Date(ny, nm, 1)
  {
    var g := CalendarGrid(date, startWeek);
    var dim := DaysInMonth(date.year, date.month);
    if startWeek == Sun {
      MakeDateInMonth(date.year, date.month, dim);
    } else {
      MakeDateAfter(date.year, date.month, dim + 1);
    }
  }

  /** The days of the displayed month stand, in order, at the indices
      `FirstOfMonthIndex .. FirstOfMonthIndex + DaysInMonth - 1`; every other day of the grid
      belongs to the month before or the month after, so its month number differs. */
  lemma GridMonthDays(date: Date, startWeek: StartWeek, k: int)
    requires IsValidDate(date) && 0 <= k < |CalendarGrid(date, startWeek)|
    ensures var g := CalendarGrid(date, startWeek);
            var base := FirstOfMonthIndex(date, startWeek);
            && (base <= k < base + DaysInMonth(date.year, date.month) ==>
                  g[k] == Date(date.year, date.month, k - base + 1))
            && (g[k].month == date.month <==> base <= k < base + DaysInMonth(date.year, date.month))
  {
    var g := CalendarGrid(date, startWeek);
    var base := FirstOfMonthIndex(date, startWeek);
    var dim := DaysInMonth(date.year, date.month);
    var d := k - base + 1;
    if d < 1 {
      MakeDateBefore(date.year, date.month, d);
    } else if d <= dim {
      MakeDateInMonth(date.year, date.month, d);
    } else {
      MakeDateAfter(date.year, date.month, d);
    }
  }

  /** Every day of the displayed month appears in the grid exactly once. */
  lemma GridCoversMonth(date: Date, startWeek: StartWeek, d: int)
    requires IsValidDate(date) && 1 <= d <= DaysInMonth(date.year, date.month)
    ensures var g := CalendarGrid(date, startWeek);
            var k := FirstOfMonthIndex(date, startWeek) + d - 1;
            && 0 <= k < |g| && g[k] == Date(date.year, date.month, d)
            && forall j :: 0 <= j < |g| && g[j] == Date(date.year, date.month, d) ==> j == k
  {
    var g := CalendarGrid(date, startWeek);
    var k := FirstOfMonthIndex(date, startWeek) + d - 1;
    GridMonthDays(date, startWeek, k);
    forall j | 0 <= j < |g| && g[j] == Date(date.year, date.month, d) ensures j == k {
      if j < k {
        GridIncreasing(date, startWeek, j, k);
      } else if k < j {
        GridIncreasing(date, startWeek, k, j);
      }
    }
  }

  // ---------------------------------------------------------------------------
  // Month navigation

  /** The `GenerateDatePickerType` enum. */
  datatype Navigation = NextMonthStep | PreviousMonthStep

  /** `date.setMonth(date.getMonth() ± 1)`: the day of the month is kept and rolls over. */
  function ShiftMonth(date: Date, step: Navigation): (r: Date)
    ensures IsValidDate(r)
  {
    var month := if step == NextMonthStep then date.month + 1 else date.month - 1;
    MakeDate(date.year, month, date.day)
  }

  /** The month moves by one; the day of the month is kept when the new month has it, and
      otherwise runs on into the month after (31 January becomes 3 March in a common year). */
  lemma ShiftMonthResult(date: Date, step: Navigation)
    requires IsValidDate(date)
    ensures var (ty, tm) := if step == NextMonthStep then MonthAfter(date.year, date.month)
                            else MonthBefore(date.year, date.month);
            var (ay, am) := MonthAfter(ty, tm);
            ShiftMonth(date, step) == if date.day <= DaysInMonth(ty, tm) then Date(ty, tm, date.day)
                                      else Date(ay, am, date.day - DaysInMonth(ty, tm))
  {
    var (ty, tm) := if step == NextMonthStep then MonthAfter(date.year, date.month)
                    else MonthBefore(date.year, date.month);
    if step == NextMonthStep {
      MakeDateMonthAfter(date.year, date.month, date.day);
    } else {
      MakeDateMonthBefore(date.year, date.month, date.day);
    }
    if date.day <= DaysInMonth(ty, tm) {
      MakeDateInMonth(ty, tm, date.day);
    } else {
      MakeDateAfter(ty, tm, date.day);
    }
  }

  // ---------------------------------------------------------------------------
  // Examples

  /** January 2023 follows a December that ended on a Saturday: with a Sunday start the
      grid begins on 1 January itself and has 31 days. */
  lemma SundayGridAfterSaturday()
    ensures Weekday(Date(2022, 11, 31)) == 6
    ensures CalendarGrid(Date(2023, 0, 15), Sun)[0] == Date(2023, 0, 1)
    ensures |CalendarGrid(Date(2023, 0, 15), Sun)| == 31
  {
    MakeDateBefore(2023, 0, 0);
    assert LeadingOffset(Date(2023, 0, 15), Sun) == 1;
    MakeDateInMonth(2023, 0, 1);
  }

  /** February 2023 follows a January that ended on a Tuesday: its Sunday grid begins
      two days before, on Sunday 29 January. */
  lemma SundayGridAfterTuesday()
    ensures Weekday(Date(2023, 0, 31)) == 2
    ensures CalendarGrid(Date(2023, 1, 1), Sun)[0] == Date(2023, 0, 29)
  {
    MakeDateBefore(2023, 1, 0);
    assert LeadingOffset(Date(2023, 1, 1), Sun) == -2;
    MakeDateBefore(2023, 1, -2);
  }

  /** December 2023 ended on a Sunday: the Monday grid of January 2024 begins on 1 January
      itself, with no day of the previous month. */
  lemma MondayGridFromFirst()
    ensures Weekday(Date(2023, 11, 31)) == 0
    ensures CalendarGrid(Date(2024, 0, 10), Mon)[0] == Date(2024, 0, 1)
  {
    MakeDateBefore(2024, 0, 0);
    assert LeadingOffset(Date(2024, 0, 10), Mon) == 0;
    MakeDateInMonth(2024, 0, 1);
  }

  /** The Monday grid of January 2023 has 38 days: the grid is not always a whole number
      of weeks. */
  lemma MondayGridLength()
    ensures |CalendarGrid(Date(2023, 0, 15), Mon)| == 38
  {
    MakeDateBefore(2023, 0, 0);
    assert LeadingOffset(Date(2023, 0, 15), Mon) == -6;
  }

  /** 31 January 2023 moves on to 3 March; 31 March 2024 moves back to 2 March. */
  lemma ShiftMonthExamples()
    ensures ShiftMonth(Date(2023, 0, 31), NextMonthStep) == Date(2023, 2, 3)
    ensures ShiftMonth(Date(2024, 2, 31), PreviousMonthStep) == Date(2024, 2, 2)
  {
    ShiftMonthResult(Date(2023, 0, 31), NextMonthStep);
    ShiftMonthResult(Date(2024, 2, 31), PreviousMonthStep);
  }
}
