/** `addClassName`, which labels each day element for a given accumulator, and the switch of
    the subscriber that turns the label into `start`, `end` and `selected` classes on the
    element. */
module Classify {
  import opened Dates
  import opened Calendar
  import opened Selection

  /** The strings `addClassName` returns. */
  datatype ClassName = Start | End | Selected | Remove

  /** The classes the renderer adds to and removes from a day element. */
  datatype CssClass = StartClass | EndClass | SelectedClass

  /** Both indices of the accumulator name days of the grid. */
  predicate IndicesIn(days: seq<Date>, acc: Accumulator) {
    0 <= acc.firstDayIndex < |days| && 0 <= acc.secondDayIndex < |days|
  }

  /** `addClassName(index, acc)` for the grid `days` of the displayed `date`. */
  function AddClassName(days: seq<Date>, date: Date, index: int, acc: Accumulator): (c: ClassName)
    requires 0 <= index < |days| && IndicesIn(days, acc)
    ensures c == Start <==> index == acc.firstDayIndex
    ensures c == End <==> index == acc.secondDayIndex && acc.firstDayIndex != acc.secondDayIndex
    ensures c == Selected ==>
              && days[index].month == date.month
              && days[acc.firstDayIndex].day < days[index].day < days[acc.secondDayIndex].day
  {
    if acc.firstDayIndex == index then Start
    else if index == acc.secondDayIndex && acc.firstDayIndex != acc.secondDayIndex then End
    else if && days[acc.firstDayIndex].day < days[index].day
            && days[acc.secondDayIndex].day > days[index].day
            && days[index].month == date.month then Selected
    else Remove
  }

  /** On the calendar grid, for an accumulator whose two days are ordered days of the
      displayed month, the labels follow the indices: `start` on the first, `end` on a
      different second, `selected` strictly between, `remove` everywhere else. */
  lemma LabelsOnGrid(date: Date, startWeek: StartWeek, index: int, acc: Accumulator)
    requires IsValidDate(date)
    requires var days := CalendarGrid(date, startWeek);
             && 0 <= index < |days| && IndicesIn(days, acc)
             && acc.firstDayIndex <= acc.secondDayIndex
             && days[acc.firstDayIndex].month == date.month
             && days[acc.secondDayIndex].month == date.month
    ensures var f, s := acc.firstDayIndex, acc.secondDayIndex;
            AddClassName(CalendarGrid(date, startWeek), date, index, acc)
            == if index == f then Start
               else if index == s then End
               else if f < index < s then Selected
               else Remove
  {
    GridMonthDays(date, startWeek, index);
    GridMonthDays(date, startWeek, acc.firstDayIndex);
    GridMonthDays(date, startWeek, acc.secondDayIndex);
  }

  /** A day of another month is labelled `remove` by such an accumulator. */
  lemma OffsetDaysRemoved(date: Date, startWeek: StartWeek, index: int, acc: Accumulator)
    requires IsValidDate(date)
    requires var days := CalendarGrid(date, startWeek);
             && 0 <= index < |days| && IndicesIn(days, acc)
             && days[acc.firstDayIndex].month == date.month
             && days[acc.secondDayIndex].month == date.month
             && days[index].month != date.month
    ensures AddClassName(CalendarGrid(date, startWeek), date, index, acc) == Remove
  {
  }

  /** A freshly started selection (both indices equal) labels its day `start` and every
      other day `remove`. */
  lemma RestartLabels(days: seq<Date>, date: Date, index: int, acc: Accumulator)
    requires 0 <= index < |days| && IndicesIn(days, acc)
    requires acc.firstDayIndex == acc.secondDayIndex
    ensures AddClassName(days, date, index, acc) == if index == acc.firstDayIndex then Start else Remove
  {
  }

  // ---------------------------------------------------------------------------
  // Painting

  /** The classes an element should carry for a label: that one class, or none. */
  function Marks(c: ClassName): (s: set<CssClass>)
    ensures |s| <= 1 && (s == {} <==> c == Remove)
  {
    match c
    case Start => {StartClass}
    case End => {EndClass}
    case Selected => {SelectedClass}
    case Remove => {}
  }

  /** `removeClass`: `selected`, `start` and `end` are all taken off. */
  function RemoveClasses(cur: set<CssClass>): (next: set<CssClass>)
    ensures next == {}
  {
    var r := cur - {SelectedClass} - {StartClass} - {EndClass};
    assert forall x :: x in r ==> x.StartClass? || x.EndClass? || x.SelectedClass?;
    r
  }

  /** The net effect of one case of the subscriber's switch on an element's classes. Only
      the other classes the case names are removed: `selected` leaves `start` in place, and
      so does `end`. */
  function Repaint(cur: set<CssClass>, c: ClassName): (next: set<CssClass>)
    ensures Marks(c) <= next
    ensures next <= cur + Marks(c)
  {
    match c
    case Start => (cur - {SelectedClass, EndClass}) + {StartClass}
    case Selected => (cur - {EndClass}) + {SelectedClass}
    case End => (cur - {SelectedClass}) + {EndClass}
    case Remove => RemoveClasses(cur)
  }

  /** The painted element carries exactly its label's class, unless it is relabelled
      `selected` or `end` while still carrying `start`. */
  lemma RepaintExact(cur: set<CssClass>, c: ClassName)
    ensures Repaint(cur, c) == Marks(c) <==> c == Start || c == Remove || StartClass !in cur
  {
    var next := Repaint(cur, c);
    if c == Start {
      assert forall x :: x in next ==> x == StartClass by {
        forall x | x in next ensures x == StartClass {
          assert x in cur - {SelectedClass, EndClass} || x == StartClass;
        }
      }
    } else if c != Remove {
      if StartClass in cur {
        assert StartClass in next;
      } else {
        assert forall x :: x in next ==> x in Marks(c) by {
          forall x | x in next ensures x in Marks(c) {
            assert x.StartClass? || x.EndClass? || x.SelectedClass?;
          }
        }
      }
    }
  }

  /** Painting the same label twice changes nothing more. */
  lemma RepaintIdempotent(cur: set<CssClass>, c: ClassName)
    ensures Repaint(Repaint(cur, c), c) == Repaint(cur, c)
  {
  }

  /** An element that carries `start` keeps it when it is labelled `selected`. */
  lemma SelectedKeepsStart()
    ensures Repaint({StartClass}, Selected) == {StartClass, SelectedClass}
  {
  }

  /** What the day elements show: nothing yet (or cleared), or the labels of an accumulator. */
  datatype Display = Blank | Showing(acc: Accumulator)

  predicate Shows(days: seq<Date>, display: Display) {
    display.Showing? ==> IndicesIn(days, display.acc)
  }

  /** The classes element `k` carries under a display. */
  function Painted(days: seq<Date>, date: Date, display: Display, k: int): (s: set<CssClass>)
    requires 0 <= k < |days| && Shows(days, display)
    ensures StartClass in s <==> display.Showing? && k == display.acc.firstDayIndex
  {
    if display.Blank? then {} else Marks(AddClassName(days, date, k, display.acc))
  }

  /** Painting a new accumulator onto elements that show an older one leaves each element
      with exactly its new label's class, provided the first day is unchanged or the new
      accumulator is a fresh selection. Every paint the picker makes is of this kind. */
  lemma RepaintDisplay(days: seq<Date>, date: Date, display: Display, value: Accumulator, k: int)
    requires 0 <= k < |days| && Shows(days, display) && IndicesIn(days, value)
    requires || display.Blank?
             || display.acc.firstDayIndex == value.firstDayIndex
             || value.firstDayIndex == value.secondDayIndex
    ensures Repaint(Painted(days, date, display, k), AddClassName(days, date, k, value))
         == Painted(days, date, Showing(value), k)
  {
    var c := AddClassName(days, date, k, value);
    var cur := Painted(days, date, display, k);
    if StartClass in cur {
      assert c == Start || c == Remove;
    }
  }
}
