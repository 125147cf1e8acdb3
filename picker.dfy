/** The date-picker component: the displayed month and its grid, the reducer's accumulator
    (one object that the reducer mutates in place), the `resetSelectedDays` flag, the class
    sets of the day elements, and the ranges emitted on the `selectedDays` output. */
module Picker {
  import opened Dates
  import opened Calendar
  import opened App
  import opened Selection
  import opened Classify
  import ClassPipe

  /** What the `selectedDays` output emits for an emission reaching the subscriber: one
      range, from `days[first]` to `days[second]`, for an accumulator in state `SecondDay`. */
  function Announced(days: seq<Date>, em: Emission): (out: seq<SelectedDays>)
    requires em.Paint? ==> IndicesIn(days, em.value)
    ensures |out| <= 1 && (|out| == 1 <==> Committed(em))
  {
    if Committed(em) then [SelectedDays(days[em.value.firstDayIndex], days[em.value.secondDayIndex])]
    else []
  }

  /** What the day elements show after an emission. */
  function Screen(display: Display, em: Emission): Display {
    match em
    case Silent => display
    case Paint(value) => Showing(value)
    case ClearAll => Blank
  }

  /** A range whose two days lie in one month of one year, the first before the last. */
  predicate ForwardRange(range: SelectedDays) {
    && range.startDay.year == range.endDay.year
    && range.startDay.month == range.endDay.month
    && range.startDay.day < range.endDay.day
  }

  /** Two ordered indices of days of the displayed month name a forward range of that month. */
  lemma GridRangeForward(date: Date, startWeek: StartWeek, first: int, second: int)
    requires IsValidDate(date)
    requires var days := CalendarGrid(date, startWeek);
             && 0 <= first < second < |days|
             && days[first].month == date.month && days[second].month == date.month
    ensures var days := CalendarGrid(date, startWeek);
            && ForwardRange(SelectedDays(days[first], days[second]))
            && days[first].year == date.year
            && DayNumber(days[first]) < DayNumber(days[second])
  {
    GridMonthDays(date, startWeek, first);
    GridMonthDays(date, startWeek, second);
    GridIncreasing(date, startWeek, first, second);
  }

  class DatePicker {
    var date: Date
    var startWeek: StartWeek
    var days: seq<Date>
    // The reducer's accumulator object.
    var selectedDay: SelectedDay
    var firstDayIndex: int
    var secondDayIndex: int
    var resetSelectedDays: bool
    /** Whether a hover stream is live. */
    var hoverEnabled: bool
    /** The renderer classes of each day element, in grid order. */
    var elements: array<set<CssClass>>
    /** Every range emitted on the `selectedDays` output so far. */
    var emitted: seq<SelectedDays>
    /** The accumulator the elements were last painted from. */
    ghost var display: Display

    function State(): Engine
      reads this
    {
      Engine(Accumulator(selectedDay, firstDayIndex, secondDayIndex), resetSelectedDays, hoverEnabled)
    }

    /** The day element carries the pipe's `offset` label (when no range is given to the
        pipe): its month is not the displayed one. */
    predicate IsOffset(index: int)
      reads this
      requires 0 <= index < |days|
      ensures IsOffset(index) <==> ClassPipe.Transform(days[index], date, Undefined) == "offset"
    {
      days[index].month != date.month
    }

    ghost predicate Valid()
      reads this, elements
    {
      && IsValidDate(date)
      && days == CalendarGrid(date, startWeek)
      && elements.Length == |days|
      && Consistent(State())
      && IndicesIn(days, State().acc)
      && (selectedDay != None ==> !IsOffset(firstDayIndex) && !IsOffset(secondDayIndex))
      && Shows(days, display)
      && (display.Showing? ==> display.acc.firstDayIndex == firstDayIndex)
      && (forall k :: 0 <= k < elements.Length ==> elements[k] == Painted(days, date, display, k))
      && (forall range :: range in emitted ==> ForwardRange(range))
    }

    /** The component on `today`, after `ngOnInit` and `ngAfterViewInit`. */
    constructor (today: Date, startWeek: StartWeek)
      requires IsValidDate(today)
      ensures Valid() && fresh(elements)
      ensures date == today && this.startWeek == startWeek && days == CalendarGrid(today, startWeek)
      ensures State() == Initial() && emitted == [] && display == Blank
    {
      date := today;
      this.startWeek := startWeek;
      var grid := GenerateCalendar(today, startWeek);
      days := grid;
      resetSelectedDays := false;
      selectedDay, firstDayIndex, secondDayIndex := None, 0, 0;
      hoverEnabled := false;
      elements := new set<CssClass>[|grid|](k => {});
      emitted := [];
      display := Blank;
    }

    /** `onSelectedDate` run again because the day elements changed: fresh elements, a fresh
        seed and no hover stream; the flag stays. */
    method Rebuild()
      requires IsValidDate(date) && days == CalendarGrid(date, startWeek)
      requires forall range :: range in emitted ==> ForwardRange(range)
      modifies this
      ensures Valid() && fresh(elements)
      ensures date == old(date) && startWeek == old(startWeek) && days == old(days) && emitted == old(emitted)
      ensures State() == Reset(old(State())) && display == Blank
    {
      elements := new set<CssClass>[|days|](k => {});
      selectedDay, firstDayIndex, secondDayIndex := None, 0, 0;
      hoverEnabled := false;
      display := Blank;
      assert forall k :: 0 <= k < elements.Length ==> elements[k] == Painted(days, date, display, k);
    }

    /** `generateNewDatePickerData`: the month moves by one with the day kept (and rolled
        over), the grid is generated again, and the pipeline is taken to be rebuilt on fresh
        elements. */
    method GenerateNewDatePickerData(step: Navigation)
      requires Valid()
      modifies this
      ensures Valid() && fresh(elements)
      ensures date == ShiftMonth(old(date), step) && startWeek == old(startWeek)
      ensures days == CalendarGrid(date, startWeek) && emitted == old(emitted)
      ensures State() == Reset(old(State())) && display == Blank
    {
      date := ShiftMonth(date, step);
      days := GenerateCalendar(date, startWeek);
      Rebuild();
    }

    method PreviousMonth()
      requires Valid()
      modifies this
      ensures Valid() && fresh(elements)
      ensures date == ShiftMonth(old(date), PreviousMonthStep) && startWeek == old(startWeek)
      ensures days == CalendarGrid(date, startWeek) && emitted == old(emitted)
      ensures State() == Reset(old(State())) && display == Blank
    {
      GenerateNewDatePickerData(PreviousMonthStep);
    }

    method NextMonth()
      requires Valid()
      modifies this
      ensures Valid() && fresh(elements)
      ensures date == ShiftMonth(old(date), NextMonthStep) && startWeek == old(startWeek)
      ensures days == CalendarGrid(date, startWeek) && emitted == old(emitted)
      ensures State() == Reset(old(State())) && display == Blank
    {
      GenerateNewDatePickerData(NextMonthStep);
    }

    /** `ngOnChanges` for a later change of the `startWeek` input: the grid of the same month
        is generated again, and the pipeline is taken to be rebuilt on fresh elements. */
    method ChangeStartWeek(startWeek: StartWeek)
      requires Valid()
      modifies this
      ensures Valid() && fresh(elements)
      ensures date == old(date) && this.startWeek == startWeek
      ensures days == CalendarGrid(date, startWeek) && emitted == old(emitted)
      ensures State() == Reset(old(State())) && display == Blank
    {
      this.startWeek := startWeek;
      days := GenerateCalendar(date, startWeek);
      Rebuild();
    }

    /** A click on the day element at `index`. */
    method Click(index: nat)
      requires Valid() && index < elements.Length
      modifies this, elements
      ensures Valid()
      ensures date == old(date) && startWeek == old(startWeek) && days == old(days) && elements == old(elements)
      ensures var o := Step(old(State()), UiEvent.Click(index), old(IsOffset(index)));
              && State() == o.engine
              && emitted == old(emitted) + Announced(days, o.emission)
              && display == Screen(old(display), o.emission)
    {
      if IsOffset(index) {
        return;
      }
      Scan(index);
      if selectedDay == SecondDay {
        GridRangeForward(date, startWeek, firstDayIndex, secondDayIndex);
      }
      Deliver(Accumulator(selectedDay, firstDayIndex, secondDayIndex));
    }

    /** The `scan` reducer: it updates the accumulator object in place. A fresh start also
        clears the flag and lets `switchMap` start a hover stream; a second day ends the
        click stream and its hover stream until `repeat()` subscribes again. */
    method Scan(index: nat)
      modifies this`selectedDay, this`firstDayIndex, this`secondDayIndex, this`resetSelectedDays,
               this`hoverEnabled
      ensures State() == ClickStep(old(State()), index).engine
    {
      if index <= firstDayIndex || resetSelectedDays || selectedDay == SecondDay {
        selectedDay := None;
      }
      if selectedDay == None {
        firstDayIndex := index;
        secondDayIndex := index;
        selectedDay := FirstDay;
        resetSelectedDays := false;
        hoverEnabled := true;
      } else {
        secondDayIndex := index;
        selectedDay := SecondDay;
        hoverEnabled := false;
      }
    }

    /** The mouse entering the day element at `index`. */
    method Hover(index: nat)
      requires Valid() && index < elements.Length
      modifies this, elements
      ensures Valid()
      ensures date == old(date) && startWeek == old(startWeek) && days == old(days) && elements == old(elements)
      ensures var o := Step(old(State()), UiEvent.Hover(index), old(IsOffset(index)));
              && State() == o.engine
              && emitted == old(emitted) + Announced(days, o.emission)
              && display == Screen(old(display), o.emission)
    {
      if IsOffset(index) || !hoverEnabled {
        return;
      }
      if index < firstDayIndex {
        hoverEnabled := false;
      }
      Deliver(Accumulator(selectedDay, firstDayIndex, index));
    }

    /** The check after the hover stream, then the subscriber: a value whose second index is
        before its first sets the flag and clears every element; any other value is reported
        when it is in state `SecondDay` and is painted. */
    method Deliver(value: Accumulator)
      requires elements.Length == |days| && IndicesIn(days, value) && Shows(days, display)
      requires forall k :: 0 <= k < elements.Length ==> elements[k] == Painted(days, date, display, k)
      requires || value.secondDayIndex < value.firstDayIndex
               || display.Blank?
               || display.acc.firstDayIndex == value.firstDayIndex
               || value.firstDayIndex == value.secondDayIndex
      modifies this`resetSelectedDays, this`emitted, this`display, elements
      ensures value.secondDayIndex < value.firstDayIndex ==>
                resetSelectedDays && emitted == old(emitted) && display == Blank
      ensures value.firstDayIndex <= value.secondDayIndex ==>
                && resetSelectedDays == old(resetSelectedDays)
                && emitted == old(emitted) + Announced(days, Paint(value))
                && display == Showing(value)
      ensures Shows(days, display)
      ensures forall k :: 0 <= k < elements.Length ==> elements[k] == Painted(days, date, display, k)
    {
      if value.secondDayIndex < value.firstDayIndex {
        resetSelectedDays := true;
        ClearAll();
        display := Blank;
      } else {
        if value.selectedDay == SecondDay {
          emitted := emitted + [SelectedDays(days[value.firstDayIndex], days[value.secondDayIndex])];
        }
        PaintAll(value);
        forall k | 0 <= k < elements.Length
          ensures elements[k] == Painted(days, date, Showing(value), k)
        {
          RepaintDisplay(days, date, display, value, k);
        }
        display := Showing(value);
      }
    }

    /** The subscriber's loop over the day elements, each painted by the case of
        `addClassName` it falls in. */
    method PaintAll(value: Accumulator)
      requires elements.Length == |days| && IndicesIn(days, value)
      modifies elements
      ensures forall k :: 0 <= k < elements.Length ==>
                elements[k] == Repaint(old(elements[k]), AddClassName(days, date, k, value))
    {
      var k := 0;
      while k < elements.Length
        invariant 0 <= k <= elements.Length
        invariant forall j :: 0 <= j < k ==>
                    elements[j] == Repaint(old(elements[j]), AddClassName(days, date, j, value))
        invariant forall j :: k <= j < elements.Length ==> elements[j] == old(elements[j])
      {
        var classes := elements[k];
        match AddClassName(days, date, k, value) {
          case Start =>
            if SelectedClass in classes || EndClass in classes {
              classes := classes - {SelectedClass};
              classes := classes - {EndClass};
            }
            classes := classes + {StartClass};
          case Selected =>
            if EndClass in classes {
              classes := classes - {EndClass};
            }
            classes := classes + {SelectedClass};
          case End =>
            if SelectedClass in classes {
              classes := classes - {SelectedClass};
            }
            classes := classes + {EndClass};
          case Remove =>
            classes := RemoveClasses(classes);
        }
        elements[k] := classes;
        k := k + 1;
      }
    }

    /** The subscriber's loop for the error value: every element loses all three classes. */
    method ClearAll()
      modifies elements
      ensures forall k :: 0 <= k < elements.Length ==> elements[k] == {}
    {
      var k := 0;
      while k < elements.Length
        invariant 0 <= k <= elements.Length
        invariant forall j :: 0 <= j < k ==> elements[j] == {}
      {
        elements[k] := RemoveClasses(elements[k]);
        k := k + 1;
      }
    }
  }
}
