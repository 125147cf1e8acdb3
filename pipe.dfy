/** `DatePickerClassPipe`: the class label the template gives a day of the grid, computed
    from the day, the displayed date and an optional selected range. */
module ClassPipe {
  import opened Dates
  import opened App

  /** The five labels the pipe can produce. */
  predicate IsLabel(s: string) {
    s == "offset" || s == "day" || s == "day start" || s == "day end" || s == "day selected"
  }

  /** The two dates agree in day of the month, month and year. */
  predicate SameDate(a: Date, b: Date) {
    a.day == b.day && a.month == b.month && a.year == b.year
  }

  /** Every selection label is guarded by this test: a range is given and its first day lies
      in the displayed month (month numbers only). */
  predicate SelectionShown(currentDate: Date, selectDays: SelectDaysInput) {
    selectDays.Given? && currentDate.month == selectDays.range.startDay.month
  }

  /** The condition of the `day selected` label. */
  predicate StrictlyInside(day: Date, range: SelectedDays) {
    && range.startDay.day < day.day
    && range.endDay.day > day.day
    && day.month == range.endDay.month
    && day.year == range.startDay.year
  }

  /** `transform(day, currentDate, selectDays)`: each test in turn may overwrite the label
      chosen by the tests before it. */
  function Transform(day: Date, currentDate: Date, selectDays: SelectDaysInput): (className: string)
    ensures IsLabel(className)
  {
    var afterMonth := if currentDate.month != day.month then "offset" else "day";
    var shown := SelectionShown(currentDate, selectDays);
    var afterStart :=
      if shown && SameDate(selectDays.range.startDay, day) then "day start" else afterMonth;
    var afterEnd :=
      if shown && SameDate(selectDays.range.endDay, day) then "day end" else afterStart;
    if shown && StrictlyInside(day, selectDays.range) then "day selected" else afterEnd
  }

  // ---------------------------------------------------------------------------
  // Properties of the label

  /** The label is never empty. */
  lemma LabelNeverEmpty(day: Date, currentDate: Date, selectDays: SelectDaysInput)
    ensures |Transform(day, currentDate, selectDays)| > 0
  {
  }

  /** Without a shown selection the label is `offset` exactly when the months differ, and
      `day` otherwise. */
  lemma BaseLabel(day: Date, currentDate: Date, selectDays: SelectDaysInput)
    requires !SelectionShown(currentDate, selectDays)
    ensures Transform(day, currentDate, selectDays)
         == if currentDate.month != day.month then "offset" else "day"
  {
  }

  /** A day of the displayed month is never labelled `offset`, and an `offset` label
      always means the month numbers differ. */
  lemma OffsetMeansOtherMonth(day: Date, currentDate: Date, selectDays: SelectDaysInput)
    ensures Transform(day, currentDate, selectDays) == "offset" ==> currentDate.month != day.month
    ensures currentDate.month == day.month ==> Transform(day, currentDate, selectDays) != "offset"
  {
  }

  /** A day of another month keeps `offset` unless it is the last day of the range or lies
      strictly inside it: no other label can reach it. */
  lemma OtherMonthLabels(day: Date, currentDate: Date, selectDays: SelectDaysInput)
    requires currentDate.month != day.month
    ensures var c := Transform(day, currentDate, selectDays);
            c == "offset" || c == "day end" || c == "day selected"
  {
  }

  /** The label depends on the displayed date only through its month number: neither the
      year nor the day of `currentDate` matters. */
  lemma OnlyMonthOfCurrentDate(day: Date, currentDate: Date, otherDate: Date, selectDays: SelectDaysInput)
    requires currentDate.month == otherDate.month
    ensures Transform(day, currentDate, selectDays) == Transform(day, otherDate, selectDays)
  {
  }

  /** The label is `day selected` exactly when the selection is shown and the day lies
      strictly inside the range. */
  lemma SelectedLabel(day: Date, currentDate: Date, selectDays: SelectDaysInput)
    ensures Transform(day, currentDate, selectDays) == "day selected"
        <==> SelectionShown(currentDate, selectDays) && StrictlyInside(day, selectDays.range)
  {
  }

  /** The label is `day end` exactly when the selection is shown and the day is the range's
      last day. */
  lemma EndLabel(day: Date, currentDate: Date, selectDays: SelectDaysInput)
    ensures Transform(day, currentDate, selectDays) == "day end"
        <==> SelectionShown(currentDate, selectDays) && SameDate(selectDays.range.endDay, day)
  {
  }

  /** The label is `day start` exactly when the selection is shown and the day is the
      range's first day but not its last: the end test comes later and wins. */
  lemma StartLabel(day: Date, currentDate: Date, selectDays: SelectDaysInput)
    ensures Transform(day, currentDate, selectDays) == "day start"
        <==> && SelectionShown(currentDate, selectDays)
             && SameDate(selectDays.range.startDay, day)
             && !SameDate(selectDays.range.endDay, day)
  {
  }

  /** The first and the last day of the range are never labelled `day selected`. */
  lemma EndpointsNotSelected(currentDate: Date, range: SelectedDays)
    ensures Transform(range.startDay, currentDate, Given(range)) != "day selected"
    ensures Transform(range.endDay, currentDate, Given(range)) != "day selected"
  {
  }

  /** A one-day range shown in its own month labels that day `day end`. */
  lemma OneDayRange(day: Date, currentDate: Date)
    requires currentDate.month == day.month
    ensures Transform(day, currentDate, Given(SelectedDays(day, day))) == "day end"
  {
  }

  /** The `day selected` test compares days of the month, so a range that runs into the
      following month selects nothing strictly between its ends, while its end day, shown
      among the trailing offset days, is still labelled `day end`: for 30 January - 2 February
      2023, 31 January stays `day` and 1 February stays `offset`. */
  lemma RangeAcrossMonths()
    ensures var range := SelectedDays(Date(2023, 0, 30), Date(2023, 1, 2));
            && Transform(Date(2023, 1, 2), Date(2023, 0, 15), Given(range)) == "day end"
            && Transform(Date(2023, 0, 31), Date(2023, 0, 15), Given(range)) == "day"
            && Transform(Date(2023, 1, 1), Date(2023, 0, 15), Given(range)) == "offset"
  {
  }
}
