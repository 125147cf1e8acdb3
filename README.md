# Date-range picker: a verified model

This project models the core of an Angular date-range picker component.

- **Calendar grid** (`generateCalendar`). For a month and a start-of-week setting (`Mon` or `Sun`), the picker lists the consecutive days it shows. It begins with 0 to 6 days of the previous month, and with none when the 1st falls on the week's first day (a Monday for `Mon`, a Sunday for `Sun`). For a Monday start it ends with the first of the next month.
- **Range selection.** A click fixes a first day. Hovering previews the range from that day. A later click on a later day completes the range, and the component emits it as `SelectedDays`. A click on or before the first day starts again. A hover before the first day clears everything and makes the next click start again.
- **Labels.** `addClassName` labels every day element `start`, `end`, `selected` or `remove` for the current accumulator. The subscriber then adds and removes the renderer classes. Separately, the `datePickerClass` pipe labels a day `offset`, `day`, `day start`, `day end` or `day selected` from the dates alone.

Modules:

- `Dates` (dates.dfy): JavaScript `Date` values as civil triples (year, month 0–11, day). It covers the roll-over of `new Date(y, m, d)`, day numbers and `getDay()` weekdays in the proleptic Gregorian calendar.
- `Calendar` (calendar.dfy): `CalendarGrid`, which is the specification of the grid; the loop `GenerateCalendar`; and month navigation.
- `App` (app.dfy): the `SelectedDays` record of src/app/app.component.ts:13-16, as the datatype `App.SelectedDays`.
- `ClassPipe` (pipe.dfy): `DatePickerClassPipe.transform`.
- `Selection` (selection.dfy): the RxJS pipeline written as one explicit reducer, `Step`, over click and hover events. It covers the accumulator, the `resetSelectedDays` flag and whether a hover stream is live.
- `Classify` (classify.dfy): `addClassName` and the net effect of the painting switch on one element's classes.
- `Picker` (picker.dfy): the component as a class, described below.

The `Picker` class holds:
- the displayed date and its grid;
- the accumulator fields, which the `Scan` method mutates in place;
- the flag;
- an array of class sets, one per day element;
- the log of emitted ranges.

Its state-changing methods are stated against `Selection.Step`. Its invariant says that every element carries exactly the class of its current label.

## Model

| member | source | states |
|---|---|---|
| `Dates.MakeDate` | src/app/date-picker/date-picker.component.ts:114-129 | The day arithmetic of `new Date(y, m, d)` and `setDate` always yields a valid civil date, whatever month and day arguments roll over; its exact value is given by `MakeDateInMonth`, `MakeDateBefore`, `MakeDateAfter` and `MakeDateStep` |
| `Dates.Weekday` | src/app/date-picker/date-picker.component.ts:123-125 | `getDay()` lies in 0..6 |
| `Dates.KnownWeekdays` | src/app/date-picker/date-picker.component.ts:123-125 | Anchors `getDay()` to known dates: 1 January 1970 was a Thursday (4), 1 January 2024 a Monday (1), 31 December 2023 a Sunday (0) |
| `Calendar.LeadingOffset` | src/app/date-picker/date-picker.component.ts:122-125 | The loop's first index lies in -6..1 |
| `Calendar.CalendarGrid` | src/app/date-picker/date-picker.component.ts:127-131 | The grid has `lastDay.getDate() - offset + 1` days, between 28 and 38 |
| `Calendar.ShiftMonth` | src/app/date-picker/date-picker.component.ts:96-100 | `setMonth(getMonth() ± 1)` yields a valid date; `ShiftMonthResult` gives its exact value |
| `Picker.DatePicker.IsOffset` | src/app/date-picker/date-picker.component.ts:182-184 | A day is filtered as `offset` exactly when the pipe, given no range, labels it `offset` |
| `Calendar.GenerateCalendar` | src/app/date-picker/date-picker.component.ts:112-134 | The loop returns exactly the grid `CalendarGrid`: day `k` is `new Date(year, month, 1 - startWeek + offset + k)`, for `lastDay.getDate() - offset + 1` days |
| `Calendar.GridShape` | src/app/date-picker/date-picker.component.ts:115-131 | The grid has `lastDay.getDate() - offset + 1` days; the first of the month stands at an index between 0 and 6 |
| `Calendar.GridContiguous` | src/app/date-picker/date-picker.component.ts:127-131 | Each grid day is the day after the one before it |
| `Calendar.GridDayNumbers` | src/app/date-picker/date-picker.component.ts:127-131 | The day number of grid day `k` is the first of the month's day number plus `k` minus the first-of-month index |
| `Calendar.GridIncreasing` | src/app/date-picker/date-picker.component.ts:127-131 | A later index holds a strictly later day, so no day appears twice |
| `Calendar.GridWeekday` | src/app/date-picker/date-picker.component.ts:121-131 | Column `k` falls on weekday `(k + 1 - startWeek) mod 7` (0 = Sunday) |
| `Calendar.GridStartsWeek` | src/app/date-picker/date-picker.component.ts:121-129 | The first grid day is a Sunday for `Sun` and a Monday for `Mon`; in the Saturday case (`offset = 1`) it is the first of the month |
| `Calendar.GridEnds` | src/app/date-picker/date-picker.component.ts:115-131 | The last grid day is the month's last day for `Sun` and the first of the next month for `Mon` |
| `Calendar.GridMonthDays` | src/app/date-picker/date-picker.component.ts:127-131 | The displayed month's days stand, in order, at one block of indices; a grid day has the displayed month number exactly when its index is in that block |
| `Calendar.GridCoversMonth` | src/app/date-picker/date-picker.component.ts:127-131 | Every day of the displayed month appears in the grid exactly once |
| `Calendar.SundayGridAfterSaturday` | src/app/date-picker/date-picker.component.ts:122-125 | December 2022 ends on a Saturday: the Sunday grid of January 2023 starts on 1 January and has 31 days |
| `Calendar.SundayGridAfterTuesday` | src/app/date-picker/date-picker.component.ts:122-125 | January 2023 ends on a Tuesday: the Sunday grid of February 2023 starts on Sunday 29 January |
| `Calendar.MondayGridFromFirst` | src/app/date-picker/date-picker.component.ts:122-129 | December 2023 ends on a Sunday: the Monday grid of January 2024 starts on 1 January, with no day of the previous month |
| `Calendar.MondayGridLength` | src/app/date-picker/date-picker.component.ts:127-131 | The Monday grid of January 2023 has 38 days, not a whole number of weeks |
| `Calendar.ShiftMonthResult` | src/app/date-picker/date-picker.component.ts:95-102 | Moving by one month keeps the day of the month if the target month has it; otherwise the day runs on into the month after |
| `Calendar.ShiftMonthExamples` | src/app/date-picker/date-picker.component.ts:95-100 | 31 January 2023 moves forward to 3 March; 31 March 2024 moves back to 2 March |
| `Dates.MakeDateInMonth` | src/app/date-picker/date-picker.component.ts:114 | `new Date(y, m, d)` for a day the month has is that very date |
| `Dates.LastDayOfMonth` | src/app/date-picker/date-picker.component.ts:115 | `new Date(y, m + 1, 0)` is the last day of month `m` |
| `Dates.MakeDateBefore` | src/app/date-picker/date-picker.component.ts:116-120 | `new Date(y, m, d)` with `d <= 0` is a day counted back from the end of the previous month; day 0 is that month's last day |
| `Dates.MakeDateStep` | src/app/date-picker/date-picker.component.ts:129 | Raising the day argument of `new Date` by one gives the following day |
| `ClassPipe.Transform` | src/app/date-picker/pipe/datepickerclass.pipe.ts:9-65 | The label is one of `offset`, `day`, `day start`, `day end`, `day selected` |
| `ClassPipe.LabelNeverEmpty` | src/app/date-picker/pipe/datepickerclass.pipe.ts:14-22 | The label is never empty |
| `ClassPipe.BaseLabel` | src/app/date-picker/pipe/datepickerclass.pipe.ts:14-22 | Without a shown selection the label is `offset` exactly when the month numbers differ, and `day` otherwise |
| `ClassPipe.OffsetMeansOtherMonth` | src/app/date-picker/pipe/datepickerclass.pipe.ts:16-22 | `offset` always means the month numbers differ; a day of the displayed month is never `offset` |
| `ClassPipe.OtherMonthLabels` | src/app/date-picker/pipe/datepickerclass.pipe.ts:16-61 | A day of another month is `offset`, `day end` or `day selected`, never `day` or `day start` |
| `ClassPipe.OnlyMonthOfCurrentDate` | src/app/date-picker/pipe/datepickerclass.pipe.ts:16-52 | The displayed date matters only through its month number; its year and day are never read |
| `ClassPipe.SelectedLabel` | src/app/date-picker/pipe/datepickerclass.pipe.ts:50-61 | `day selected` holds exactly when a range is given, its start lies in the displayed month, and the day lies strictly inside the range: start day-of-month < day < end day-of-month, within the end's month and the start's year |
| `ClassPipe.EndLabel` | src/app/date-picker/pipe/datepickerclass.pipe.ts:37-48 | `day end` holds exactly when the selection is shown and the day equals the end day in day, month and year |
| `ClassPipe.StartLabel` | src/app/date-picker/pipe/datepickerclass.pipe.ts:24-48 | `day start` holds exactly when the selection is shown and the day equals the start day but not the end day, because the later end test overrides it |
| `ClassPipe.EndpointsNotSelected` | src/app/date-picker/pipe/datepickerclass.pipe.ts:54-61 | The start and end days are never `day selected` |
| `ClassPipe.OneDayRange` | src/app/date-picker/pipe/datepickerclass.pipe.ts:28-48 | A one-day range shown in its own month labels that day `day end` |
| `ClassPipe.RangeAcrossMonths` | src/app/date-picker/pipe/datepickerclass.pipe.ts:37-61 | For a range that ends in the next month, the end day is labelled `day end` even among the offset days, and no day between the ends is `day selected` |
| `Selection.Initial` | src/app/date-picker/date-picker.component.ts:211-215 | The first state is the seed `{None, 0, 0}` with the flag false and no hover stream, which is consistent |
| `Selection.ClickStep` | src/app/date-picker/date-picker.component.ts:186-216 | After a click the accumulator is what goes to the subscriber, `first <= second`, its state is `FirstDay` or `SecondDay`, and the indices are equal exactly in `FirstDay` |
| `Selection.HoverStep` | src/app/date-picker/date-picker.component.ts:220-255 | A hover never moves the accumulator; without a live hover stream it changes nothing and emits nothing |
| `Selection.Step` | src/app/date-picker/date-picker.component.ts:182-184 | An event on an `offset` day changes nothing and emits nothing |
| `Selection.Reset` | src/app/date-picker/date-picker.component.ts:319-330 | Rebuilding the pipeline restores the seed and stops hovers; the `resetSelectedDays` flag survives |
| `Selection.Run` | src/app/date-picker/date-picker.component.ts:180-258 | A run of events gives one emission per event, the first being the first event's |
| `Selection.StepConsistent` | src/app/date-picker/date-picker.component.ts:186-255 | Every event keeps the state consistent: ordered indices, equal exactly in `FirstDay`, `None` only at the seed, hovers live only in `FirstDay` with the flag clear |
| `Selection.ClickRestart` | src/app/date-picker/date-picker.component.ts:190-202 | A click restarts at its own index (clearing the flag, starting hovers) exactly when the state is `None` or `SecondDay`, the flag is set, or `index <= first` |
| `Selection.ClickCommit` | src/app/date-picker/date-picker.component.ts:203-207 | A click reports a range exactly in `FirstDay` with `index > first` and the flag clear; then the first index stays, the second becomes `index`, and hovers stop |
| `Selection.HoverNeverCommits` | src/app/date-picker/date-picker.component.ts:220-247 | No hover reports a range or moves the accumulator |
| `Selection.HoverPreview` | src/app/date-picker/date-picker.component.ts:226-246 | With a live hover stream, a hover at `index >= first` emits the preview `{FirstDay, first, index}` and changes no state |
| `Selection.BackwardHover` | src/app/date-picker/date-picker.component.ts:249-255 | A hover before the first day sets the flag, stops hovers and clears every day; the next click then restarts wherever it lands |
| `Selection.HoverAfterCommit` | src/app/date-picker/date-picker.component.ts:217-219 | Once a range is complete, a hover changes nothing and emits nothing |
| `Selection.ResetForgetsFlag` | src/app/date-picker/date-picker.component.ts:186-202 | After a rebuild the surviving flag makes no difference: the next click restarts at its index |
| `Selection.RunConsistent` | src/app/date-picker/date-picker.component.ts:180-258 | Any run of events keeps the state consistent |
| `Selection.RunCommits` | src/app/date-picker/date-picker.component.ts:260-268 | In any run, a range is reported only for a click on a day of the displayed month, and always with `first < second` |
| `Selection.HoversAfterCommit` | src/app/date-picker/date-picker.component.ts:217-234 | After a completed range, any number of hovers leaves the state as it is and emits nothing |
| `Selection.ClickHoverClick` | src/app/date-picker/date-picker.component.ts:186-268 | Click 5, hover 10, click 10 previews and then reports the range 5–10 |
| `Selection.SameDayTwice` | src/app/date-picker/date-picker.component.ts:190-202 | Clicking day 5 twice restarts twice and reports nothing |
| `Selection.HoverBackThenClick` | src/app/date-picker/date-picker.component.ts:249-255 | Click 5 then hover 2 clears every day; a click on 7 then restarts instead of completing 5–7 |
| `Classify.AddClassName` | src/app/date-picker/date-picker.component.ts:146-167 | `start` exactly on the first index; `end` exactly on a second index that differs from the first; `selected` only for a day of the displayed month strictly between the two days' days of the month |
| `Classify.LabelsOnGrid` | src/app/date-picker/date-picker.component.ts:146-167 | On the grid, with the anchor and second day ordered and both in the displayed month: `start` on the first index, `end` on the second, `selected` strictly between the two indices, `remove` elsewhere |
| `Classify.OffsetDaysRemoved` | src/app/date-picker/date-picker.component.ts:158-166 | A day of another month is labelled `remove` |
| `Classify.RestartLabels` | src/app/date-picker/date-picker.component.ts:146-167 | A fresh selection (equal indices) labels its day `start` and every other day `remove` |
| `Classify.RemoveClasses` | src/app/date-picker/date-picker.component.ts:140-144 | `removeClass` leaves none of `selected`, `start`, `end` |
| `Classify.Repaint` | src/app/date-picker/date-picker.component.ts:272-304 | A painted element carries its label's class and gains no other class |
| `Classify.RepaintExact` | src/app/date-picker/date-picker.component.ts:272-304 | Painting leaves exactly the label's class if and only if the label is `start` or `remove`, or the element did not carry `start` |
| `Classify.RepaintIdempotent` | src/app/date-picker/date-picker.component.ts:272-304 | Painting the same label twice is the same as painting it once |
| `Classify.SelectedKeepsStart` | src/app/date-picker/date-picker.component.ts:284-290 | The `selected` case does not remove `start` |
| `Classify.RepaintDisplay` | src/app/date-picker/date-picker.component.ts:270-306 | Painting over an older accumulator with the same first day, or painting a fresh selection, leaves each element with exactly its new label's class |
| `Picker.Announced` | src/app/date-picker/date-picker.component.ts:262-268 | Exactly one range is emitted for an accumulator in state `SecondDay`, and none otherwise |
| `Picker.GridRangeForward` | src/app/date-picker/date-picker.component.ts:263-268 | A reported range of two ordered days of the displayed month lies in one month and year, with the start strictly before the end |
| `Picker.DatePicker.constructor` | src/app/date-picker/date-picker.component.ts:332-334 | The new component shows the grid of `today`, starts from the initial state with nothing painted or emitted, and is valid |
| `Picker.DatePicker.Rebuild` | src/app/date-picker/date-picker.component.ts:319-330 | New day elements with no classes, a fresh seed and no hovers; the flag is kept |
| `Picker.DatePicker.GenerateNewDatePickerData` | src/app/date-picker/date-picker.component.ts:95-102 | The date becomes `ShiftMonth(date, step)`, the grid is that month's, and the selection resets |
| `Picker.DatePicker.PreviousMonth` | src/app/date-picker/date-picker.component.ts:104-106 | As above, one month back |
| `Picker.DatePicker.NextMonth` | src/app/date-picker/date-picker.component.ts:108-110 | As above, one month forward |
| `Picker.DatePicker.ChangeStartWeek` | src/app/date-picker/date-picker.component.ts:336-343 | The grid of the same month is generated again for the new start of week, and the selection resets |
| `Picker.DatePicker.Click` | src/app/date-picker/date-picker.component.ts:180-216 | The new state, emitted ranges and painted elements are exactly what `Step` gives for the click; the invariant is kept |
| `Picker.DatePicker.Scan` | src/app/date-picker/date-picker.component.ts:186-216 | The in-place update of the accumulator and flag equals `ClickStep` |
| `Picker.DatePicker.Hover` | src/app/date-picker/date-picker.component.ts:220-255 | The new state, emitted ranges and painted elements are exactly what `Step` gives for the hover |
| `Picker.DatePicker.Deliver` | src/app/date-picker/date-picker.component.ts:249-316 | A backward value sets the flag and clears every element; any other value is reported when in `SecondDay` and painted, so each element carries exactly its new label's class |
| `Picker.DatePicker.PaintAll` | src/app/date-picker/date-picker.component.ts:270-306 | Each element's classes become `Repaint` of its old classes under its `addClassName` label |
| `Picker.DatePicker.ClearAll` | src/app/date-picker/date-picker.component.ts:307-311 | Every element loses all three classes |

The `DatePicker` invariant `Valid` requires these:
- the grid is `CalendarGrid` of the displayed date;
- the reducer state is consistent;
- the accumulator's days are days of the displayed month;
- every element carries exactly the class its label gives under the accumulator last painted;
- every emitted range runs forwards within one month.

## Behaviour of note

- Clicking the same day twice restarts the selection, because the test is `dayIndex <= firstDayIndex`. It does not complete a one-day range (`Selection.SameDayTwice`, `Selection.ClickRestart`).
- A hover before the first day does not move the first day to the hovered one. It clears every element, sets `resetSelectedDays` and ends the hover stream, and the next click then starts afresh (`Selection.BackwardHover`).
- The grid is not always a whole number of weeks. The Monday grid ends on the first of the next month and the Sunday grid on the month's last day (`Calendar.GridEnds`, `Calendar.MondayGridLength`).

## Left out

- Angular wiring is not modelled. This covers lifecycle hooks, `@Input`/`@Output`, `QueryList`, `Renderer2`, `dateTrackBy` and change detection. Lifecycle work appears as the constructor and the methods of `DatePicker`. The `selectedDays` output appears as the `emitted` log.
- DOM day elements are reduced to their sets of the three renderer classes (`start`, `end`, `selected`). Template and pipe classes on the same element are not part of that set.
- Reuse of DOM elements across a new grid is not modelled. With `trackBy` on the weekday, Angular may keep an element and its renderer classes. The model gives the new grid fresh elements with no classes.
- The template file is not part of this model. An event counts as an `offset` day exactly when its grid day's month differs from the displayed month, and the `index` attribute is taken to be the element's grid index. The pipe gives `offset` in that case unless the selection input relabels an offset day (`ClassPipe.OtherMonthLabels`).
- The RxJS operators (`fromEvent`, `merge`, `switchMap`, `takeWhile`, `retry`, `repeat`, `takeUntil`, `withLatestFrom`) are replaced by the reducer `Selection.Step`, which processes events one at a time in arrival order. The `map` returns `throwError(Error)` as a value, not as an error, so `retry()` and the `error` callback (`console.error`) are never reached. Neither is modelled.
- The component tests `/selected|end/` against the element's class string. The model tests set membership instead. This is equivalent, because removing an absent class changes nothing.
- `ChangeStartWeek`, `GenerateNewDatePickerData`, `PreviousMonth` and `NextMonth` always rebuild the pipeline on fresh elements. With `trackBy` keyed on the weekday, two grids of equal length have the same keys column by column (`Calendar.GridWeekday`). Angular may then keep every element, and `QueryList.changes` may not fire. In that case the component keeps the accumulator, the `resetSelectedDays` flag, any live hover stream and the renderer classes on the new grid, so a later click can complete a range from `days[firstDayIndex]` of the new month. The model does not capture that carry-over.
- The `startWeek` value is modelled once. `generateCalendar` reads the parameter for the day arithmetic but the field `this.startWeek` for the Saturday test. The two agree whenever the component calls it: `ngOnInit` passes the field, and Angular sets the field before `ngOnChanges`.
- The `Date` constructor reads a year argument of 0 to 99 as 1900 to 1999; `setDate` and `setMonth` do not. `Dates.MakeDate` leaves that mapping out. For a displayed date in the years 0 to 99, the component builds `firstDay`, `lastDay` and `lastDayInPreviousMonth` in 19yy and shows that month's grid; `Calendar.CalendarGrid` stays in the year itself.
- Dates are civil days in the proleptic Gregorian calendar. Time of day, time zones, daylight saving and the bounded millisecond range of JavaScript dates are left out.
- The clock (`new Date()`) is the constructor's `today` parameter.
- The `AppComponent` form wiring and its `onSelectedDays` setter are not modelled. Only the `SelectedDays` record is (the `App` module).
