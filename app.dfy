/** The `SelectedDays` record that the picker emits and the application hands back to it. */
module App {
  import opened Dates

  /** The range the picker reports: its first and its last day. */
  datatype SelectedDays = SelectedDays(startDay: Date, endDay: Date)

  /** The `selectDays` input, `SelectedDays | undefined`. */
  datatype SelectDaysInput = Undefined | Given(range: SelectedDays)
}
