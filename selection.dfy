/** The range-selection logic of the date picker, as one reducer over the user's events.

    In the component this logic is spread over an RxJS pipeline: the `scan` reducer over
    clicks, whose seed object is mutated in place and therefore survives `repeat()`; the
    hover stream that `switchMap` starts after each click and `takeWhile` ends; the check
    that turns a backward hover into an error value; and the `resetSelectedDays` subject.
    Here the accumulator, the flag and whether the hover stream is live form one state, and
    every event yields the new state and what the subscriber is handed. */
module Selection {

  /** The `SelectedDay` enum. */
  datatype SelectedDay = None | FirstDay | SecondDay

  /** The `AccumulatorClick` object of the reducer. */
  datatype Accumulator = Accumulator(selectedDay: SelectedDay, firstDayIndex: int, secondDayIndex: int)

  /** The seed the reducer starts from each time the pipeline is built. */
  const Seed: Accumulator := Accumulator(None, 0, 0)

  /** The reducer's accumulator, the value of `resetSelectedDays`, and whether a hover
      stream is live. */
  datatype Engine = Engine(acc: Accumulator, resetSelectedDays: bool, hoverEnabled: bool)

  /** A click on, or the mouse entering, the day element with the given `index` attribute. */
  datatype UiEvent = Click(index: nat) | Hover(index: nat)

  /** What reaches the subscriber: nothing, an accumulator to paint (and, in state
      `SecondDay`, to report), or the error value that makes it clear every day. */
  datatype Emission = Silent | Paint(value: Accumulator) | ClearAll

  datatype Outcome = Outcome(engine: Engine, emission: Emission)

  /** The state once the view is first built: the seed, the flag false, no hover stream. */
  function Initial(): (e: Engine)
    ensures Consistent(e) && !e.hoverEnabled
  {
    Engine(Seed, false, false)
  }

  /** The reachable states: an accumulator still at `None` is the seed; the indices are
      ordered, equal exactly in state `FirstDay`; and a hover stream is live only after a
      first click that cleared the flag. */
  predicate Consistent(e: Engine) {
    var a := e.acc;
    && (a.selectedDay == None ==> a == Seed)
    && 0 <= a.firstDayIndex <= a.secondDayIndex
    && (a.selectedDay == FirstDay ==> a.firstDayIndex == a.secondDayIndex)
    && (a.selectedDay == SecondDay ==> a.firstDayIndex < a.secondDayIndex)
    && (e.hoverEnabled ==> a.selectedDay == FirstDay && !e.resetSelectedDays)
  }

  /** The test by which a click starts the selection afresh. */
  predicate Restarts(e: Engine, index: int) {
    || index <= e.acc.firstDayIndex
    || e.resetSelectedDays
    || e.acc.selectedDay == SecondDay
    || e.acc.selectedDay == None
  }

  /** The `scan` reducer on a click at `index`; the accumulator it returns goes on to the
      subscriber. A restart also clears the flag and starts a hover stream; a second day
      completes the click stream, and with it the hover stream, until `repeat()`
      resubscribes. */
  function ClickStep(e: Engine, index: nat): (o: Outcome)
    ensures o.emission == Paint(o.engine.acc)
    ensures o.engine.acc.firstDayIndex <= o.engine.acc.secondDayIndex
    ensures o.engine.acc.selectedDay == FirstDay || o.engine.acc.selectedDay == SecondDay
    ensures (o.engine.acc.firstDayIndex == o.engine.acc.secondDayIndex)
        <==> o.engine.acc.selectedDay == FirstDay
  {
    var selectedDay :=
      if index <= e.acc.firstDayIndex || e.resetSelectedDays || e.acc.selectedDay == SecondDay
      then None else e.acc.selectedDay;
    if selectedDay == None then
      var acc := Accumulator(FirstDay, index, index);
      Outcome(Engine(acc, false, true), Paint(acc))
    else
      var acc := Accumulator(SecondDay, e.acc.firstDayIndex, index);
      Outcome(Engine(acc, e.resetSelectedDays, false), Paint(acc))
  }

  /** The hover stream on the mouse entering the day at `index`: a preview from the fixed
      first day while the index does not go backwards; otherwise the last value of the
      stream, which the error check turns into setting the flag and clearing every day. */
  function HoverStep(e: Engine, index: nat): (o: Outcome)
    ensures o.engine.acc == e.acc
    ensures !e.hoverEnabled ==> o == Outcome(e, Silent)
  {
    if !e.hoverEnabled then Outcome(e, Silent)
    else if e.acc.firstDayIndex <= index then
      Outcome(e, Paint(Accumulator(e.acc.selectedDay, e.acc.firstDayIndex, index)))
    else
      Outcome(Engine(e.acc, true, false), ClearAll)
  }

  /** One event; events on days labelled `offset` are filtered out before everything else. */
  function Step(e: Engine, event: UiEvent, offsetDay: bool): (o: Outcome)
    ensures offsetDay ==> o == Outcome(e, Silent)
  {
    if offsetDay then Outcome(e, Silent)
    else match event
      case Click(i) => ClickStep(e, i)
      case Hover(i) => HoverStep(e, i)
  }

  /** The pipeline rebuilt on a fresh seed when the day elements change; the flag is a
      field of the component and survives. */
  function Reset(e: Engine): (r: Engine)
    ensures r.acc == Seed && !r.hoverEnabled && r.resetSelectedDays == e.resetSelectedDays
  {
    Engine(Seed, e.resetSelectedDays, false)
  }

  /** The subscriber reports a range exactly for the accumulators in state `SecondDay`. */
  predicate Committed(em: Emission) {
    em.Paint? && em.value.selectedDay == SecondDay
  }

  /** An event together with whether its day is labelled `offset`. */
  datatype Input = Input(event: UiEvent, offsetDay: bool)

  /** A sequence of events, giving the final state and one emission per event. */
  function Run(e: Engine, inputs: seq<Input>): (r: (Engine, seq<Emission>))
    ensures |r.1| == |inputs|
    ensures |inputs| > 0 ==> r.1[0] == Step(e, inputs[0].event, inputs[0].offsetDay).emission
    decreases |inputs|
  {
    if inputs == [] then (e, [])
    else
      var o := Step(e, inputs[0].event, inputs[0].offsetDay);
      var rest := Run(o.engine, inputs[1..]);
      (rest.0, [o.emission] + rest.1)
  }

  // ---------------------------------------------------------------------------
  // One event

  /** Every event keeps the state consistent. */
  lemma StepConsistent(e: Engine, event: UiEvent, offsetDay: bool)
    requires Consistent(e)
    ensures Consistent(Step(e, event, offsetDay).engine)
  {
  }

  /** A click starts the selection afresh at its own index (clearing the flag and starting
      a hover stream) exactly when the state is `None` or `SecondDay`, the flag is set, or
      the index is not after the first day; so clicking the first day again does not
      complete the range. */
  lemma ClickRestart(e: Engine, index: nat)
    ensures var o := ClickStep(e, index);
            (o.engine == Engine(Accumulator(FirstDay, index, index), false, true))
            <==> Restarts(e, index)
  {
  }

  /** Otherwise the click completes the range: the first day stays, the clicked day becomes
      the second, the flag is untouched and the hover stream ends. */
  lemma ClickCommit(e: Engine, index: nat)
    requires Consistent(e)
    ensures var o := ClickStep(e, index);
            Committed(o.emission)
            <==> e.acc.selectedDay == FirstDay && e.acc.firstDayIndex < index && !e.resetSelectedDays
    ensures var o := ClickStep(e, index);
            Committed(o.emission) ==>
              o.engine == Engine(Accumulator(SecondDay, e.acc.firstDayIndex, index),
                                 e.resetSelectedDays, false)
  {
  }

  /** A hover never completes a range and never moves the accumulator. */
  lemma HoverNeverCommits(e: Engine, index: nat, offsetDay: bool)
    requires Consistent(e)
    ensures var o := Step(e, Hover(index), offsetDay);
            !Committed(o.emission) && o.engine.acc == e.acc
  {
  }

  /** With a live hover stream, a hover at or after the first day previews the range from
      the first day to the hovered one and changes no state. */
  lemma HoverPreview(e: Engine, index: nat)
    requires Consistent(e) && e.hoverEnabled && e.acc.firstDayIndex <= index
    ensures HoverStep(e, index)
         == Outcome(e, Paint(Accumulator(FirstDay, e.acc.firstDayIndex, index)))
  {
  }

  /** A hover before the first day sets the flag, clears every day and ends the hover
      stream; the next click then starts afresh wherever it lands. */
  lemma BackwardHover(e: Engine, index: nat, next: nat)
    requires Consistent(e) && e.hoverEnabled && index < e.acc.firstDayIndex
    ensures var o := HoverStep(e, index);
            && o == Outcome(Engine(e.acc, true, false), ClearAll)
            && ClickStep(o.engine, next).engine == Engine(Accumulator(FirstDay, next, next), false, true)
  {
  }

  /** Once a range is complete, hovers are ignored until the next click. */
  lemma HoverAfterCommit(e: Engine, index: nat, offsetDay: bool)
    requires Consistent(e) && e.acc.selectedDay == SecondDay
    ensures Step(e, Hover(index), offsetDay) == Outcome(e, Silent)
  {
  }

  /** After the pipeline is rebuilt, the surviving flag makes no difference: the next click
      starts afresh either way. */
  lemma ResetForgetsFlag(e: Engine, other: Engine, index: nat)
    ensures ClickStep(Reset(e), index) == ClickStep(Reset(other), index)
    ensures ClickStep(Reset(e), index).engine == Engine(Accumulator(FirstDay, index, index), false, true)
  {
  }

  // ---------------------------------------------------------------------------
  // Sequences of events

  lemma {:induction false} RunConsistent(e: Engine, inputs: seq<Input>)
    requires Consistent(e)
    ensures Consistent(Run(e, inputs).0)
    decreases |inputs|
  {
    if inputs != [] {
      var o := Step(e, inputs[0].event, inputs[0].offsetDay);
      StepConsistent(e, inputs[0].event, inputs[0].offsetDay);
      RunConsistent(o.engine, inputs[1..]);
    }
  }

  /** In any run from a consistent state, a range is reported only for a click on a day of
      the month, and every reported range runs forwards. */
  lemma {:induction false} RunCommits(e: Engine, inputs: seq<Input>, k: int)
    requires Consistent(e) && 0 <= k < |inputs|
    requires Committed(Run(e, inputs).1[k])
    ensures inputs[k].event.Click? && !inputs[k].offsetDay
    ensures Run(e, inputs).1[k].value.firstDayIndex < Run(e, inputs).1[k].value.secondDayIndex
    decreases |inputs|
  {
    var o := Step(e, inputs[0].event, inputs[0].offsetDay);
    if k == 0 {
      if inputs[0].event.Hover? {
        HoverNeverCommits(e, inputs[0].event.index, inputs[0].offsetDay);
      }
    } else {
      StepConsistent(e, inputs[0].event, inputs[0].offsetDay);
      assert Run(e, inputs).1[k] == Run(o.engine, inputs[1..]).1[k - 1];
      RunCommits(o.engine, inputs[1..], k - 1);
    }
  }

  /** Once a range is complete, any number of hovers leaves the state as it is and reaches
      the subscriber as nothing. */
  lemma {:induction false} HoversAfterCommit(e: Engine, inputs: seq<Input>)
    requires Consistent(e) && e.acc.selectedDay == SecondDay
    requires forall k :: 0 <= k < |inputs| ==> inputs[k].event.Hover?
    ensures Run(e, inputs).0 == e
    ensures forall k :: 0 <= k < |inputs| ==> Run(e, inputs).1[k] == Silent
    decreases |inputs|
  {
    if inputs != [] {
      HoverAfterCommit(e, inputs[0].event.index, inputs[0].offsetDay);
      HoversAfterCommit(e, inputs[1..]);
      assert Run(e, inputs).1 == [Silent] + Run(e, inputs[1..]).1;
    }
  }

  // ---------------------------------------------------------------------------
  // Scenarios

  /** Click day 5, hover day 10, click day 10: the range 5-10 is previewed, then reported. */
  lemma ClickHoverClick()
    ensures var r := Run(Initial(), [Input(Click(5), false), Input(Hover(10), false), Input(Click(10), false)]);
            && r.1 == [Paint(Accumulator(FirstDay, 5, 5)), Paint(Accumulator(FirstDay, 5, 10)),
                       Paint(Accumulator(SecondDay, 5, 10))]
            && r.0 == Engine(Accumulator(SecondDay, 5, 10), false, false)
  {
  }

  /** Clicking the same day twice starts afresh twice and reports nothing. */
  lemma SameDayTwice()
    ensures var r := Run(Initial(), [Input(Click(5), false), Input(Click(5), false)]);
            && r.1 == [Paint(Accumulator(FirstDay, 5, 5)), Paint(Accumulator(FirstDay, 5, 5))]
            && !Committed(r.1[0]) && !Committed(r.1[1])
  {
  }

  /** Click day 5, hover day 2: every day is cleared; a click on day 7 then starts afresh
      instead of completing 5-7. */
  lemma HoverBackThenClick()
    ensures var r := Run(Initial(), [Input(Click(5), false), Input(Hover(2), false), Input(Click(7), false)]);
            && r.1[1] == ClearAll
            && r.1[2] == Paint(Accumulator(FirstDay, 7, 7))
  {
  }
}
