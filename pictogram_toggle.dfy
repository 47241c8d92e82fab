/** The scroll toggle of the pictogram: `toggle.checked`, `scrollingdown`
    and `transitiondone`, driven by wheel events over the chart and by the
    end of the circle transition. */
module PictogramToggle {

  /** Where the player circles are headed: ordered by club (`orderByClub`)
      or spread by age (`orderByAge`). */
  datatype Layout = ByClub | ByAge

  datatype ToggleState = ToggleState(checked: bool, scrollingDown: bool, transitionDone: bool, layout: Layout)

  /** What reaches the component: a wheel event with its `deltaY`, or the
      `end` of the running circle transition. */
  datatype Event = Wheel(deltaY: real) | TransitionEnd

  /** The state before any event: the toggle unchecked, not scrolling
      down, no transition running, circles ordered by club. */
  const Initial: ToggleState := ToggleState(false, false, true, ByClub)

  /** `onSlideToggleChange`: `orderByAge` when checked, `orderByClub`
      otherwise; both start a transition. */
  function SlideToggleChange(st: ToggleState, checked: bool): ToggleState {
    st.(transitionDone := false, layout := if checked then ByAge else ByClub)
  }

  /** `changeToggle`: flip the toggle and emit its change event. */
  function ChangeToggle(st: ToggleState): ToggleState {
    SlideToggleChange(st.(checked := !st.checked), !st.checked)
  }

  /** The wheel listener: while a transition runs, nothing changes;
      otherwise scrolling up while scrolling down, or down while not,
      flips the toggle and `scrollingdown`.  The two tests run one after
      the other on the updated state. */
  function Wheel(st: ToggleState, deltaY: real): ToggleState {
    if !st.transitionDone then st
    else
      var st1 := if deltaY < 0.0 && st.scrollingDown then ChangeToggle(st).(scrollingDown := false) else st;
      if deltaY > 0.0 && !st1.scrollingDown then ChangeToggle(st1).(scrollingDown := true) else st1
  }

  function Step(st: ToggleState, e: Event): ToggleState {
    match e
    case Wheel(deltaY) => Wheel(st, deltaY)
    case TransitionEnd => st.(transitionDone := true)
  }

  function Run(st: ToggleState, events: seq<Event>): ToggleState
    decreases |events|
  {
    if events == [] then st else Run(Step(st, events[0]), events[1..])
  }

  /** The toggle and `scrollingdown` agree, and the circles are laid out
      by age exactly when the toggle is checked. */
  predicate Consistent(st: ToggleState) {
    st.checked == st.scrollingDown && (st.layout == ByAge <==> st.checked)
  }

  // ---------------------------------------------------------------
  // Properties

  /** While a transition runs, wheel events change nothing. */
  lemma WheelDuringTransition(st: ToggleState, deltaY: real)
    requires !st.transitionDone
    ensures Step(st, Event.Wheel(deltaY)) == st
  {
  }

  /** With no transition running, a wheel event flips the toggle exactly
      when it scrolls up while scrolling down or down while not; a flip
      also flips `scrollingdown`, starts a transition and lays the circles
      out by the new toggle value; any other wheel event changes nothing. */
  lemma WheelSpec(st: ToggleState, deltaY: real)
    requires st.transitionDone
    ensures var flips := (deltaY < 0.0 && st.scrollingDown) || (deltaY > 0.0 && !st.scrollingDown);
            var st' := Step(st, Event.Wheel(deltaY));
            && (flips ==> st' == ToggleState(!st.checked, !st.scrollingDown, false,
                                             if !st.checked then ByAge else ByClub))
            && (!flips ==> st' == st)
  {
  }

  /** Only the end of a transition sets `transitiondone` back. */
  lemma TransitionDoneOnlyAtEnd(st: ToggleState, e: Event)
    requires !st.transitionDone && Step(st, e).transitionDone
    ensures e == TransitionEnd
  {
  }

  /** Every event keeps the state consistent. */
  lemma StepConsistent(st: ToggleState, e: Event)
    requires Consistent(st)
    ensures Consistent(Step(st, e))
  {
  }

  /** From the initial state, any sequence of events keeps the toggle,
      `scrollingdown` and the layout in agreement. */
  lemma {:induction false} RunConsistent(st: ToggleState, events: seq<Event>)
    requires Consistent(st)
    ensures Consistent(Run(st, events))
    decreases |events|
  {
    if events != [] {
      StepConsistent(st, events[0]);
      RunConsistent(Step(st, events[0]), events[1..]);
    }
  }

  lemma InitialConsistent()
    ensures Consistent(Initial)
  {
  }
}
