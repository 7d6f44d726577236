/** `SwitchTimerEvent`: a global timer that commands every switch to its
    opposite position, all at the current time, and re-arms itself after an
    exponentially distributed delay whose mean is the switch transition
    time, clamped to at least 0.1. It changes no switch directly: the changes happen when the
    scheduled commands run. */
module SwitchTimers {
  import opened Base
  import opened Config
  import opened Registries
  import opened SimObjects
  import opened Events
  import opened WorldState

  /** Normal goes to Reverse; Reverse and Moving both go to Normal. */
  function Toggle(s: SwitchState): (r: SwitchState)
    ensures r != Moving
    ensures r == Reverse <==> s == Normal
  {
    if s == Normal then Reverse else Normal
  }

  /** The mean of the timer's exponential delay: the configured mean, but
      never below 0.1, so a zero or negative setting still gives a timer
      that moves forward. */
  function TimerMean(mean: real): (m: real)
    ensures m >= 0.1 && m >= mean
    ensures mean >= 0.1 ==> m == mean
  {
    if mean <= 0.1 then 0.1 else mean
  }

  /** The delay to the next timer: the unit exponential draw scaled by the
      clamped switch transition time. */
  function TimerDelay(s: Settings, u: real): (d: real)
    ensures u >= 0.0 ==> d >= 0.1 * u && d >= s.switchTransitionTime * u
    ensures s.switchTransitionTime >= 0.1 ==> d == s.switchTransitionTime * u
  {
    TimerMean(s.switchTransitionTime) * u
  }

  /** One toggle command per switch, in registry order, all at `now`. */
  function ToggleCommands(sws: Registry<SimSwitch>, now: real): (es: seq<Event>)
    requires sws.Valid()
    ensures |es| == |sws.keys|
    ensures forall i :: 0 <= i < |es| ==>
              && es[i].executionTime == now && es[i].priority == 0
              && es[i].action.SwitchMove? && es[i].action.switchId == sws.keys[i] && !es[i].action.isCompletion
              && es[i].action.targetState != Moving
              && (es[i].action.targetState == Reverse <==> sws.entries[sws.keys[i]].state == Normal)
  {
    seq(|sws.keys|, i requires 0 <= i < |sws.keys| =>
      NewEvent(now, SwitchMove(sws.keys[i], Toggle(sws.entries[sws.keys[i]].state), false)))
  }

  /** `SwitchTimerEvent.Execute`: the toggle commands, then the next timer
      `TimerDelay` later. The world itself is unchanged except for the
      consumed draw. */
  function TimerStep(w: World, draw: nat -> real): (o: Outcome)
    requires WF(w)
    ensures WF(o.world)
    ensures o.world == w.(draws := w.draws + 1)
    ensures |o.scheduled| == |w.switches.keys| + 1
    ensures o.scheduled[..|w.switches.keys|] == ToggleCommands(w.switches, w.currentTime)
    ensures o.scheduled[|w.switches.keys|] == NewEvent(w.currentTime + TimerDelay(w.settings, draw(w.draws)), SwitchTimer)
    ensures forall e :: e in o.scheduled && e.action.SwitchMove? ==>
              e.executionTime == w.currentTime && !e.action.isCompletion && e.action.targetState != Moving
    // Whatever the settings, a non-negative draw never schedules into the past.
    ensures draw(w.draws) >= 0.0 ==> forall e :: e in o.scheduled ==> e.executionTime >= w.currentTime
  {
    var cmds := ToggleCommands(w.switches, w.currentTime);
    var next := NewEvent(w.currentTime + TimerDelay(w.settings, draw(w.draws)), SwitchTimer);
    assert (cmds + [next])[..|cmds|] == cmds;
    Outcome(w.(draws := w.draws + 1), cmds + [next])
  }

  /** With no switches, the timer only re-arms itself. */
  lemma NoSwitchesOnlyRearms(w: World, draw: nat -> real)
    requires WF(w) && w.switches.keys == []
    ensures TimerStep(w, draw).scheduled == [NewEvent(w.currentTime + TimerDelay(w.settings, draw(w.draws)), SwitchTimer)]
  {
  }
}
