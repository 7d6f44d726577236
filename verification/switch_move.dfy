/** The switch state machine (`SwitchMoveEvent`). A command puts the switch
    into Moving toward a target and schedules a completion for the same
    switch and target one transition time later. A completion finalises the
    target only if the switch is still Moving toward it, so a later command
    with another target turns the earlier completion into a no-op: queued
    events are never cancelled, they re-check the state instead. */
module SwitchMoves {
  import opened Base
  import opened Config
  import opened Registries
  import opened SimObjects
  import opened Events
  import opened WorldState

  /** A command for the target the switch is already moving to. */
  predicate AlreadyMovingTo(sw: SimSwitch, target: SwitchState) {
    sw.state == Moving && sw.targetState == target
  }

  /** A command: start moving toward `target` at `now` for `duration`,
      unless already moving there. Starting over happens even when the
      switch already rests in the target position. */
  function Command(sw: SimSwitch, target: SwitchState, now: real, duration: real): (r: SimSwitch)
    ensures r.state == Moving && r.targetState == target
    ensures AlreadyMovingTo(sw, target) ==> r == sw
    ensures !AlreadyMovingTo(sw, target) ==> r.switchingStartTime == now && r.switchingDuration == duration
    ensures r.(state := sw.state, targetState := sw.targetState,
               switchingStartTime := sw.switchingStartTime, switchingDuration := sw.switchingDuration) == sw
  {
    if AlreadyMovingTo(sw, target) then sw
    else sw.(state := Moving, targetState := target, switchingStartTime := now, switchingDuration := duration)
  }

  /** A completion: settle in `target` if still moving toward it. */
  function Complete(sw: SimSwitch, target: SwitchState): (r: SimSwitch)
    ensures AlreadyMovingTo(sw, target) ==> r.state == target
    ensures !AlreadyMovingTo(sw, target) ==> r == sw
    ensures r.(state := sw.state) == sw
  {
    if AlreadyMovingTo(sw, target) then sw.(state := target) else sw
  }

  /** The completion of the latest command settles the switch in its
      target. */
  lemma CompletionOfLatestCommandSettles(sw: SimSwitch, target: SwitchState, now: real, duration: real)
    ensures Complete(Command(sw, target, now, duration), target).state == target
  {
  }

  /** A later command with a different target supersedes an earlier one:
      the earlier completion changes nothing and the switch stays Moving
      until the later completion. */
  lemma LaterCommandSupersedes(sw: SimSwitch, x: SwitchState, y: SwitchState, t1: real, t2: real, d1: real, d2: real)
    requires x != y
    ensures var s2 := Command(Command(sw, x, t1, d1), y, t2, d2);
            && Complete(s2, x) == s2
            && Complete(s2, x).state == Moving
            && Complete(Complete(s2, x), y).state == y
  {
  }

  /** `SwitchMoveEvent.Execute` on the world. An id that is not registered
      does nothing (the event holds a switch reference, which always
      exists). Only the one switch can change. */
  function SwitchMoveStep(w: World, id: string, target: SwitchState, isCompletion: bool): (o: Outcome)
    requires WF(w)
    ensures WF(o.world)
    ensures o.world == w.(switches := o.world.switches)
    ensures o.world.switches.keys == w.switches.keys
    ensures id !in w.switches.entries ==> o == Outcome(w, [])
    ensures id in w.switches.entries && isCompletion ==>
              o.scheduled == [] && o.world.switches.entries == w.switches.entries[id := Complete(w.switches.entries[id], target)]
    ensures id in w.switches.entries && !isCompletion && AlreadyMovingTo(w.switches.entries[id], target) ==>
              o == Outcome(w, [])
    ensures id in w.switches.entries && !isCompletion && !AlreadyMovingTo(w.switches.entries[id], target) ==>
              && o.world.switches.entries == w.switches.entries[id := Command(w.switches.entries[id], target,
                                                                             w.currentTime, w.settings.switchTransitionTime)]
              && o.scheduled == [NewEvent(w.currentTime + w.settings.switchTransitionTime, SwitchMove(id, target, true))]
    ensures Sane(w.settings) ==> forall e :: e in o.scheduled ==> e.executionTime >= w.currentTime
  {
    if id !in w.switches.entries then Outcome(w, [])
    else
      var sw := w.switches.entries[id];
      if isCompletion then
        Outcome(w.(switches := w.switches.Update(id, Complete(sw, target))), [])
      else if AlreadyMovingTo(sw, target) then Outcome(w, [])
      else
        var d := w.settings.switchTransitionTime;
        Outcome(w.(switches := w.switches.Update(id, Command(sw, target, w.currentTime, d))),
                [NewEvent(w.currentTime + d, SwitchMove(id, target, true))])
  }
}
