/** `SafetyMonitor.CheckSafety`: collisions first (a track with more than
    one occupant), then derailments (a Moving switch whose parent track is
    occupied). The first offending track or switch, in registry order, is
    reported, and at most one accident per check; an accident stops the
    run. */
module Safety {
  import opened Base
  import opened Config
  import opened Registries
  import opened SimObjects
  import opened Events
  import opened WorldState

  predicate Crowded(t: SimTrack) {
    |t.occupants| > 1
  }

  /** A Moving switch whose parent track is registered and occupied. A
      switch without a parent track is never a derailment. */
  predicate Endangered(tracks: Registry<SimTrack>, sw: SimSwitch) {
    && sw.state == Moving
    && sw.parentTrack.Some?
    && sw.parentTrack.value in tracks.entries
    && tracks.entries[sw.parentTrack.value].IsOccupied()
  }

  function FirstCrowded(w: World): (r: Option<nat>)
    requires w.tracks.Valid()
    ensures r.Some? ==> r.value < |w.tracks.keys| && Crowded(w.tracks.entries[w.tracks.keys[r.value]])
    ensures r.Some? ==> forall j :: 0 <= j < r.value ==> !Crowded(w.tracks.entries[w.tracks.keys[j]])
    ensures r.None? <==> forall id :: id in w.tracks.entries ==> !Crowded(w.tracks.entries[id])
  {
    var r := FirstIndex(w.tracks.Values(), Crowded);
    assert forall id :: id in w.tracks.entries ==> exists j :: 0 <= j < |w.tracks.keys| && w.tracks.keys[j] == id;
    r
  }

  function FirstEndangered(w: World): (r: Option<nat>)
    requires w.switches.Valid()
    ensures r.Some? ==> r.value < |w.switches.keys| && Endangered(w.tracks, w.switches.entries[w.switches.keys[r.value]])
    ensures r.Some? ==> forall j :: 0 <= j < r.value ==> !Endangered(w.tracks, w.switches.entries[w.switches.keys[j]])
    ensures r.None? <==> forall id :: id in w.switches.entries ==> !Endangered(w.tracks, w.switches.entries[id])
  {
    var r := FirstIndex(w.switches.Values(), sw => Endangered(w.tracks, sw));
    assert forall id :: id in w.switches.entries ==> exists j :: 0 <= j < |w.switches.keys| && w.switches.keys[j] == id;
    r
  }

  /** Rear-end when the two trains travel the same way, head-on otherwise. */
  function Classify(a: Train, b: Train): (k: CollisionKind)
    ensures k == RearEnd <==> a.moveDirection == b.moveDirection
  {
    if a.moveDirection == b.moveDirection then RearEnd else HeadOn
  }

  /** `TriggerAccident`: stop the run and record the report. */
  function TriggerAccident(w: World, a: Accident): (r: World)
    ensures !r.isRunning && r.accidents == w.accidents + [a]
    ensures r.(isRunning := w.isRunning, accidents := w.accidents) == w
  {
    w.(isRunning := false, accidents := w.accidents + [a])
  }

  /** The accident a check reports, if any. */
  function Violation(w: World): (a: Option<Accident>)
    requires WF(w)
    ensures FirstCrowded(w).Some? ==>
              var t := w.tracks.entries[w.tracks.keys[FirstCrowded(w).value]];
              a == Some(Collision(Classify(w.arena[t.occupants[0]], w.arena[t.occupants[1]]), t.id,
                                  t.occupants[0], t.occupants[1]))
    ensures FirstCrowded(w).None? && FirstEndangered(w).Some? ==>
              var id := w.switches.keys[FirstEndangered(w).value];
              var sw := w.switches.entries[id];
              a == Some(Derailment(sw.id, w.tracks.entries[sw.parentTrack.value].occupants[0]))
    ensures a.None? <==> FirstCrowded(w).None? && FirstEndangered(w).None?
  {
    match FirstCrowded(w)
    case Some(i) =>
      var t := w.tracks.entries[w.tracks.keys[i]];
      Some(Collision(Classify(w.arena[t.occupants[0]], w.arena[t.occupants[1]]), t.id, t.occupants[0], t.occupants[1]))
    case None =>
      match FirstEndangered(w)
      case Some(j) =>
        var sw := w.switches.entries[w.switches.keys[j]];
        Some(Derailment(sw.id, w.tracks.entries[sw.parentTrack.value].occupants[0]))
      case None => None
  }

  /** `CheckSafety`: with no violation nothing changes; otherwise exactly one
      accident is recorded and the run is stopped. */
  function CheckSafety(w: World): (r: World)
    requires WF(w)
    ensures WF(r)
    ensures r.(isRunning := w.isRunning, accidents := w.accidents) == w
    ensures (forall id :: id in w.tracks.entries ==> !Crowded(w.tracks.entries[id]))
            && (forall id :: id in w.switches.entries ==> !Endangered(w.tracks, w.switches.entries[id]))
            ==> r == w
    ensures (exists id :: id in w.tracks.entries && Crowded(w.tracks.entries[id]))
            || (exists id :: id in w.switches.entries && Endangered(w.tracks, w.switches.entries[id]))
            ==> !r.isRunning && |r.accidents| == |w.accidents| + 1
    ensures r.accidents == w.accidents || (!r.isRunning && |r.accidents| == |w.accidents| + 1
                                           && r.accidents[..|w.accidents|] == w.accidents)
    // The recorded accident is the one at the first offending track or switch.
    ensures Violation(w).Some? ==> r == TriggerAccident(w, Violation(w).value)
    ensures Violation(w).None? ==> r == w
  {
    match Violation(w)
    case None => w
    case Some(a) =>
      var r := TriggerAccident(w, a);
      assert r.accidents[..|w.accidents|] == w.accidents;
      r
  }

  /** A crowded track wins over a derailment: the derailment check is
      skipped once a collision is found. */
  lemma CollisionReportedFirst(w: World)
    requires WF(w)
    requires exists id :: id in w.tracks.entries && Crowded(w.tracks.entries[id])
    ensures CheckSafety(w).accidents == w.accidents + [Violation(w).value]
    ensures Violation(w).value.Collision?
  {
  }

  /** With no crowded track, a derailment at the first endangered switch in
      registry order is recorded, naming the first occupant of its parent
      track. */
  lemma DerailmentReportedWhenNoCollision(w: World)
    requires WF(w)
    requires forall id :: id in w.tracks.entries ==> !Crowded(w.tracks.entries[id])
    requires exists id :: id in w.switches.entries && Endangered(w.tracks, w.switches.entries[id])
    ensures FirstEndangered(w).Some?
    ensures var sw := w.switches.entries[w.switches.keys[FirstEndangered(w).value]];
            CheckSafety(w).accidents ==
              w.accidents + [Derailment(sw.id, w.tracks.entries[sw.parentTrack.value].occupants[0])]
    ensures !CheckSafety(w).isRunning
  {
  }

  /** Two trains on one track in opposite directions: a head-on collision. */
  lemma OpposingTrainsCollideHeadOn(w: World, id: string)
    requires WF(w) && id in w.tracks.entries
    requires var t := w.tracks.entries[id];
             |t.occupants| == 2 && w.arena[t.occupants[0]].moveDirection != w.arena[t.occupants[1]].moveDirection
    requires forall k :: k in w.tracks.entries && k != id ==> !Crowded(w.tracks.entries[k])
    ensures !CheckSafety(w).isRunning
    ensures CheckSafety(w).accidents ==
              w.accidents + [Collision(HeadOn, w.tracks.entries[id].id,
                                       w.tracks.entries[id].occupants[0], w.tracks.entries[id].occupants[1])]
  {
    var i := FirstCrowded(w).value;
    assert w.tracks.keys[i] == id by {
      var k := w.tracks.keys[i];
      assert k in w.tracks.entries;
    }
  }
}
