/** `InterlockingSystem`: a stub. `Update` (track circuits, then signals)
    sets every signal to Proceed; switch requests are always granted and
    only record the requested course. */
module Interlocking {
  import opened Base
  import opened Registries
  import opened SimObjects
  import opened WorldState

  /** Every signal shows Proceed. */
  ghost predicate AllProceed(sigs: Registry<SimSignal>) {
    forall id :: id in sigs.entries ==> sigs.entries[id].aspect == Proceed
  }

  function AllToProceed(sigs: Registry<SimSignal>): (r: Registry<SimSignal>)
    ensures AllProceed(r)
    ensures r.keys == sigs.keys && r.entries.Keys == sigs.entries.Keys
    ensures forall id :: id in sigs.entries ==> r.entries[id].meta == sigs.entries[id].meta
    ensures sigs.Valid() ==> r.Valid()
  {
    Registry(sigs.keys, map id | id in sigs.entries :: sigs.entries[id].(aspect := Proceed))
  }

  /** `Update`: only signal aspects change, and all become Proceed. */
  function Update(w: World): (r: World)
    requires WF(w)
    ensures WF(r)
    ensures AllProceed(r.signals)
    ensures r == w.(signals := r.signals)
    ensures r.signals.keys == w.signals.keys && r.signals.entries.Keys == w.signals.entries.Keys
    ensures forall id :: id in w.signals.entries ==> r.signals.entries[id].meta == w.signals.entries[id].meta
  {
    w.(signals := AllToProceed(w.signals))
  }

  lemma UpdateIdempotent(w: World)
    requires WF(w)
    ensures Update(Update(w)) == Update(w)
  {
    var r := Update(w);
    assert AllToProceed(r.signals).entries == r.signals.entries;
  }

  /** `RequestSwitch`: always granted, with no occupancy check; the course
      is recorded and the switch's state is left alone. */
  function RequestSwitch(sw: SimSwitch, desiredCourse: string): (r: (SimSwitch, bool))
    ensures r.1
    ensures r.0.currentCourse == desiredCourse
    ensures r.0.(currentCourse := sw.currentCourse) == sw
  {
    (sw.(currentCourse := desiredCourse), true)
  }
}
