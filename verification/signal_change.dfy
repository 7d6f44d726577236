/** `SignalChangeEvent`: set one signal's aspect. The target signal and the
    new aspect are carried by the event and fixed when it is built. */
module SignalChanges {
  import opened Base
  import opened Config
  import opened Registries
  import opened SimObjects
  import opened Events
  import opened WorldState

  /** Sets the aspect of signal `id`. Nothing else changes and nothing is
      scheduled; an unregistered id does nothing. */
  function SignalChangeStep(w: World, id: string, aspect: SignalAspect): (o: Outcome)
    requires WF(w)
    ensures WF(o.world)
    ensures o.scheduled == []
    ensures o.world == w.(signals := o.world.signals)
    ensures o.world.signals.keys == w.signals.keys
    ensures id in w.signals.entries ==>
              o.world.signals.entries == w.signals.entries[id := w.signals.entries[id].(aspect := aspect)]
    ensures id !in w.signals.entries ==> o.world == w
  {
    if id in w.signals.entries then
      Outcome(w.(signals := w.signals.Update(id, w.signals.entries[id].(aspect := aspect))), [])
    else Outcome(w, [])
  }

  /** The aspect afterwards is the new one, whatever it was before; and
      applying the same change twice is the same as once. */
  lemma SignalChangeIdempotent(w: World, id: string, aspect: SignalAspect)
    requires WF(w) && id in w.signals.entries
    ensures SignalChangeStep(w, id, aspect).world.signals.entries[id].aspect == aspect
    ensures SignalChangeStep(SignalChangeStep(w, id, aspect).world, id, aspect) == SignalChangeStep(w, id, aspect)
  {
  }
}
