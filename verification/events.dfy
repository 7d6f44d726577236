/** Scheduled events and their ordering. Every event kind of the engine is a
    variant of `Action`, carrying the data its handler needs; `Event` adds
    the execution time (fixed at construction: the field is immutable) and
    the secondary priority. */
module Events {
  import opened SimObjects

  datatype Action =
    | TrainSpawn
    | TrainMove(train: TrainHandle)
    | SwitchMove(switchId: string, targetState: SwitchState, isCompletion: bool)
    | SwitchTimer
    | SignalChange(signalId: string, newAspect: SignalAspect)

  datatype Event = Event(executionTime: real, priority: int, action: Action)

  /** An event as the engine constructs it: the priority is left at its
      default of 0 (no code sets it). */
  function NewEvent(time: real, action: Action): (e: Event)
    ensures e.executionTime == time && e.action == action
    ensures e.priority == 0
  {
    Event(time, 0, action)
  }

  /** The strict lexicographic order on (time, priority), stated
      independently of `CompareTo`. */
  predicate KeyLess(a: Event, b: Event) {
    a.executionTime < b.executionTime
    || (a.executionTime == b.executionTime && a.priority < b.priority)
  }

  predicate SameKey(a: Event, b: Event) {
    a.executionTime == b.executionTime && a.priority == b.priority
  }

  /** `IComparable<T>.CompareTo` of a number: -1, 0 or 1. */
  function Sign3(x: real, y: real): int {
    if x < y then -1 else if x > y then 1 else 0
  }

  function SignInt(x: int, y: int): int {
    if x < y then -1 else if x > y then 1 else 0
  }

  /** `DESEvent.CompareTo`: time first, then priority. No insertion-order
      tie-break: two events with equal keys compare as 0. */
  function CompareTo(a: Event, b: Event): (c: int)
    ensures -1 <= c <= 1
    ensures c < 0 <==> KeyLess(a, b)
    ensures c > 0 <==> KeyLess(b, a)
    ensures c == 0 <==> SameKey(a, b)
  {
    var timeComparison := Sign3(a.executionTime, b.executionTime);
    if timeComparison != 0 then timeComparison
    else SignInt(a.priority, b.priority)
  }

  /** "a comes no later than b" in the queue's order. */
  predicate NotAfter(a: Event, b: Event) {
    CompareTo(a, b) <= 0
  }

  /** An earlier time orders first whatever the priorities. */
  lemma TimeDominates(a: Event, b: Event)
    requires a.executionTime < b.executionTime
    ensures CompareTo(a, b) == -1 && CompareTo(b, a) == 1
  {
  }

  /** At equal times, the priority decides. */
  lemma PriorityBreaksTies(a: Event, b: Event)
    requires a.executionTime == b.executionTime
    ensures CompareTo(a, b) == SignInt(a.priority, b.priority)
  {
  }

  /** The order is a total preorder with antisymmetric signs. */
  lemma CompareIsTotalPreorder(a: Event, b: Event, c: Event)
    ensures CompareTo(a, a) == 0
    ensures CompareTo(a, b) == -CompareTo(b, a)
    ensures NotAfter(a, b) || NotAfter(b, a)
    ensures NotAfter(a, b) && NotAfter(b, c) ==> NotAfter(a, c)
  {
  }

  /** The order only looks at the keys: events with the same key are
      interchangeable against every other event. */
  lemma SameKeyIndistinguishable(a: Event, b: Event, c: Event)
    requires CompareTo(a, b) == 0
    ensures CompareTo(a, c) == CompareTo(b, c)
  {
  }
}
