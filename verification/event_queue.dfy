/** The pending-event queue: a min-priority queue under `CompareTo`. The
    heap array is modelled as a sequence whose order is an implementation
    detail; every contract speaks only of the multiset of pending events and
    of minimality, because the heap does not specify which of several
    equal-key events comes out first. The log callbacks fired on enqueue and
    dequeue are observers only and are not modelled. */
module EventQueues {
  import opened Base
  import opened Events

  datatype Queue = Queue(items: seq<Event>) {

    ghost function Pending(): multiset<Event> {
      multiset(items)
    }

    function Count(): (n: nat)
      ensures n == |Pending()|
    {
      |items|
    }

    function IsEmpty(): (b: bool)
      ensures b <==> Pending() == multiset{}
    {
      |items| == 0
    }
  }

  ghost predicate IsMinimal(e: Event, m: multiset<Event>) {
    e in m && forall x :: x in m ==> NotAfter(e, x)
  }

  /** Index of the first element of `s` that is minimal under `CompareTo`. */
  function MinIndex(s: seq<Event>): (k: nat)
    requires |s| > 0
    ensures k < |s|
    ensures forall j :: 0 <= j < |s| ==> NotAfter(s[k], s[j])
    decreases |s|
  {
    if |s| == 1 then 0
    else
      var k := MinIndex(s[1..]);
      assert s[1..][k] == s[k + 1];
      if NotAfter(s[0], s[k + 1]) then 0 else k + 1
  }

  function EmptyQueue(): (q: Queue)
    ensures q.IsEmpty() && q.Count() == 0
    ensures q.Pending() == multiset{}
  {
    Queue([])
  }

  /** Adds exactly `e`; the count grows by one. */
  function Enqueue(q: Queue, e: Event): (r: Queue)
    ensures r.Pending() == q.Pending() + multiset{e}
    ensures r.Count() == q.Count() + 1
    ensures !r.IsEmpty()
  {
    Queue(q.items + [e])
  }

  /** Enqueues a batch in order. */
  function EnqueueAll(q: Queue, es: seq<Event>): (r: Queue)
    ensures r.Pending() == q.Pending() + multiset(es)
    ensures r.Count() == q.Count() + |es|
  {
    Queue(q.items + es)
  }

  datatype Popped = Popped(event: Event, rest: Queue)

  /** Removes and returns a minimal event; everything else stays. */
  function Dequeue(q: Queue): (p: Popped)
    requires !q.IsEmpty()
    ensures IsMinimal(p.event, q.Pending())
    ensures p.rest.Pending() == q.Pending() - multiset{p.event}
    ensures p.rest.Count() == q.Count() - 1
  {
    var k := MinIndex(q.items);
    var s := q.items;
    assert s == s[..k] + [s[k]] + s[k + 1..];
    assert forall x :: x in multiset(s) ==> exists j :: 0 <= j < |s| && s[j] == x;
    Popped(s[k], Queue(s[..k] + s[k + 1..]))
  }

  /** The time of the event `Dequeue` would return, or +infinity. */
  function NextEventTime(q: Queue): (t: ExtReal)
    ensures q.IsEmpty() <==> t == PosInf
    ensures t.Finite? ==> t.r == Dequeue(q).event.executionTime
    ensures t.Finite? ==> forall x :: x in q.Pending() ==> t.r <= x.executionTime
  {
    if q.IsEmpty() then PosInf else Finite(Dequeue(q).event.executionTime)
  }

  function Clear(q: Queue): (r: Queue)
    ensures r.IsEmpty() && r.Count() == 0 && r.Pending() == multiset{}
  {
    Queue([])
  }

  /** A minimal event carries the least time of all pending events. */
  lemma MinimalHasLeastTime(e: Event, m: multiset<Event>, x: Event)
    requires IsMinimal(e, m) && x in m
    ensures e.executionTime <= x.executionTime
  {
  }

  /** Any two minimal events have the same key: the queue's choice among
      them is the only freedom it has. */
  lemma MinimalUnique(e1: Event, e2: Event, m: multiset<Event>)
    requires IsMinimal(e1, m) && IsMinimal(e2, m)
    ensures SameKey(e1, e2)
  {
    assert NotAfter(e1, e2) && NotAfter(e2, e1);
  }
}
