/** `SimulationManager`'s event loop: dispatch of an event to its handler,
    `RunUntil`, and `Update` with the observers subscribed to the
    "simulation updated" notification. */
module Manager {
  import opened Base
  import opened Config
  import opened Registries
  import opened SimObjects
  import opened Events
  import opened EventQueues
  import opened WorldState
  import TrainMoves
  import TrainSpawns
  import SwitchMoves
  import SwitchTimers
  import SignalChanges
  import Safety
  import Interlocking

  /** `evt.Execute(this)`: the world's clock is already at the event's time.
      No handler touches the clock, the running flag, the settings or the
      queue itself; they only hand back the events to enqueue. */
  function Execute(w: World, e: Event, draw: nat -> real): (o: Outcome)
    requires WF(w)
    ensures WF(o.world)
    ensures o.world.queue == w.queue
    ensures o.world.isRunning == w.isRunning && o.world.currentTime == w.currentTime
    ensures o.world.settings == w.settings
    ensures Sane(w.settings) && (forall i :: draw(i) >= 0.0) ==>
              forall x :: x in o.scheduled ==> x.executionTime >= w.currentTime
  {
    match e.action
    case TrainSpawn => TrainSpawns.SpawnStep(w, draw)
    case TrainMove(h) => TrainMoves.MoveStep(w, h)
    case SwitchMove(id, target, isCompletion) => SwitchMoves.SwitchMoveStep(w, id, target, isCompletion)
    case SwitchTimer => SwitchTimers.TimerStep(w, draw)
    case SignalChange(id, aspect) => SignalChanges.SignalChangeStep(w, id, aspect)
  }

  /** The loop condition of `RunUntil`. */
  predicate Due(w: World, target: real) {
    w.isRunning && !w.queue.IsEmpty() && NextEventTime(w.queue).AtMost(target)
  }

  /** One iteration of the loop: the popped event and the world after it. */
  function StepOnce(w: World, draw: nat -> real): (r: (Event, World))
    requires WF(w) && !w.queue.IsEmpty()
    ensures WF(r.1) && r.1.settings == w.settings && r.1.isRunning == w.isRunning
    ensures IsMinimal(r.0, w.queue.Pending())
    ensures r.1.currentTime == r.0.executionTime
  {
    var p := Dequeue(w.queue);
    var w1 := w.(queue := p.rest, currentTime := p.event.executionTime);
    (p.event, Commit(Execute(w1, p.event, draw)))
  }

  /** The result of a run: the final world, the events processed in order,
      and whether the run stopped because its step budget ran out. */
  datatype Run = Run(world: World, trace: seq<Event>, exhausted: bool)

  /** What a run of at most `fuel` iterations from `w` guarantees: the world
      stays well formed with the same running flag and settings, the budget
      bounds the trace, the loop condition is false unless the budget ran
      out, only due events run, the first one is minimal in the queue, and
      when no handler can schedule into the past the executed times never
      decrease. */
  ghost predicate LoopResult(w: World, target: real, draw: nat -> real, fuel: nat, r: Run) {
    && WF(r.world)
    && r.world.isRunning == w.isRunning && r.world.settings == w.settings
    && |r.trace| <= fuel
    && (!r.exhausted ==> !Due(r.world, target))
    && (forall e :: e in r.trace ==> e.executionTime <= target)
    && (|r.trace| > 0 ==> IsMinimal(r.trace[0], w.queue.Pending()))
    && (Sane(w.settings) && (forall i :: draw(i) >= 0.0) && |r.trace| > 0 ==>
          Chain(r.trace, r.trace[0].executionTime))
  }

  /** The `while` loop of `RunUntil`, for at most `fuel` iterations: pop a
      minimal event, set the clock to its time, execute it, enqueue what it
      scheduled. */
  function RunLoop(w: World, target: real, draw: nat -> real, fuel: nat): (r: Run)
    requires WF(w)
    ensures !Due(w, target) ==> r == Run(w, [], false)
    ensures LoopResult(w, target, draw, fuel, r)
    decreases fuel
  {
    if !Due(w, target) then Run(w, [], false)
    else if fuel == 0 then Run(w, [], true)
    else
      var r := RunLoop(StepOnce(w, draw).1, target, draw, fuel - 1);
      StepCase(w, target, draw, fuel, r);
      Run(r.world, [StepOnce(w, draw).0] + r.trace, r.exhausted)
  }

  /** One more iteration in front of the run of the rest: the executed
      event was due and minimal, and nothing pending after it is earlier,
      so the longer run keeps every guarantee. */
  lemma StepCase(w: World, target: real, draw: nat -> real, fuel: nat, r: Run)
    requires WF(w) && Due(w, target) && fuel > 0
    requires LoopResult(StepOnce(w, draw).1, target, draw, fuel - 1, r)
    ensures LoopResult(w, target, draw, fuel, Run(r.world, [StepOnce(w, draw).0] + r.trace, r.exhausted))
  {
    var e := StepOnce(w, draw).0;
    assert e.executionTime <= target by {
      assert e in w.queue.Pending();
    }
    InCons(e, r.trace);
    TraceExtends(w, draw, r.trace);
  }

  lemma InCons(e: Event, rest: seq<Event>)
    ensures forall x :: x in [e] + rest <==> x == e || x in rest
  {
  }

  /** One more iteration in front of an ordered remainder of the run keeps
      the trace ordered: the remainder starts with an event that was minimal
      after the step, and nothing pending after the step is earlier than the
      executed event. */
  lemma TraceExtends(w: World, draw: nat -> real, rest: seq<Event>)
    requires WF(w) && !w.queue.IsEmpty()
    ensures Sane(w.settings) && (forall i :: draw(i) >= 0.0)
            && (|rest| > 0 ==> IsMinimal(rest[0], StepOnce(w, draw).1.queue.Pending())
                               && Chain(rest, rest[0].executionTime))
            ==> Chain([StepOnce(w, draw).0] + rest, StepOnce(w, draw).0.executionTime)
  {
    if Sane(w.settings) && (forall i :: draw(i) >= 0.0)
       && (|rest| > 0 ==> IsMinimal(rest[0], StepOnce(w, draw).1.queue.Pending())
                          && Chain(rest, rest[0].executionTime)) {
      var e := StepOnce(w, draw).0;
      if |rest| > 0 {
        StepKeepsLowerBound(w, draw);
        assert e.executionTime <= rest[0].executionTime;
      }
      ChainCons(e, rest, e.executionTime);
    }
  }

  /** `RunUntil(target)`: run the loop, then set the clock to `target`
      whatever happened. Not running: no event is executed. */
  function RunUntil(w: World, target: real, draw: nat -> real, fuel: nat): (r: Run)
    requires WF(w)
    ensures WF(r.world)
    ensures r.world.currentTime == target
    ensures r.world.isRunning == w.isRunning
    ensures !w.isRunning ==> r.trace == [] && r.world == w.(currentTime := target)
    ensures forall e :: e in r.trace ==> e.executionTime <= target
    ensures r.world.isRunning && !r.exhausted ==>
              r.world.queue.IsEmpty() || !NextEventTime(r.world.queue).AtMost(target)
  {
    var l := RunLoop(w, target, draw, fuel);
    Run(l.world.(currentTime := target), l.trace, l.exhausted)
  }

  predicate Sorted(es: seq<Event>) {
    forall i, j :: 0 <= i < j < |es| ==> es[i].executionTime <= es[j].executionTime
  }

  /** The times of `es` never decrease, starting from `lo`: the shape of a
      trace, one event at a time. */
  ghost predicate Chain(es: seq<Event>, lo: real)
    decreases |es|
  {
    |es| == 0 || (lo <= es[0].executionTime && Chain(es[1..], es[0].executionTime))
  }

  /** After one iteration nothing pending is earlier than the event just
      processed: the rest of the queue was no earlier, and every handler
      schedules at or after the clock. */
  lemma StepKeepsLowerBound(w: World, draw: nat -> real)
    requires WF(w) && !w.queue.IsEmpty()
    requires Sane(w.settings) && forall i :: draw(i) >= 0.0
    ensures forall x :: x in StepOnce(w, draw).1.queue.Pending() ==>
              StepOnce(w, draw).0.executionTime <= x.executionTime
  {
    var p := Dequeue(w.queue);
    var t := p.event.executionTime;
    var w1 := w.(queue := p.rest, currentTime := t);
    var o := Execute(w1, p.event, draw);
    forall x | x in p.rest.Pending() ensures t <= x.executionTime {
      assert x in w.queue.Pending();
    }
    BoundOfUnion(p.rest.Pending(), o.scheduled, t);
  }

  lemma BoundOfUnion(m: multiset<Event>, s: seq<Event>, t: real)
    requires forall x :: x in m ==> t <= x.executionTime
    requires forall x :: x in s ==> t <= x.executionTime
    ensures forall x :: x in m + multiset(s) ==> t <= x.executionTime
  {
  }

  lemma ChainCons(e: Event, rest: seq<Event>, lo: real)
    requires lo <= e.executionTime && Chain(rest, e.executionTime)
    ensures Chain([e] + rest, lo)
  {
    assert ([e] + rest)[1..] == rest;
  }

  /** A chain is sorted, and no element is earlier than its start. */
  lemma {:induction false} ChainSorted(es: seq<Event>, lo: real)
    requires Chain(es, lo)
    ensures Sorted(es)
    ensures forall x :: x in es ==> lo <= x.executionTime
    decreases |es|
  {
    if |es| > 0 {
      var rest := es[1..];
      ChainSorted(rest, es[0].executionTime);
      assert es == [es[0]] + rest;
      forall i, j | 0 <= i < j < |es| ensures es[i].executionTime <= es[j].executionTime {
        assert es[j] == rest[j - 1];
        if i > 0 {
          assert es[i] == rest[i - 1];
        }
      }
    }
  }

  /** The processed events of a run come out in time order. */
  lemma RunUntilSorted(w: World, target: real, draw: nat -> real, fuel: nat)
    requires WF(w) && Sane(w.settings) && forall i :: draw(i) >= 0.0
    ensures Sorted(RunUntil(w, target, draw, fuel).trace)
  {
    var tr := RunLoop(w, target, draw, fuel).trace;
    if |tr| > 0 {
      ChainSorted(tr, tr[0].executionTime);
    }
  }

  /** The handlers subscribed to the "simulation updated" notification. */
  datatype Observer = InterlockingUpdate | SafetyCheck

  function Notify(w: World, obs: seq<Observer>): (r: World)
    requires WF(w)
    ensures WF(r)
    ensures r.queue == w.queue && r.currentTime == w.currentTime && r.trains == w.trains
    decreases |obs|
  {
    if |obs| == 0 then w
    else
      var w1 := match obs[0]
        case InterlockingUpdate => Interlocking.Update(w)
        case SafetyCheck => Safety.CheckSafety(w);
      Notify(w1, obs[1..])
  }

  /** `Update`: nothing when not running; otherwise the (empty) event
      processing step and then the observers in subscription order. It never
      advances the clock or touches the queue. */
  function Update(w: World, obs: seq<Observer>): (r: World)
    requires WF(w)
    ensures WF(r)
    ensures !w.isRunning ==> r == w
    ensures w.isRunning ==> r == Notify(w, obs)
    ensures r.queue == w.queue && r.currentTime == w.currentTime
  {
    if !w.isRunning then w else Notify(w, obs)
  }

  /** With the interlocking subscribed, a running world shows Proceed on
      every signal after `Update`. */
  lemma UpdateClearsSignals(w: World)
    requires WF(w) && w.isRunning
    ensures Interlocking.AllProceed(Update(w, [InterlockingUpdate]).signals)
  {
    var w1 := Interlocking.Update(w);
    assert Notify(w, [InterlockingUpdate]) == Notify(w1, []);
  }
}
