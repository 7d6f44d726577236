# Railml.Sim.Core discrete-event engine, modelled in Dafny

This project models the discrete-event simulation engine of `Railml.Sim.Core`
as pure state transitions over one immutable world record, and proves
properties of it. The engine simulates trains on a RailML track layout.

The world (`WorldState.World`) holds:

- the three registries of tracks, switches and signals, keyed by id and
  enumerated in insertion order as the engine's dictionaries are;
- the train objects, kept in an arena addressed by handles (the engine
  compares trains by reference), and the `Trains` list of handles;
- the clock, the running flag and the pending-event queue;
- two logs for hooks whose code is not part of this model: the signals a
  train reported waiting at, and the accidents reported;
- a counter of random draws consumed.

`WorldState.WF` is the world invariant:

- the registries are consistent;
- every train in the list stands on a registered track;
- every occupant is an allocated train.

`InitializeWorld` establishes it and every operation preserves it. The
operations require it because the engine dereferences a train's current
track without a null check.

Each event handler takes the world to an `Outcome`: the new world, plus the
events it enqueues in order. `Manager.Execute` dispatches an event to its
handler. `Manager.RunUntil` is the run loop.

Modules follow the source layout:

| module | covers |
|---|---|
| `Events` | events and their (time, priority) order |
| `EventQueues` | the min-priority queue |
| `WorldState` | registry building, `Start`, `Stop`, `AddTrain`, `RemoveTrain` |
| `TrainMoves` | train kinematics on one track |
| `TrainSpawns` | spawning trains |
| `SwitchMoves` | the switch state machine |
| `SwitchTimers` | the global switch-toggle timer |
| `SignalChanges` | setting a signal's aspect |
| `Safety` | the safety monitor |
| `Interlocking` | the interlocking stub |
| `Manager` | dispatch, the run loop and `Update` |
| `SimObjects`, `Config` | the entity records and settings |
| `SimUtils`, `Digits` | the time formatter |
| `Base`, `Registries` | helpers |

Two random quantities use a draw oracle `draw: nat -> real`: the spawn
interval and the switch-timer delay. The i-th draw of a run is `draw(i)`.
It stands for one unit exponential sample, `-ln U` for a uniform `U`. Each
handler scales it by its own mean:

- the spawn interval by the mean inter-arrival time (`SpawnInterval`);
- the timer delay by the switch transition time, raised to 0.1 when below
  (`TimerMean`, `TimerDelay`).

Where the engine's behaviour and its design notes differ, the model follows
the code:

- Spawning ignores `TrainSpawnUp`, `TrainSpawnDown` and `DefaultDirection`.
  It always uses the first track whose begin node has an open end, and the
  track's main direction.
- `RunUntil` never runs the safety monitor or the interlocking. Both are
  subscribed only to the notification raised by `Update`, which
  `Manager.Update` models with an explicit list of observers.
- `Start` does not check whether the run is already running.

## Model

| member | source | states |
|---|---|---|
| Events.NewEvent | Railml.Sim.Core/Events/DESEvent.cs:7-13 | an event keeps the execution time it was built with, and its priority is the default 0 |
| Events.CompareTo | Railml.Sim.Core/Events/DESEvent.cs:19-24 | the result is -1, 0 or 1: negative exactly when the first event is lexicographically earlier on (time, priority), positive exactly when the second is, and 0 exactly when both keys are equal (no insertion-order tie-break) |
| Events.TimeDominates | Railml.Sim.Core/Events/DESEvent.cs:21-22 | an earlier execution time orders first whatever the priorities |
| Events.PriorityBreaksTies | Railml.Sim.Core/Events/DESEvent.cs:23 | at equal times the comparison is the comparison of priorities |
| Events.CompareIsTotalPreorder | Railml.Sim.Core/Events/DESEvent.cs:19-24 | the order is reflexive, total and transitive, and swapping the arguments negates the result |
| Events.SameKeyIndistinguishable | Railml.Sim.Core/Events/DESEvent.cs:19-24 | two events that compare equal compare the same way against every third event |
| EventQueues.Queue.Count | Railml.Sim.Core/Events/EventQueue.cs:34 | the count is the size of the pending multiset |
| EventQueues.Queue.IsEmpty | Railml.Sim.Core/Events/EventQueue.cs:30 | the queue is empty exactly when nothing is pending |
| EventQueues.MinIndex | Railml.Sim.Core/Events/EventQueue.cs:22-24 | the chosen position holds an event no later than any other pending event |
| EventQueues.EmptyQueue | Railml.Sim.Core/Events/EventQueue.cs:8 | a new queue has nothing pending and a count of 0 |
| EventQueues.Enqueue | Railml.Sim.Core/Events/EventQueue.cs:15-20 | exactly the given event is added to the pending multiset, and the count grows by one |
| EventQueues.EnqueueAll | Railml.Sim.Core/Events/EventQueue.cs:15-20 | enqueuing a batch adds exactly its events, and the count grows by the batch size |
| EventQueues.Dequeue | Railml.Sim.Core/Events/EventQueue.cs:22-28 | on a non-empty queue, the returned event is minimal under the order, and only that one occurrence is removed |
| EventQueues.NextEventTime | Railml.Sim.Core/Events/EventQueue.cs:32 | +infinity exactly when empty; otherwise the time of the event a dequeue returns, which is no later than any pending time |
| EventQueues.Clear | Railml.Sim.Core/Events/EventQueue.cs:36-39 | afterwards nothing is pending |
| EventQueues.MinimalHasLeastTime | Railml.Sim.Core/Events/EventQueue.cs:32 | a minimal event's time is a lower bound of all pending times |
| EventQueues.MinimalUnique | Railml.Sim.Core/Events/EventQueue.cs:22-24 | any two minimal events have the same key, so a choice between equal-key events is the heap's only freedom |
| Registries.PutAll | Railml.Sim.Core/SimulationManager.cs:39-42 | storing pairs with the dictionary indexer keeps the registry consistent; the enumeration order is the old keys followed by each new key at its first appearance; keys that are not written keep their values |
| Registries.PutAllLastWins | Railml.Sim.Core/SimulationManager.cs:64-67 | with the indexer, the value stored for a key is the one from its last pair |
| Registries.PutAllIfAbsent | Railml.Sim.Core/SimulationManager.cs:52-58 | storing only absent keys keeps every existing value; the enumeration order is the old keys followed by each new key at its first appearance |
| Registries.PutAllIfAbsentFirstWins | Railml.Sim.Core/SimulationManager.cs:54-57 | the value stored for a new key is the one from its first pair |
| WorldState.BuildTracks | Railml.Sim.Core/SimulationManager.cs:39-42 | one track per distinct id, enumerated in the order of first appearance, the last description winning; no track has occupants |
| WorldState.TrackPairsKeys | Railml.Sim.Core/SimulationManager.cs:39-42 | the track registry's keys are exactly the ids of the described tracks |
| WorldState.BuildSwitches | Railml.Sim.Core/SimulationManager.cs:44-59 | one switch per distinct id over all tracks, enumerated in the order of first appearance; a duplicate id keeps the first switch seen |
| WorldState.BuildSignals | Railml.Sim.Core/SimulationManager.cs:61-68 | one signal per distinct id over all tracks, enumerated in the order of first appearance; a duplicate id keeps the last signal seen |
| WorldState.InitializeWorld | Railml.Sim.Core/SimulationManager.cs:36-69 | the three registries are the built ones; the clock is 0, nothing is running or pending, there are no trains or accidents, the settings are kept, and the world is well formed |
| WorldState.Start | Railml.Sim.Core/SimulationManager.cs:117-122 | sets the running flag and adds exactly one spawn event at the current time + 1.0; nothing else changes |
| WorldState.Stop | Railml.Sim.Core/SimulationManager.cs:124-127 | clears the running flag only; the queue and everything else are untouched |
| WorldState.Allocate | Railml.Sim.Core/Events/TrainSpawnEvent.cs:13 | a new train object gets a handle not used before |
| WorldState.AddTrain | Railml.Sim.Core/SimulationManager.cs:166-170 | the train is appended to the train list and nothing else changes; a placed train keeps the world well formed |
| Base.RemoveFirst | Railml.Sim.Core/SimulationManager.cs:174 | `List.Remove` on an absent element leaves the list unchanged; on a present one the list is one shorter and gains nothing |
| Base.RemoveFirstSplits | Railml.Sim.Core/SimulationManager.cs:174 | when present, the result is the list with its first occurrence of the element cut out, everything else in order |
| Base.RemoveFirstMultiset | Railml.Sim.Core/SimulationManager.cs:174 | the multiset of the list loses exactly one copy of the element |
| WorldState.RemoveOccupant | Railml.Sim.Core/SimulationManager.cs:176 | the train leaves the occupant list of its current track only; other tracks are untouched |
| WorldState.RemoveTrain | Railml.Sim.Core/SimulationManager.cs:172-178 | the first occurrence of the train leaves the train list, and the train leaves its current track's occupants only |
| WorldState.RemoveTrainKeepsWF | Railml.Sim.Core/SimulationManager.cs:172-178 | removing a train keeps the world well formed |
| SimObjects.SimTrack.Length | Railml.Sim.Core/SimObjects/SimTrack.cs:17 | the length is end position minus begin position, unclamped |
| SimObjects.NewTrack | Railml.Sim.Core/SimObjects/SimTrack.cs:9-17 | a new track has no occupants, and its length is end minus begin |
| SimObjects.NewSwitch | Railml.Sim.Core/SimObjects/SimSwitch.cs:19-33 | a new switch is Normal with target Normal, start time 0 and duration 10; the course is the continue course, or "Straight" when absent |
| SimObjects.NewSignal | Railml.Sim.Core/SimObjects/SimSignal.cs:13-19 | a new signal shows Proceed and wraps the given record |
| SimObjects.NewTrain | Railml.Sim.Core/SimObjects/Train.cs:7-42 | length, cap and braking come from the settings; the train is at rest, heading Up, not waiting, on no track, with no occupied tracks, and Stopped |
| Config.Defaults | Railml.Sim.Core/Configuration/SimulationSettings.cs:8-31 | the default values: 300 s mean interval, 200 m length, 20 m/s, 1.0 and 1.5 m/s^2 braking, 500 m recognition, 1.0 s step, direction Up, 10 s transition, both spawn flags on |
| TrainMoves.DistanceAhead | Railml.Sim.Core/Events/TrainMoveEvent.cs:71-81 | a distance exists only for a signal strictly ahead in the travel direction, and it is positive |
| TrainMoves.Sighted | Railml.Sim.Core/Events/TrainMoveEvent.cs:63-86 | a signal is heeded exactly when its direction tag matches, it is strictly ahead within the recognition distance, and it is registered |
| TrainMoves.ScanOne | Railml.Sim.Core/Events/TrainMoveEvent.cs:60-133 | an unheeded signal changes nothing; a red one within 1 m, or met at under 0.01 m/s, stops the train and starts a wait, which is reported only when it begins; a farther red one brakes, floored at 0; a green one clears the wait |
| TrainMoves.ScanSignals | Railml.Sim.Core/Events/TrainMoveEvent.cs:58-134 | over all signals, speed never rises or turns negative, reports only grow, and a new wait implies braking |
| TrainMoves.ClampToTrack | Railml.Sim.Core/Events/TrainMoveEvent.cs:24-50 | past an end the train is parked on the boundary at speed 0; otherwise it advances by speed times dt; a position on the track stays on it |
| TrainMoves.TrackScan | Railml.Sim.Core/Events/TrainMoveEvent.cs:58 | the signals are looked at only when the train's track is occupied |
| TrainMoves.Accelerate | Railml.Sim.Core/Events/TrainMoveEvent.cs:136-140 | below the cap, speed grows by 0.5 times dt and is capped; at or above the cap it is unchanged |
| TrainMoves.MoveTrain | Railml.Sim.Core/Events/TrainMoveEvent.cs:20-140 | only position, speed and the waiting flag change; the track end is reached exactly when the advance overshoots; position stays in range, and speed stays at or above 0 and at or below the cap; no acceleration while braking or waiting |
| TrainMoves.OnlyHeededSignalsMatter | Railml.Sim.Core/Events/TrainMoveEvent.cs:63-83 | dropping every signal that is not heeded leaves the scan's outcome unchanged |
| TrainMoves.WaitReportedOnce | Railml.Sim.Core/Events/TrainMoveEvent.cs:101-107 | a waiting train that sees no green signal stays waiting and reports nothing more |
| TrainMoves.RedAfterGreenReportsAgain | Railml.Sim.Core/Events/TrainMoveEvent.cs:96-129 | a heeded green signal followed by a red one within 1 m leaves the train waiting and reports the red one, even when it was already waiting |
| TrainMoves.RedBeforeGreenReportsAgain | Railml.Sim.Core/Events/TrainMoveEvent.cs:96-129 | a red signal within 1 m followed by a heeded green one reports the red one unless already waiting, and leaves the train not waiting, so the next step reports it again |
| TrainMoves.EndOfTrackRests | Railml.Sim.Core/Events/TrainMoveEvent.cs:40-49 | a train that overshoots an end is at rest after the step |
| TrainMoves.NextMoveDelay | Railml.Sim.Core/Events/TrainMoveEvent.cs:151 | the next move comes 1.0 s later at speed at most 0.001, otherwise one movement step later |
| TrainMoves.MoveStep | Railml.Sim.Core/Events/TrainMoveEvent.cs:15-153 | a move for a train not in the list changes nothing and schedules nothing; otherwise only that train and the report log change, and a next move is scheduled unless the train stopped at an end |
| TrainSpawns.FirstOpenBegin | Railml.Sim.Core/Events/TrainSpawnEvent.cs:26-29 | the first track, in registry order, whose begin node has an open end, or none when no track has one |
| TrainSpawns.RoundHalfAway | Railml.Sim.Core/Events/TrainSpawnEvent.cs:12 | the rounded value lies within half a unit of the input |
| TrainSpawns.TrainName | Railml.Sim.Core/Events/TrainSpawnEvent.cs:12 | the name is "T_" (with a minus for a negative clock) followed by decimal digits that read back to the clock rounded half away from zero |
| TrainSpawns.SpawnDirection | Railml.Sim.Core/Events/TrainSpawnEvent.cs:33 | Up exactly when the track's main direction is "up" |
| TrainSpawns.PlaceOn | Railml.Sim.Core/Events/TrainSpawnEvent.cs:13-42 | a fresh train at position 0 of the chosen track is appended to the train list and to that track's occupants, and its first move is one movement step from now |
| TrainSpawns.PlaceOnKeepsWF | Railml.Sim.Core/Events/TrainSpawnEvent.cs:31-39 | placing the train keeps the world well formed |
| TrainSpawns.Place | Railml.Sim.Core/Events/TrainSpawnEvent.cs:26-45 | at most one train is placed; with no open begin nothing changes and nothing is scheduled |
| TrainSpawns.SpawnInterval | Railml.Sim.Core/Events/TrainSpawnEvent.cs:49-51 | the interval is the unit draw times the mean inter-arrival time: non-negative for a non-negative mean and draw, and exactly the mean for a unit draw |
| TrainSpawns.SpawnStep | Railml.Sim.Core/Events/TrainSpawnEvent.cs:9-53 | the placement, then one next spawn `SpawnInterval` after now; at most one train is added; under sane settings nothing is scheduled in the past |
| TrainSpawns.ZeroMeanSpawnsAtOnce | Railml.Sim.Core/Events/TrainSpawnEvent.cs:50-52 | with a zero mean inter-arrival time the next spawn is due at the current time again, whatever the draw, and the clock does not move |
| TrainSpawns.OneNextSpawn | Railml.Sim.Core/Events/TrainSpawnEvent.cs:50-52 | exactly one spawn event is scheduled, whether or not a train was placed |
| SwitchMoves.Command | Railml.Sim.Core/Events/SwitchMoveEvent.cs:29-37 | a command leaves the switch Moving toward the target; if it was already moving there nothing changes; otherwise start time and duration are reset, even when the switch already rests in the target |
| SwitchMoves.Complete | Railml.Sim.Core/Events/SwitchMoveEvent.cs:48-50 | completion settles the target only while still moving toward it, else it is a no-op |
| SwitchMoves.CompletionOfLatestCommandSettles | Railml.Sim.Core/Events/SwitchMoveEvent.cs:29-50 | the completion of the latest command leaves the switch in its target |
| SwitchMoves.LaterCommandSupersedes | Railml.Sim.Core/Events/SwitchMoveEvent.cs:29-50 | after a later command with another target, the earlier completion is a no-op, the switch stays Moving, and the later completion settles it |
| SwitchMoves.SwitchMoveStep | Railml.Sim.Core/Events/SwitchMoveEvent.cs:20-57 | only the addressed switch changes; a completion schedules nothing; a redundant command is a no-op; any other command schedules exactly one completion for the same switch and target one transition time later |
| SwitchTimers.Toggle | Railml.Sim.Core/Events/SwitchTimerEvent.cs:39 | the target is never Moving, and it is Reverse exactly when the switch is Normal |
| SwitchTimers.TimerMean | Railml.Sim.Core/Events/SwitchTimerEvent.cs:15-18 | the mean is at least 0.1 and at least the configured value, and equals the configured value from 0.1 up |
| SwitchTimers.TimerDelay | Railml.Sim.Core/Events/SwitchTimerEvent.cs:15-25 | the delay scales the unit draw by the clamped switch transition time: for a non-negative draw it is at least 0.1 and at least the transition time times the draw, and exactly the transition time times the draw from 0.1 up |
| SwitchTimers.ToggleCommands | Railml.Sim.Core/Events/SwitchTimerEvent.cs:34-43 | one command per switch, in registry order, all at the current time with priority 0 and not a completion; each targets Reverse exactly when its switch is Normal, and never Moving |
| SwitchTimers.TimerStep | Railml.Sim.Core/Events/SwitchTimerEvent.cs:28-49 | no switch changes directly; the commands come first, all at now and never toward Moving, then exactly one next timer event `TimerDelay` of the switch transition time after now; a non-negative draw schedules nothing in the past |
| SwitchTimers.NoSwitchesOnlyRearms | Railml.Sim.Core/Events/SwitchTimerEvent.cs:34-48 | with no switches, only the next timer event is scheduled |
| SignalChanges.SignalChangeStep | Railml.Sim.Core/Events/SignalChangeEvent.cs:16-21 | the target signal's aspect becomes the new one, nothing else changes and nothing is scheduled |
| SignalChanges.SignalChangeIdempotent | Railml.Sim.Core/Events/SignalChangeEvent.cs:18 | the aspect afterwards is the new one whatever it was, and applying the change twice equals applying it once |
| Safety.FirstCrowded | Railml.Sim.Core/SafetyMonitor.cs:20-22 | the first track in registry order with more than one occupant, or none when no track has more than one |
| Safety.FirstEndangered | Railml.Sim.Core/SafetyMonitor.cs:41-46 | the first Moving switch whose parent track exists and is occupied, or none |
| Safety.Classify | Railml.Sim.Core/SafetyMonitor.cs:28 | rear-end exactly when the two trains travel the same way, head-on otherwise |
| Safety.TriggerAccident | Railml.Sim.Core/SafetyMonitor.cs:60-64 | the run stops and exactly one report is appended |
| Safety.Violation | Railml.Sim.Core/SafetyMonitor.cs:17-58 | the first crowded track yields a collision between its first two occupants; only with no crowded track does the first endangered switch yield a derailment of its parent track's first occupant |
| Safety.CheckSafety | Railml.Sim.Core/SafetyMonitor.cs:17-58 | with no violation nothing changes; with one, the run stops and exactly the report of the first violation found is appended; nothing else changes |
| Safety.CollisionReportedFirst | Railml.Sim.Core/SafetyMonitor.cs:20-37 | when some track is crowded, the reported accident is a collision |
| Safety.DerailmentReportedWhenNoCollision | Railml.Sim.Core/SafetyMonitor.cs:40-57 | with no crowded track and some endangered switch, the run stops and a derailment at the first endangered switch in registry order is recorded, naming the first occupant of its parent track |
| Safety.OpposingTrainsCollideHeadOn | Railml.Sim.Core/SafetyMonitor.cs:25-36 | two trains travelling opposite ways on the only crowded track give a head-on collision report and stop the run |
| Interlocking.AllToProceed | Railml.Sim.Core/InterlockingSystem.cs:39-54 | every signal shows Proceed, and signal records and keys are unchanged |
| Interlocking.Update | Railml.Sim.Core/InterlockingSystem.cs:17-54 | only signal aspects change, and all become Proceed |
| Interlocking.UpdateIdempotent | Railml.Sim.Core/InterlockingSystem.cs:53 | updating twice equals updating once |
| Interlocking.RequestSwitch | Railml.Sim.Core/InterlockingSystem.cs:58-69 | always granted; only the course changes, never the switch state |
| Manager.Execute | Railml.Sim.Core/SimulationManager.cs:161 | no handler touches the clock, the running flag, the settings or the queue, and the world stays well formed; under sane settings and non-negative draws every scheduled event is at or after the clock |
| Manager.StepOnce | Railml.Sim.Core/SimulationManager.cs:159-161 | one iteration pops a minimal event and sets the clock to that event's time before executing it |
| Manager.RunLoop | Railml.Sim.Core/SimulationManager.cs:157-162 | not running or nothing due: nothing is executed; only events due by the target are executed, the first a minimal one; unless the step budget ran out, the loop ends with the run stopped, the queue empty or the next time past the target; under sane settings and non-negative draws the executed times never decrease. Only the first event is stated minimal in the starting queue; each later one is minimal in the queue it was popped from through `StepOnce`, which the contract does not carry along the trace |
| Manager.StepCase | Railml.Sim.Core/SimulationManager.cs:157-162 | one more iteration in front of a run keeps every loop property, including the time order of the trace |
| Manager.TraceExtends | Railml.Sim.Core/SimulationManager.cs:159-161 | the event just executed is no later than the first event of the rest of the run, so the time order extends by one |
| Manager.RunUntil | Railml.Sim.Core/SimulationManager.cs:155-164 | the clock ends at the target unconditionally; when not running no event is executed; if still running and the budget did not run out, the queue is empty or its next time is past the target |
| Manager.StepKeepsLowerBound | Railml.Sim.Core/SimulationManager.cs:159-161 | after one iteration nothing pending is earlier than the event just executed |
| Manager.ChainSorted | Railml.Sim.Core/SimulationManager.cs:157-162 | a trace whose times never decrease step by step is sorted, and no time in it is below its start |
| Manager.RunUntilSorted | Railml.Sim.Core/SimulationManager.cs:155-164 | the events a run executes come out in time order |
| Manager.Notify | Railml.Sim.Core/SimulationManager.cs:133 | the observers run in order; none touches the clock, the queue or the train list, and the world stays well formed |
| Manager.Update | Railml.Sim.Core/SimulationManager.cs:129-134 | not running: nothing changes; otherwise the observers run, and the clock and queue are untouched |
| Manager.UpdateClearsSignals | Railml.Sim.Core/InterlockingSystem.cs:14 | with the interlocking subscribed, every signal shows Proceed after an update of a running world |
| SimUtils.Fields | Railml.Sim.Core/SimUtils.cs:11-14 | minutes and seconds are below 60 and milliseconds below 1000, and the fields recompose to the duration, so hours are total hours and do not wrap at 24 |
| SimUtils.FormatTime | Railml.Sim.Core/SimUtils.cs:7-15 | infinite or NaN input gives "--:--:--.---"; a finite duration gives at least 12 characters that read back to the same duration |
| SimUtils.FormatRoundTrip | Railml.Sim.Core/SimUtils.cs:14 | reading back a formatted duration gives it again |
| SimUtils.FormatZero | Railml.Sim.Core/SimUtils.cs:14 | zero formats as "00:00:00.000" |
| Digits.Pad | Railml.Sim.Core/SimUtils.cs:14 | the D-width format pads to at least the width, with digits only |
| Digits.PadRoundTrip | Railml.Sim.Core/SimUtils.cs:14 | the padded rendering denotes the number again |

## Left out

- User interface, rendering, view models and the legacy `Railml.Simulation.Core` engine are not part of this model.
- The XML binding records are not modelled. Only the fields the engine reads are kept: track id, name, main direction, begin and end nodes, switches and signals.
- Loading and saving settings as JSON is file I/O and is not modelled.
- Log callbacks of the queue, the queue's own clock and log entries are not modelled. They are observers only and do not change the queue.
- `LambdaEvent` is not modelled: it runs an arbitrary closure. `TopologyException` is never thrown in the engine.
- The uniform sample and its logarithm are replaced by the draw oracle, which gives the unit exponential sample directly. The clamp of a zero uniform sample to 1e-7 in the timer is part of that draw. The spawn interval has no such clamp in the engine, and a zero sample there would give an infinite interval.
- IEEE-754 doubles, NaN, overflow and rounding are not modelled: all quantities are exact reals. `FormatTime` takes whole milliseconds, and the double-to-TimeSpan conversion is left out.
- SimUtils.FormatTime: negative durations are not modelled (`Millis` holds a `nat`). The engine formats them with a sign on every field, so -1.5 s gives "00:00:-01.-500", which no formatted non-negative duration looks like.
- The `double.MaxValue` distance for a signal that is not ahead is modelled as "no distance". The two differ only if the recognition distance is at least `double.MaxValue`.
- A track begin or end node may be missing in RailML. That null case is not modelled: every track has both nodes.
- The screen positions read from the visualisation part of the RailML file are not modelled. They play no part in length, occupancy or any event.
- The code for the switch's parent track, the interlocking's waiting-at-signal report and the accident report is not part of this model. They appear as an optional parent-track id, a log of reported signal ids and a log of accidents.
- Events refer to switches and signals by id, not by reference. An id that is not registered makes the event a no-op; the engine cannot reach that case.
- The queue model is first-in, first-out among events with equal keys: `Dequeue` returns the earliest-inserted minimal event. The engine's heap does not keep insertion order among equal keys, so the contracts promise only that some minimal event is returned.
- Manager.RunUntil: the loop carries a step budget (`fuel`), because the engine's loop need not terminate with the settings fixed: with a zero mean inter-arrival time every spawn schedules the next one at the same instant (`TrainSpawns.ZeroMeanSpawnsAtOnce`). A run that uses up its budget is flagged as exhausted, and the end-of-loop property is only claimed for runs that were not exhausted.
- Manager.Update: the engine's event-processing step inside `Update` has an empty body. The order in which the monitor and the interlocking subscribe is not fixed by the engine, so it is a parameter.
- Train names: the fixed-point format of the clock is modelled as rounding half away from zero, with a leading minus for a negative clock. Culture-specific number formatting is not modelled.
- TrainMoves.WaitReportedOnce: the wait is reported once only while no heeded signal shows Proceed. A heeded green signal in range clears the waiting flag, so a red signal within 1 m is reported again on every step (`RedAfterGreenReportsAgain`, `RedBeforeGreenReportsAgain`); the engine behaves the same way.
- The train's `OccupiedTracks`, `WaitingSignal` and `State` fields are kept at their initial values: the engine never changes them.
