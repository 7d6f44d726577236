/** The world record the event handlers transform: the registries of tracks,
    switches and signals (built once from the topology), the arena of train
    objects with the `Trains` list of live trains, the clock, the running
    flag and the pending-event queue. Two logs stand for calls into code that
    is not part of this model: the interlocking's "train waiting at signal"
    report and the manager's accident report. */
module WorldState {
  import opened Base
  import opened Config
  import opened Registries
  import opened SimObjects
  import opened Events
  import opened EventQueues

  datatype CollisionKind = RearEnd | HeadOn

  /** The content of an accident report: the offending entities. The
      human-readable text assembled from them is not modelled. */
  datatype Accident =
    | Collision(kind: CollisionKind, trackId: string, first: TrainHandle, second: TrainHandle)
    | Derailment(switchId: string, train: TrainHandle)

  datatype World = World(
    settings: Settings,
    tracks: Registry<SimTrack>,
    switches: Registry<SimSwitch>,
    signals: Registry<SimSignal>,
    arena: map<TrainHandle, Train>,
    trains: seq<TrainHandle>,
    nextHandle: TrainHandle,
    currentTime: real,
    isRunning: bool,
    queue: Queue,
    waitingReports: seq<string>,
    accidents: seq<Accident>,
    draws: nat)

  /** The train object exists and stands on a registered track. */
  ghost predicate Placed(w: World, h: TrainHandle) {
    && h in w.arena
    && w.arena[h].currentTrack.Some?
    && w.arena[h].currentTrack.value in w.tracks.entries
  }

  /** Reference validity: every handle names an allocated train, every live
      train stands on a registered track, and fresh handles are above all
      allocated ones. */
  ghost predicate WF(w: World) {
    && w.tracks.Valid() && w.switches.Valid() && w.signals.Valid()
    && (forall h :: h in w.trains ==> Placed(w, h))
    && (forall id, h :: id in w.tracks.entries && h in w.tracks.entries[id].occupants ==> h in w.arena)
    && (forall h :: h in w.arena ==> h < w.nextHandle)
  }

  /** What a handler produces: the new world (queue untouched) and the
      events it schedules, in the order it enqueues them. */
  datatype Outcome = Outcome(world: World, scheduled: seq<Event>)

  /** Enqueues what a handler scheduled; only the queue changes. */
  function Commit(o: Outcome): (r: World)
    ensures r.(queue := o.world.queue) == o.world
    ensures r.queue.Pending() == o.world.queue.Pending() + multiset(o.scheduled)
    ensures WF(o.world) ==> WF(r)
  {
    o.world.(queue := EnqueueAll(o.world.queue, o.scheduled))
  }

  // ---------------------------------------------------------------------
  // Registry building from the topology

  datatype SwitchDesc = SwitchDesc(id: string, trackContinueCourse: Option<string>, parentTrack: Option<string>)

  /** The part of a RailML `<track>` the engine reads. */
  datatype TrackDesc = TrackDesc(
    id: string, name: string, mainDir: string,
    trackBegin: TrackNode, trackEnd: TrackNode,
    switches: seq<SwitchDesc>, signals: seq<SignalMeta>)

  function TrackOf(d: TrackDesc): SimTrack {
    NewTrack(d.id, d.name, d.mainDir, d.trackBegin, d.trackEnd, d.signals)
  }

  function TrackPairs(ds: seq<TrackDesc>): (kvs: seq<(string, SimTrack)>)
    ensures |kvs| == |ds|
    ensures forall i :: 0 <= i < |ds| ==> kvs[i] == (ds[i].id, TrackOf(ds[i]))
  {
    seq(|ds|, i requires 0 <= i < |ds| => (ds[i].id, TrackOf(ds[i])))
  }

  /** Every switch of every track, tracks in order. */
  function SwitchPairs(ds: seq<TrackDesc>): seq<(string, SimSwitch)> {
    if |ds| == 0 then []
    else
      seq(|ds[0].switches|, j requires 0 <= j < |ds[0].switches| =>
        (ds[0].switches[j].id,
         NewSwitch(ds[0].switches[j].id, ds[0].switches[j].trackContinueCourse, ds[0].switches[j].parentTrack)))
      + SwitchPairs(ds[1..])
  }

  /** Every signal of every track, tracks in order. */
  function SignalPairs(ds: seq<TrackDesc>): seq<(string, SimSignal)> {
    if |ds| == 0 then []
    else
      seq(|ds[0].signals|, j requires 0 <= j < |ds[0].signals| => (ds[0].signals[j].id, NewSignal(ds[0].signals[j])))
      + SignalPairs(ds[1..])
  }

  /** Tracks keyed by id; a later track with a repeated id replaces the
      earlier one. */
  function BuildTracks(ds: seq<TrackDesc>): (r: Registry<SimTrack>)
    ensures r.Valid()
    ensures r.keys == NewKeys([], TrackPairs(ds))
    ensures forall k :: k in r.entries <==> HasKey(TrackPairs(ds), k)
    ensures forall i :: IsLastOccurrence(TrackPairs(ds), i) ==> ds[i].id in r.entries && r.entries[ds[i].id] == TrackOf(ds[i])
    ensures forall k :: k in r.entries ==> !r.entries[k].IsOccupied()
  {
    var tp := TrackPairs(ds);
    var tracks := PutAll(EmptyRegistry(), tp);
    assert tracks.keys == [] + NewKeys([], tp);
    assert forall i :: IsLastOccurrence(tp, i) ==> ds[i].id in tracks.entries && tracks.entries[ds[i].id] == TrackOf(ds[i]) by {
      forall i | IsLastOccurrence(tp, i) ensures ds[i].id in tracks.entries && tracks.entries[ds[i].id] == TrackOf(ds[i]) {
        PutAllLastWins(EmptyRegistry(), tp, i);
      }
    }
    assert forall k :: k in tracks.entries ==> !tracks.entries[k].IsOccupied() by {
      forall k | k in tracks.entries ensures !tracks.entries[k].IsOccupied() {
        BuiltTrackUnoccupied(ds, k);
      }
    }
    tracks
  }

  lemma TrackPairsKeys(ds: seq<TrackDesc>)
    ensures forall k :: HasKey(TrackPairs(ds), k) <==> exists i :: 0 <= i < |ds| && ds[i].id == k
  {
    var tp := TrackPairs(ds);
    forall k ensures HasKey(tp, k) <==> exists i :: 0 <= i < |ds| && ds[i].id == k {
      if HasKey(tp, k) {
        var i :| 0 <= i < |tp| && tp[i].0 == k;
        assert ds[i].id == k;
      }
      if exists i :: 0 <= i < |ds| && ds[i].id == k {
        var i :| 0 <= i < |ds| && ds[i].id == k;
        assert tp[i].0 == k;
      }
    }
  }

  /** A freshly built track has no occupants. */
  lemma BuiltTrackUnoccupied(ds: seq<TrackDesc>, k: string)
    requires k in PutAll(EmptyRegistry(), TrackPairs(ds)).entries
    ensures !PutAll(EmptyRegistry(), TrackPairs(ds)).entries[k].IsOccupied()
  {
    var tp := TrackPairs(ds);
    var i :| 0 <= i < |tp| && tp[i].0 == k;
    LastOccurrenceExists(tp, i);
    var j :| IsLastOccurrence(tp, j) && tp[j].0 == k;
    PutAllLastWins(EmptyRegistry(), tp, j);
    assert tp[j].1 == TrackOf(ds[j]);
  }

  /** From the occurrence at `i`, there is a last occurrence of that key. */
  lemma LastOccurrenceExists<V>(kvs: seq<(string, V)>, i: int)
    requires 0 <= i < |kvs|
    ensures exists j :: IsLastOccurrence(kvs, j) && kvs[j].0 == kvs[i].0
    decreases |kvs| - i
  {
    if !IsLastOccurrence(kvs, i) {
      var j :| i < j < |kvs| && kvs[j].0 == kvs[i].0;
      LastOccurrenceExists(kvs, j);
    }
  }

  /** Switches keyed by id; a repeated id keeps the first switch seen. */
  function BuildSwitches(ds: seq<TrackDesc>): (r: Registry<SimSwitch>)
    ensures r.Valid()
    ensures r.keys == NewKeys([], SwitchPairs(ds))
    ensures forall k :: k in r.entries <==> HasKey(SwitchPairs(ds), k)
    ensures forall i :: IsFirstOccurrence(SwitchPairs(ds), i) ==>
              SwitchPairs(ds)[i].0 in r.entries && r.entries[SwitchPairs(ds)[i].0] == SwitchPairs(ds)[i].1
  {
    var sw := SwitchPairs(ds);
    var switches := PutAllIfAbsent(EmptyRegistry(), sw);
    assert switches.keys == [] + NewKeys([], sw);
    assert forall i :: IsFirstOccurrence(sw, i) ==> sw[i].0 in switches.entries && switches.entries[sw[i].0] == sw[i].1 by {
      forall i | IsFirstOccurrence(sw, i) ensures sw[i].0 in switches.entries && switches.entries[sw[i].0] == sw[i].1 {
        PutAllIfAbsentFirstWins(EmptyRegistry(), sw, i);
      }
    }
    switches
  }

  /** Signals keyed by id; a repeated id keeps the last signal seen. */
  function BuildSignals(ds: seq<TrackDesc>): (r: Registry<SimSignal>)
    ensures r.Valid()
    ensures r.keys == NewKeys([], SignalPairs(ds))
    ensures forall k :: k in r.entries <==> HasKey(SignalPairs(ds), k)
    ensures forall i :: IsLastOccurrence(SignalPairs(ds), i) ==>
              SignalPairs(ds)[i].0 in r.entries && r.entries[SignalPairs(ds)[i].0] == SignalPairs(ds)[i].1
  {
    var sg := SignalPairs(ds);
    var signals := PutAll(EmptyRegistry(), sg);
    assert signals.keys == [] + NewKeys([], sg);
    assert forall i :: IsLastOccurrence(sg, i) ==> sg[i].0 in signals.entries && signals.entries[sg[i].0] == sg[i].1 by {
      forall i | IsLastOccurrence(sg, i) ensures sg[i].0 in signals.entries && signals.entries[sg[i].0] == sg[i].1 {
        PutAllLastWins(EmptyRegistry(), sg, i);
      }
    }
    signals
  }

  /** `InitializeWorld`: the three registries built from the topology.
      Nothing is running, nothing is pending, there are no trains and the
      clock is at 0. */
  function InitializeWorld(ds: seq<TrackDesc>, settings: Settings): (w: World)
    ensures WF(w)
    ensures w.tracks == BuildTracks(ds) && w.switches == BuildSwitches(ds) && w.signals == BuildSignals(ds)
    ensures w.currentTime == 0.0 && !w.isRunning && w.queue.IsEmpty()
    ensures w.trains == [] && w.arena == map[] && w.accidents == [] && w.settings == settings
  {
    World(settings, BuildTracks(ds), BuildSwitches(ds), BuildSignals(ds),
          map[], [], 0, 0.0, false, EmptyQueue(), [], [], 0)
  }

  // ---------------------------------------------------------------------
  // Manager operations on the world

  /** `Start`: sets the running flag and schedules exactly one spawn event
      one second from now. It does not look at whether the run was already
      started, so a second `Start` schedules a second spawn. */
  function Start(w: World): (r: World)
    ensures r.isRunning
    ensures r.queue.Pending() == w.queue.Pending() + multiset{NewEvent(w.currentTime + 1.0, TrainSpawn)}
    ensures r.(isRunning := w.isRunning, queue := w.queue) == w
    ensures WF(w) ==> WF(r)
  {
    w.(isRunning := true, queue := Enqueue(w.queue, NewEvent(w.currentTime + 1.0, TrainSpawn)))
  }

  /** `Stop`: clears the running flag; the queue and everything else stay. */
  function Stop(w: World): (r: World)
    ensures !r.isRunning
    ensures r.queue == w.queue
    ensures r.(isRunning := w.isRunning) == w
    ensures WF(w) ==> WF(r)
  {
    w.(isRunning := false)
  }

  /** Every allocated handle is below the next fresh one. */
  ghost predicate HandlesBelow(w: World) {
    forall h :: h in w.arena ==> h < w.nextHandle
  }

  /** `new Train(...)`: allocates a fresh train object in the arena; the
      object is not yet in `Trains`. */
  function Allocate(w: World, t: Train): (r: (World, TrainHandle))
    requires HandlesBelow(w)
    ensures r.1 !in w.arena && r.0.arena == w.arena[r.1 := t]
    ensures HandlesBelow(r.0)
    ensures r.0.(arena := w.arena, nextHandle := w.nextHandle) == w
  {
    (w.(arena := w.arena[w.nextHandle := t], nextHandle := w.nextHandle + 1), w.nextHandle)
  }

  /** `AddTrain`: appends the train to `Trains`. */
  function AddTrain(w: World, h: TrainHandle): (r: World)
    requires h in w.arena
    ensures r.trains == w.trains + [h]
    ensures r.(trains := w.trains) == w
    ensures WF(w) && Placed(w, h) ==> WF(r)
  {
    w.(trains := w.trains + [h])
  }

  /** Removes `h` from the occupant list of track `cur`, if registered. */
  function RemoveOccupant(tracks: Registry<SimTrack>, cur: Option<string>, h: TrainHandle): (r: Registry<SimTrack>)
    ensures r.keys == tracks.keys && r.entries.Keys == tracks.entries.Keys
    ensures forall k :: k in tracks.entries && cur != Some(k) ==> r.entries[k] == tracks.entries[k]
    ensures forall k :: k in tracks.entries && cur == Some(k) ==>
              r.entries[k] == tracks.entries[k].(occupants := RemoveFirst(tracks.entries[k].occupants, h))
  {
    if cur.Some? && cur.value in tracks.entries then
      var t := tracks.entries[cur.value];
      tracks.Update(cur.value, t.(occupants := RemoveFirst(t.occupants, h)))
    else tracks
  }

  /** `RemoveTrain`: removes the train from `Trains` and from the occupant
      list of its current track only; other tracks keep listing it. */
  function RemoveTrain(w: World, h: TrainHandle): (r: World)
    requires h in w.arena
    ensures r.trains == RemoveFirst(w.trains, h)
    ensures r.tracks.keys == w.tracks.keys && r.tracks.entries.Keys == w.tracks.entries.Keys
    ensures forall k :: k in w.tracks.entries && w.arena[h].currentTrack != Some(k) ==>
              r.tracks.entries[k] == w.tracks.entries[k]
    ensures forall k :: k in w.tracks.entries && w.arena[h].currentTrack == Some(k) ==>
              r.tracks.entries[k].occupants == RemoveFirst(w.tracks.entries[k].occupants, h)
    ensures r.(trains := w.trains, tracks := w.tracks) == w
  {
    w.(trains := RemoveFirst(w.trains, h), tracks := RemoveOccupant(w.tracks, w.arena[h].currentTrack, h))
  }

  lemma RemoveTrainKeepsWF(w: World, h: TrainHandle)
    requires WF(w) && h in w.arena
    ensures WF(RemoveTrain(w, h))
  {
    var r := RemoveTrain(w, h);
    forall x | x in r.trains ensures Placed(r, x) {
      assert x in w.trains;
    }
  }
}
