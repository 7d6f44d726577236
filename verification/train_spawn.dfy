/** `TrainSpawnEvent`: place one new train at the start of the first track
    whose begin node is an open end, then schedule the next spawn. The
    exponentially distributed inter-arrival time is the mean inter-arrival
    time times a unit exponential draw from the `draw` oracle (the i-th
    draw of the run is `draw(i)`). */
module TrainSpawns {
  import opened Base
  import opened Config
  import opened Registries
  import opened SimObjects
  import opened Events
  import opened EventQueues
  import opened WorldState
  import opened Digits

  /** Index of the first track whose begin node carries an open end. */
  function FirstOpenBegin(ts: seq<SimTrack>): (r: Option<nat>)
    ensures r.Some? ==> r.value < |ts| && ts[r.value].trackBegin.openEnd
    ensures r.Some? ==> forall j :: 0 <= j < r.value ==> !ts[j].trackBegin.openEnd
    ensures r.None? <==> forall j :: 0 <= j < |ts| ==> !ts[j].trackBegin.openEnd
  {
    FirstIndex(ts, (t: SimTrack) => t.trackBegin.openEnd)
  }

  /** Rounds half away from zero, as the fixed-point format does. */
  function RoundHalfAway(x: real): (n: nat)
    requires x >= 0.0
    ensures n as real - 0.5 <= x < n as real + 0.5
  {
    (x + 0.5).Floor
  }

  /** The name "T_<now:F0>" given to a train spawned at `now`: the clock
      rounded half away from zero to a whole number, with a minus sign for a
      negative clock. */
  function TrainName(now: real): (name: string)
    ensures now >= 0.0 ==> && |name| > 2 && name[..2] == "T_"
                           && (forall i :: 0 <= i < |name[2..]| ==> IsDigit(name[2..][i]))
                           && Value(name[2..]) == RoundHalfAway(now)
    ensures now < 0.0 ==> && |name| > 3 && name[..3] == "T_-"
                          && (forall i :: 0 <= i < |name[3..]| ==> IsDigit(name[3..][i]))
                          && Value(name[3..]) == RoundHalfAway(-now)
  {
    if now >= 0.0 then
      var d := NatToString(RoundHalfAway(now));
      ValueOfNatToString(RoundHalfAway(now));
      assert ("T_" + d)[2..] == d;
      "T_" + d
    else
      var d := NatToString(RoundHalfAway(-now));
      ValueOfNatToString(RoundHalfAway(-now));
      assert ("T_-" + d)[3..] == d;
      "T_-" + d
  }

  /** Direction of a train spawned on a track: Up exactly when the track's
      main direction is "up". */
  function SpawnDirection(t: SimTrack): (d: Direction)
    ensures d == Up <==> t.mainDir == "up"
  {
    if t.mainDir == "up" then Up else Down
  }

  /** The track a spawn would use, by position in the registry. */
  function SpawnSlot(w: World): Option<nat>
    requires w.tracks.Valid()
  {
    FirstOpenBegin(w.tracks.Values())
  }

  /** The train a spawn creates on track `id`: named after the clock, at
      the start of the track, heading in the track's main direction, with
      the settings' dimensions and dynamics. */
  function Spawned(w: World, id: string): Train
    requires id in w.tracks.entries
  {
    NewTrain(TrainName(w.currentTime), w.settings).(
      currentTrack := Some(id), positionOnTrack := 0.0, moveDirection := SpawnDirection(w.tracks.entries[id]))
  }

  /** Placing a new train on the `i`-th registered track: a fresh train
      object, appended to `Trains` and to the track's occupants, and its
      first move one movement step from now. Nothing else changes. */
  function PlaceOn(w: World, i: nat): (o: Outcome)
    requires WF(w) && i < |w.tracks.keys|
    ensures var id := w.tracks.keys[i];
            var h := w.nextHandle;
            && h !in w.arena && id in w.tracks.entries
            && o.world.trains == w.trains + [h]
            && o.world.arena == w.arena[h := Spawned(w, id)]
            && o.world.tracks.keys == w.tracks.keys
            && o.world.tracks.entries == w.tracks.entries[id := w.tracks.entries[id].(
                 occupants := w.tracks.entries[id].occupants + [h])]
            && o.scheduled == [NewEvent(w.currentTime + w.settings.movementUpdateInterval, TrainMove(h))]
            && o.world.(trains := w.trains, arena := w.arena, nextHandle := w.nextHandle, tracks := w.tracks) == w
  {
    var id := w.tracks.keys[i];
    var track := w.tracks.entries[id];
    var (w1, h) := Allocate(w, Spawned(w, id));
    var w2 := AddTrain(w1, h);
    var w3 := w2.(tracks := w2.tracks.Update(id, track.(occupants := track.occupants + [h])));
    Outcome(w3, [NewEvent(w.currentTime + w.settings.movementUpdateInterval, TrainMove(h))])
  }

  /** The placed train stands on a registered track, so the world stays
      well formed. */
  lemma PlaceOnKeepsWF(w: World, i: nat)
    requires WF(w) && i < |w.tracks.keys|
    ensures WF(PlaceOn(w, i).world)
  {
    var w3 := PlaceOn(w, i).world;
    var h := w.nextHandle;
    forall x | x in w3.trains ensures Placed(w3, x) {
      if x != h { assert Placed(w, x); }
    }
  }

  /** The placement half of the handler: a train on the first track with an
      open begin, or nothing when there is none. */
  function Place(w: World): (o: Outcome)
    requires WF(w)
    ensures WF(o.world)
    ensures |o.scheduled| <= 1 && forall e :: e in o.scheduled ==> e.action.TrainMove?
    ensures Sane(w.settings) ==> forall e :: e in o.scheduled ==> e.executionTime >= w.currentTime
    ensures |o.world.trains| <= |w.trains| + 1 && o.world.queue == w.queue
    ensures SpawnSlot(w).None? ==> o == Outcome(w, [])
    ensures SpawnSlot(w).Some? ==> SpawnSlot(w).value < |w.tracks.keys| && o == PlaceOn(w, SpawnSlot(w).value)
  {
    match SpawnSlot(w)
    case None => Outcome(w, [])
    case Some(i) =>
      PlaceOnKeepsWF(w, i);
      PlaceOn(w, i)
  }

  /** The time to the next spawn: the unit exponential draw scaled by the
      mean inter-arrival time, with no clamp. */
  function SpawnInterval(s: Settings, u: real): (d: real)
    ensures s.meanInterArrivalTime >= 0.0 && u >= 0.0 ==> d >= 0.0
    ensures u == 1.0 ==> d == s.meanInterArrivalTime
  {
    s.meanInterArrivalTime * u
  }

  /** `TrainSpawnEvent.Execute`: placement, then exactly one next spawn,
      `SpawnInterval` seconds from now. */
  function SpawnStep(w: World, draw: nat -> real): (o: Outcome)
    requires WF(w)
    ensures WF(o.world)
    ensures o.world == Place(w).world.(draws := w.draws + 1)
    ensures o.scheduled == Place(w).scheduled + [NewEvent(w.currentTime + SpawnInterval(w.settings, draw(w.draws)), TrainSpawn)]
    ensures |o.world.trains| <= |w.trains| + 1
    ensures o.world.queue == w.queue
    ensures Sane(w.settings) && draw(w.draws) >= 0.0 ==> forall e :: e in o.scheduled ==> e.executionTime >= w.currentTime
  {
    var p := Place(w);
    Outcome(p.world.(draws := w.draws + 1), p.scheduled + [NewEvent(w.currentTime + SpawnInterval(w.settings, draw(w.draws)), TrainSpawn)])
  }

  /** Exactly one spawn event is scheduled, whether or not a train was
      placed. */
  lemma OneNextSpawn(w: World, draw: nat -> real)
    requires WF(w)
    ensures multiset(SpawnStep(w, draw).scheduled)[NewEvent(w.currentTime + SpawnInterval(w.settings, draw(w.draws)), TrainSpawn)] == 1
    ensures forall e :: e in SpawnStep(w, draw).scheduled && e.action == TrainSpawn ==>
              e == NewEvent(w.currentTime + SpawnInterval(w.settings, draw(w.draws)), TrainSpawn)
  {
    SpawnLast(Place(w).scheduled, NewEvent(w.currentTime + SpawnInterval(w.settings, draw(w.draws)), TrainSpawn));
  }

  /** With a zero mean inter-arrival time the next spawn is due at the
      current time again, whatever the draw: every spawn schedules another
      one at the same instant, so a run never gets past that time. */
  lemma ZeroMeanSpawnsAtOnce(w: World, draw: nat -> real)
    requires WF(w) && w.settings.meanInterArrivalTime == 0.0
    ensures |SpawnStep(w, draw).scheduled| > 0
    ensures SpawnStep(w, draw).scheduled[|SpawnStep(w, draw).scheduled| - 1] == NewEvent(w.currentTime, TrainSpawn)
    ensures SpawnStep(w, draw).world.currentTime == w.currentTime
  {
  }

  /** Appending a spawn to a batch of moves: the spawn occurs once, and is
      the only spawn. */
  lemma SpawnLast(ps: seq<Event>, next: Event)
    requires forall e :: e in ps ==> e.action.TrainMove?
    requires next.action == TrainSpawn
    ensures multiset(ps + [next])[next] == 1
    ensures forall e :: e in ps + [next] && e.action == TrainSpawn ==> e == next
  {
    assert next !in ps;
    assert multiset(ps + [next]) == multiset(ps) + multiset{next};
  }
}
