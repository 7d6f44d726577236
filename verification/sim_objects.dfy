/** The simulation objects: tracks, switches, signals and trains, with the
    initial values their constructors give, and the few facts derived from
    their fields (track length, occupancy). Only the fields of the RailML
    records that the engine reads are kept. */
module SimObjects {
  import opened Base
  import opened Config

  /** Identity of a train object. Trains are compared by reference in the
      engine (`Trains.Contains`, `List.Remove`), so they are addressed by a
      handle into an arena rather than by their (non-unique) name. */
  type TrainHandle = nat

  /** A RailML `<signal>` as placed on a track: id, direction tag ("up",
      "down" or anything else) and the integer position attribute. */
  datatype SignalMeta = SignalMeta(id: string, dir: string, pos: int)

  /** A RailML `<trackBegin>` / `<trackEnd>` node: its position and whether it
      carries an `<openEnd>` element. */
  datatype TrackNode = TrackNode(pos: real, openEnd: bool)

  /** A track: the static RailML data plus the mutable occupant list. */
  datatype SimTrack = SimTrack(
    id: string,
    name: string,
    mainDir: string,
    trackBegin: TrackNode,
    trackEnd: TrackNode,
    signals: seq<SignalMeta>,
    occupants: seq<TrainHandle>)
  {
    predicate IsOccupied() {
      |occupants| > 0
    }

    /** Length is the difference of the end and begin positions, unchecked:
        it is negative when the nodes are given the wrong way round. */
    function Length(): (l: real)
      ensures l + trackBegin.pos == trackEnd.pos
    {
      trackEnd.pos - trackBegin.pos
    }
  }

  /** A new track has no occupants. */
  function NewTrack(id: string, name: string, mainDir: string, b: TrackNode, e: TrackNode,
                    signals: seq<SignalMeta>): (t: SimTrack)
    ensures !t.IsOccupied()
    ensures t.Length() == e.pos - b.pos
    ensures t.id == id && t.name == name && t.mainDir == mainDir && t.signals == signals
  {
    SimTrack(id, name, mainDir, b, e, signals, [])
  }

  datatype SwitchState = Normal | Reverse | Moving

  /** A switch. `parentTrack` stands for the switch's parent-track reference,
      whose computation is not part of this model: it is whatever the
      topology loader supplied. */
  datatype SimSwitch = SimSwitch(
    id: string,
    trackContinueCourse: Option<string>,
    parentTrack: Option<string>,
    currentCourse: string,
    state: SwitchState,
    targetState: SwitchState,
    switchingStartTime: real,
    switchingDuration: real)

  function NewSwitch(id: string, trackContinueCourse: Option<string>, parentTrack: Option<string>): (sw: SimSwitch)
    ensures sw.state == Normal && sw.targetState == Normal
    ensures sw.switchingStartTime == 0.0 && sw.switchingDuration == 10.0
    ensures trackContinueCourse.Some? ==> sw.currentCourse == trackContinueCourse.value
    ensures trackContinueCourse.None? ==> sw.currentCourse == "Straight"
    ensures sw.id == id && sw.parentTrack == parentTrack
  {
    SimSwitch(id, trackContinueCourse, parentTrack,
              if trackContinueCourse.Some? then trackContinueCourse.value else "Straight",
              Normal, Normal, 0.0, 10.0)
  }

  datatype SignalAspect = Stop | Proceed

  /** A signal: the RailML record it wraps, fixed at construction, and the
      aspect, its only mutable state. */
  datatype SimSignal = SimSignal(meta: SignalMeta, aspect: SignalAspect)

  function NewSignal(meta: SignalMeta): (s: SimSignal)
    ensures s.aspect == Proceed && s.meta == meta
  {
    SimSignal(meta, Proceed)
  }

  /** The train's (unused) coarse state; only its initial value is ever set. */
  datatype TrainState = Stopped | Accelerating | Coasting | Braking | Dwelling

  datatype Train = Train(
    id: string,
    length: real,
    speed: real,
    maxSpeed: real,
    brakingDeceleration: real,
    currentTrack: Option<string>,
    positionOnTrack: real,
    moveDirection: Direction,
    occupiedTracks: seq<string>,
    isWaitingForSignal: bool,
    waitingSignal: Option<string>,
    state: TrainState)

  /** `new Train(id, settings)`: dimensions from the settings, at rest, not
      placed on any track, heading Up. */
  function NewTrain(id: string, s: Settings): (t: Train)
    ensures t.id == id
    ensures t.length == s.trainLength && t.maxSpeed == s.defaultSpeed
    ensures t.brakingDeceleration == s.brakingDeceleration
    ensures t.speed == 0.0 && t.moveDirection == Up
    ensures !t.isWaitingForSignal && t.waitingSignal == None
    ensures t.occupiedTracks == [] && t.state == Stopped
    ensures t.currentTrack == None
  {
    Train(id, s.trainLength, 0.0, s.defaultSpeed, s.brakingDeceleration,
          None, 0.0, Up, [], false, None, Stopped)
  }
}
