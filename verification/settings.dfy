/** The engine's configuration record and the travel-direction enum. All
    quantities are SI units over exact reals (seconds, metres, m/s, m/s^2). */
module Config {

  /** Up: position increases along the track; Down: it decreases. */
  datatype Direction = Up | Down

  datatype Settings = Settings(
    meanInterArrivalTime: real,
    trainLength: real,
    defaultSpeed: real,
    brakingDeceleration: real,
    signalRecognitionDistance: real,
    signalBrakingDeceleration: real,
    movementUpdateInterval: real,
    defaultDirection: Direction,
    switchTransitionTime: real,
    trainSpawnUp: bool,
    trainSpawnDown: bool)

  /** Settings under which the kinematics keep speeds and times in range:
      no negative step, braking rate, cap, transition time or mean
      inter-arrival time. The engine
      does not check this; it is the hypothesis of the range lemmas. */
  predicate Sane(s: Settings) {
    && s.movementUpdateInterval >= 0.0
    && s.signalBrakingDeceleration >= 0.0
    && s.switchTransitionTime >= 0.0
    && s.defaultSpeed >= 0.0
    && s.meanInterArrivalTime >= 0.0
  }

  /** The values a freshly constructed settings object carries. */
  function Defaults(): (s: Settings)
    ensures Sane(s) && s.movementUpdateInterval > 0.0
    ensures s.meanInterArrivalTime == 300.0
    ensures s.trainLength == 200.0 && s.defaultSpeed == 20.0
    ensures s.brakingDeceleration == 1.0
    ensures s.signalRecognitionDistance == 500.0
    ensures s.signalBrakingDeceleration == 1.5
    ensures s.movementUpdateInterval == 1.0
    ensures s.switchTransitionTime == 10.0
    ensures s.defaultDirection == Up
    ensures s.trainSpawnUp && s.trainSpawnDown
  {
    Settings(300.0, 200.0, 20.0, 1.0, 500.0, 1.5, 1.0, Up, 10.0, true, true)
  }
}
