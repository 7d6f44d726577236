/** One kinematics step of a train on its current track (`TrainMoveEvent`):
    advance by speed times the step, clamp and stop at a track end, react to
    the signals ahead, accelerate when free, and schedule the next step.
    There is no traversal to a following track: a train that reaches either
    end of its track stops there. */
module TrainMoves {
  import opened Base
  import opened Config
  import opened Registries
  import opened SimObjects
  import opened Events
  import opened WorldState

  /** The signal's direction tag applies to a train travelling in `dir`:
      exactly "up" for Up and exactly "down" for Down. */
  predicate DirMatches(tag: string, dir: Direction) {
    if dir == Up then tag == "up" else tag == "down"
  }

  /** Distance to a signal strictly ahead of `pos` in the direction of
      travel; `None` for a signal at or behind the train. */
  function DistanceAhead(m: SignalMeta, dir: Direction, pos: real): (d: Option<real>)
    ensures d.Some? <==> (if dir == Up then pos < m.pos as real else m.pos as real < pos)
    ensures d.Some? ==> d.value > 0.0
    ensures d.Some? && dir == Up ==> pos + d.value == m.pos as real
    ensures d.Some? && dir == Down ==> pos - d.value == m.pos as real
  {
    if dir == Up then
      (if m.pos as real > pos then Some(m.pos as real - pos) else None)
    else
      (if (m.pos as real) < pos then Some(pos - m.pos as real) else None)
  }

  /** A signal the train heeds: direction tag matches, strictly ahead,
      within the recognition distance, and registered. Yields the distance
      and the registered signal. */
  function Sighted(m: SignalMeta, signals: Registry<SimSignal>, dir: Direction, pos: real, s: Settings)
    : Option<(real, SimSignal)>
  {
    if !DirMatches(m.dir, dir) then None
    else match DistanceAhead(m, dir, pos)
      case None => None
      case Some(d) =>
        if d <= s.signalRecognitionDistance && m.id in signals.entries
        then Some((d, signals.entries[m.id])) else None
  }

  /** The state threaded through the signal loop. */
  datatype Scan = Scan(speed: real, waiting: bool, braking: bool, reports: seq<string>)

  /** One iteration of the signal loop. */
  function ScanOne(m: SignalMeta, signals: Registry<SimSignal>, dir: Direction, pos: real, s: Settings, acc: Scan)
    : (r: Scan)
    ensures Sighted(m, signals, dir, pos, s).None? ==> r == acc
    ensures r.reports == acc.reports + (if !acc.waiting && r.waiting then [m.id] else [])
    ensures r.waiting && !acc.waiting ==> r.speed == 0.0 && r.braking
    ensures r.braking && !acc.braking ==>
              Sighted(m, signals, dir, pos, s).Some? && Sighted(m, signals, dir, pos, s).value.1.aspect == Stop
    ensures acc.braking ==> r.braking
    ensures acc.speed >= 0.0 && s.signalBrakingDeceleration * s.movementUpdateInterval >= 0.0 ==>
              0.0 <= r.speed <= acc.speed
    ensures !r.waiting && acc.waiting ==>
              Sighted(m, signals, dir, pos, s).Some? && Sighted(m, signals, dir, pos, s).value.1.aspect == Proceed
    ensures acc.speed == 0.0 ==> r.speed == 0.0
    ensures !r.braking ==> r.speed == acc.speed
    // A red signal at hand (within 1 m, or the train nearly at rest) holds the train.
    ensures (Sighted(m, signals, dir, pos, s).Some? && Sighted(m, signals, dir, pos, s).value.1.aspect == Stop
             && (Sighted(m, signals, dir, pos, s).value.0 < 1.0 || acc.speed < 0.01)) ==> r.speed == 0.0 && r.waiting
    // A red signal farther off brakes at the signal-braking rate, floored at 0.
    ensures (Sighted(m, signals, dir, pos, s).Some? && Sighted(m, signals, dir, pos, s).value.1.aspect == Stop
             && !(Sighted(m, signals, dir, pos, s).value.0 < 1.0 || acc.speed < 0.01)) ==>
              r.speed == Max(acc.speed - s.signalBrakingDeceleration * s.movementUpdateInterval, 0.0)
              && r.waiting == acc.waiting && r.braking
    // A green signal only clears the waiting flag.
    ensures Sighted(m, signals, dir, pos, s).Some? && Sighted(m, signals, dir, pos, s).value.1.aspect == Proceed ==>
              r == acc.(waiting := false)
  {
    var sighted := Sighted(m, signals, dir, pos, s);
    match sighted
    case None => acc
    case Some(hit) =>
      var (d, signal) := hit;
      if signal.aspect == Stop then
        if d < 1.0 || acc.speed < 0.01 then
          if acc.waiting then acc.(speed := 0.0, braking := true)
          else Scan(0.0, true, true, acc.reports + [m.id])
        else
          var v := acc.speed - s.signalBrakingDeceleration * s.movementUpdateInterval;
          acc.(speed := if v < 0.0 then 0.0 else v, braking := true)
      else
        assert signal.aspect == Proceed && sighted.value.1 == signal;
        acc.(waiting := false)
  }

  /** The whole signal loop, signals in the track's order. */
  function ScanSignals(ms: seq<SignalMeta>, signals: Registry<SimSignal>, dir: Direction, pos: real, s: Settings, acc: Scan)
    : (r: Scan)
    ensures acc.speed >= 0.0 && s.signalBrakingDeceleration * s.movementUpdateInterval >= 0.0 ==>
              0.0 <= r.speed <= acc.speed
    ensures acc.braking ==> r.braking
    ensures |acc.reports| <= |r.reports| && r.reports[..|acc.reports|] == acc.reports
    ensures r.waiting && !acc.waiting ==> r.braking
    ensures |r.reports| <= |acc.reports| + |ms|
    ensures acc.speed == 0.0 ==> r.speed == 0.0
    ensures !r.braking ==> r.speed == acc.speed
    decreases |ms|
  {
    if |ms| == 0 then acc
    else ScanSignals(ms[1..], signals, dir, pos, s, ScanOne(ms[0], signals, dir, pos, s, acc))
  }

  /** The train's signals scan, and its effect on the train. */
  datatype Step = Step(train: Train, endOfTrack: bool, braking: bool, reports: seq<string>)

  /** The end the train is heading for: `Length` going Up, 0 going Down. */
  function EndPosition(track: SimTrack, dir: Direction): real {
    if dir == Up then track.Length() else 0.0
  }

  /** The position after advancing by `speed * dt`, before clamping. */
  function Advanced(t: Train, dt: real): real {
    if t.moveDirection == Up then t.positionOnTrack + t.speed * dt
    else t.positionOnTrack - t.speed * dt
  }

  /** The advanced position overshoots the end of the track. */
  predicate PastEnd(t: Train, track: SimTrack, dt: real) {
    if t.moveDirection == Up then Advanced(t, dt) > track.Length() else Advanced(t, dt) < 0.0
  }

  /** Advancing and clamping at the track ends: the position and speed
      after the advance, and whether the train hit an end. */
  datatype Clamp = Clamp(pos: real, speed: real, endOfTrack: bool)

  function ClampToTrack(t: Train, track: SimTrack, dt: real): (c: Clamp)
    ensures c.endOfTrack <==> PastEnd(t, track, dt)
    ensures c.endOfTrack ==> c.pos == EndPosition(track, t.moveDirection) && c.speed == 0.0
    ensures !c.endOfTrack ==> c.pos == Advanced(t, dt) && c.speed == t.speed
    ensures 0.0 <= t.positionOnTrack <= track.Length() && t.speed >= 0.0 && dt >= 0.0 ==>
              0.0 <= c.pos <= track.Length()
  {
    if PastEnd(t, track, dt) then Clamp(EndPosition(track, t.moveDirection), 0.0, true)
    else Clamp(Advanced(t, dt), t.speed, false)
  }

  /** The signal loop, run only when the train's track is occupied, from
      the clamped position and speed. */
  function TrackScan(t: Train, track: SimTrack, signals: Registry<SimSignal>, s: Settings, c: Clamp): (r: Scan)
    ensures !track.IsOccupied() ==> r == Scan(c.speed, t.isWaitingForSignal, false, [])
    ensures |r.reports| <= |track.signals|
    ensures Sane(s) && c.speed >= 0.0 ==> 0.0 <= r.speed <= c.speed
    ensures !r.braking ==> r.speed == c.speed
    ensures c.speed == 0.0 ==> r.speed == 0.0
  {
    var start := Scan(c.speed, t.isWaitingForSignal, false, []);
    if track.IsOccupied() then
      assert Sane(s) ==> s.signalBrakingDeceleration * s.movementUpdateInterval >= 0.0;
      ScanSignals(track.signals, signals, t.moveDirection, c.pos, s, start)
    else start
  }

  /** Acceleration by 0.5 m/s^2 over `dt`, capped at `cap`; a speed already
      at or over the cap is left as it is. */
  function Accelerate(v: real, cap: real, dt: real): (r: real)
    ensures v < cap && dt >= 0.0 ==> v <= r <= cap
    ensures v >= cap ==> r == v
    ensures v < cap ==> r == Min(v + 0.5 * dt, cap)
  {
    if v < cap then Min(v + 0.5 * dt, cap) else v
  }

  /** One kinematics step of `t` on `track`. Only position, speed and the
      waiting flag change; direction, track and dimensions stay. */
  function MoveTrain(t: Train, track: SimTrack, signals: Registry<SimSignal>, s: Settings): (r: Step)
    ensures r.train == t.(positionOnTrack := r.train.positionOnTrack, speed := r.train.speed,
                          isWaitingForSignal := r.train.isWaitingForSignal)
    ensures r.endOfTrack <==> PastEnd(t, track, s.movementUpdateInterval)
    // At an end: parked exactly on the boundary, at rest.
    ensures r.endOfTrack ==> r.train.positionOnTrack == EndPosition(track, t.moveDirection) && r.train.speed == 0.0
    ensures !r.endOfTrack ==> r.train.positionOnTrack == Advanced(t, s.movementUpdateInterval)
    // An empty track's signals are not looked at.
    ensures !track.IsOccupied() ==> !r.braking && r.reports == [] && r.train.isWaitingForSignal == t.isWaitingForSignal
    // At most one report per signal of the track in one step.
    ensures |r.reports| <= |track.signals|
    // Ranges kept: on the track, speed within [0, maxSpeed].
    ensures 0.0 <= t.positionOnTrack <= track.Length() && t.speed >= 0.0 && s.movementUpdateInterval >= 0.0 ==>
              0.0 <= r.train.positionOnTrack <= track.Length()
    ensures Sane(s) && t.speed >= 0.0 ==> r.train.speed >= 0.0
    ensures Sane(s) && 0.0 <= t.speed <= t.maxSpeed ==> r.train.speed <= t.maxSpeed
    // No acceleration while braking or waiting; otherwise 0.5 m/s^2 up to the cap.
    ensures Sane(s) && t.speed >= 0.0 && (r.braking || r.train.isWaitingForSignal) ==> r.train.speed <= t.speed
    ensures !r.endOfTrack && !r.braking && !r.train.isWaitingForSignal ==>
              r.train.speed == (if t.speed < t.maxSpeed then Min(t.speed + 0.5 * s.movementUpdateInterval, t.maxSpeed)
                                else t.speed)
  {
    var c := ClampToTrack(t, track, s.movementUpdateInterval);
    var scan := TrackScan(t, track, signals, s, c);
    var v := if !c.endOfTrack && !scan.braking && !scan.waiting then Accelerate(scan.speed, t.maxSpeed, s.movementUpdateInterval)
             else scan.speed;
    Step(t.(positionOnTrack := c.pos, speed := v, isWaitingForSignal := scan.waiting),
         c.endOfTrack, scan.braking, scan.reports)
  }

  /** The signals the train heeds, in track order. */
  function Heeded(ms: seq<SignalMeta>, signals: Registry<SimSignal>, dir: Direction, pos: real, s: Settings)
    : (hs: seq<SignalMeta>)
    ensures forall m :: m in hs ==> m in ms && Sighted(m, signals, dir, pos, s).Some?
    ensures forall m :: m in ms && Sighted(m, signals, dir, pos, s).Some? ==> m in hs
    decreases |ms|
  {
    if |ms| == 0 then []
    else
      var rest := Heeded(ms[1..], signals, dir, pos, s);
      assert forall m :: m in ms ==> m == ms[0] || m in ms[1..];
      if Sighted(ms[0], signals, dir, pos, s).Some? then [ms[0]] + rest else rest
  }

  /** Only the heeded signals affect the train: a signal with the wrong
      direction tag, at or behind the train, beyond the recognition distance
      or not registered can be dropped without changing the outcome. */
  lemma {:induction false} OnlyHeededSignalsMatter(ms: seq<SignalMeta>, signals: Registry<SimSignal>, dir: Direction,
                                                    pos: real, s: Settings, acc: Scan)
    ensures ScanSignals(ms, signals, dir, pos, s, acc) == ScanSignals(Heeded(ms, signals, dir, pos, s), signals, dir, pos, s, acc)
    decreases |ms|
  {
    if |ms| > 0 {
      var a1 := ScanOne(ms[0], signals, dir, pos, s, acc);
      OnlyHeededSignalsMatter(ms[1..], signals, dir, pos, s, a1);
      if Sighted(ms[0], signals, dir, pos, s).Some? {
        var hs := [ms[0]] + Heeded(ms[1..], signals, dir, pos, s);
        assert hs[1..] == Heeded(ms[1..], signals, dir, pos, s);
      } else {
        OnlyHeededSignalsMatter(ms[1..], signals, dir, pos, s, acc);
      }
    }
  }

  /** A heeded signal showing Proceed. */
  predicate SeesProceed(ms: seq<SignalMeta>, signals: Registry<SimSignal>, dir: Direction, pos: real, s: Settings) {
    exists i :: 0 <= i < |ms| && Sighted(ms[i], signals, dir, pos, s).Some?
                && Sighted(ms[i], signals, dir, pos, s).value.1.aspect == Proceed
  }

  /** The wait is reported once as long as no heeded signal shows Proceed:
      a train already waiting stays waiting and reports nothing more. A
      heeded green signal breaks this (`RedAfterGreenReportsAgain`,
      `RedBeforeGreenReportsAgain`). */
  lemma {:induction false} WaitReportedOnce(ms: seq<SignalMeta>, signals: Registry<SimSignal>, dir: Direction,
                                            pos: real, s: Settings, acc: Scan)
    requires acc.waiting && !SeesProceed(ms, signals, dir, pos, s)
    ensures ScanSignals(ms, signals, dir, pos, s, acc).waiting
    ensures ScanSignals(ms, signals, dir, pos, s, acc).reports == acc.reports
    decreases |ms|
  {
    if |ms| > 0 {
      var a1 := ScanOne(ms[0], signals, dir, pos, s, acc);
      assert a1.waiting && a1.reports == acc.reports;
      assert !SeesProceed(ms[1..], signals, dir, pos, s);
      WaitReportedOnce(ms[1..], signals, dir, pos, s, a1);
    }
  }

  /** A heeded green signal clears the waiting flag, so a red signal at hand
      after it in the track's list reports the wait again on every step,
      even for a train that is already waiting. */
  lemma RedAfterGreenReportsAgain(g: SignalMeta, rd: SignalMeta, signals: Registry<SimSignal>, dir: Direction,
                                  pos: real, s: Settings, acc: Scan)
    requires Sighted(g, signals, dir, pos, s).Some? && Sighted(g, signals, dir, pos, s).value.1.aspect == Proceed
    requires Sighted(rd, signals, dir, pos, s).Some? && Sighted(rd, signals, dir, pos, s).value.1.aspect == Stop
    requires Sighted(rd, signals, dir, pos, s).value.0 < 1.0
    ensures ScanSignals([g, rd], signals, dir, pos, s, acc).waiting
    ensures ScanSignals([g, rd], signals, dir, pos, s, acc).reports == acc.reports + [rd.id]
  {
    var a1 := ScanOne(g, signals, dir, pos, s, acc);
    assert a1 == acc.(waiting := false);
    assert [g, rd][1..] == [rd] && [rd][1..] == [];
    assert ScanSignals([g, rd], signals, dir, pos, s, acc) == ScanSignals([rd], signals, dir, pos, s, a1);
    assert ScanSignals([rd], signals, dir, pos, s, a1) == ScanOne(rd, signals, dir, pos, s, a1);
  }

  /** With the red signal first, the step ends not waiting, so the next step
      reports the same red signal again. */
  lemma RedBeforeGreenReportsAgain(rd: SignalMeta, g: SignalMeta, signals: Registry<SimSignal>, dir: Direction,
                                   pos: real, s: Settings, acc: Scan)
    requires Sighted(g, signals, dir, pos, s).Some? && Sighted(g, signals, dir, pos, s).value.1.aspect == Proceed
    requires Sighted(rd, signals, dir, pos, s).Some? && Sighted(rd, signals, dir, pos, s).value.1.aspect == Stop
    requires Sighted(rd, signals, dir, pos, s).value.0 < 1.0
    ensures !ScanSignals([rd, g], signals, dir, pos, s, acc).waiting
    ensures ScanSignals([rd, g], signals, dir, pos, s, acc).reports
            == acc.reports + (if acc.waiting then [] else [rd.id])
  {
    var a1 := ScanOne(rd, signals, dir, pos, s, acc);
    assert a1.waiting && a1.reports == acc.reports + (if acc.waiting then [] else [rd.id]);
    assert [rd, g][1..] == [g] && [g][1..] == [];
    assert ScanSignals([rd, g], signals, dir, pos, s, acc) == ScanSignals([g], signals, dir, pos, s, a1);
    assert ScanSignals([g], signals, dir, pos, s, a1) == ScanOne(g, signals, dir, pos, s, a1);
  }

  /** A train at the end of its track is at rest after the step, so the
      step schedules no further move for it (see `MoveStep`). */
  lemma EndOfTrackRests(t: Train, track: SimTrack, signals: Registry<SimSignal>, s: Settings)
    requires PastEnd(t, track, s.movementUpdateInterval)
    ensures MoveTrain(t, track, signals, s).endOfTrack
    ensures !(MoveTrain(t, track, signals, s).train.speed > 0.0)
  {
  }

  /** Delay to the next move: one second when (nearly) at rest, else the
      movement step. */
  function NextMoveDelay(speed: real, dt: real): (d: real)
    ensures speed <= 0.001 ==> d == 1.0
    ensures speed > 0.001 ==> d == dt
  {
    if speed <= 0.001 then 1.0 else dt
  }

  /** `TrainMoveEvent.Execute` on the world. A move for a train no longer
      in `Trains` does nothing. Otherwise only that train object and the
      waiting-report log change, and a next move is scheduled unless the
      train stopped at a track end. */
  function MoveStep(w: World, h: TrainHandle): (o: Outcome)
    requires WF(w)
    ensures WF(o.world)
    ensures h !in w.trains ==> o == Outcome(w, [])
    ensures h in w.trains ==>
              var st := MoveTrain(w.arena[h], w.tracks.entries[w.arena[h].currentTrack.value], w.signals, w.settings);
              && o.world == w.(arena := w.arena[h := st.train], waitingReports := w.waitingReports + st.reports)
              && (st.endOfTrack ==> o.scheduled == [])
              && (!st.endOfTrack ==>
                    o.scheduled == [NewEvent(w.currentTime + NextMoveDelay(st.train.speed, w.settings.movementUpdateInterval),
                                             TrainMove(h))])
    ensures Sane(w.settings) ==> forall e :: e in o.scheduled ==> e.executionTime >= w.currentTime
  {
    if h !in w.trains then Outcome(w, [])
    else
      var t := w.arena[h];
      var st := MoveTrain(t, w.tracks.entries[t.currentTrack.value], w.signals, w.settings);
      var w1 := w.(arena := w.arena[h := st.train], waitingReports := w.waitingReports + st.reports);
      assert forall x :: x in w1.trains ==> Placed(w1, x) by {
        forall x | x in w1.trains ensures Placed(w1, x) { assert Placed(w, x); }
      }
      var next := NewEvent(w.currentTime + NextMoveDelay(st.train.speed, w.settings.movementUpdateInterval), TrainMove(h));
      Outcome(w1, if !st.endOfTrack || st.train.speed > 0.0 then [next] else [])
  }
}
