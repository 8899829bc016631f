/**
 The closed-loop `/cmd_vel` controller (src/ros_mcp/adapters/motion/cmd_vel_plugin.py).

 The environment of one `move` is a start sample and a sequence of tick samples: what the
 cancellation token, the clock, the odometry cache and the scan cache answer in each tick. Any
 finite sequence is allowed, so the theorems cover every prefix of every run, whether or not the
 run ever ends. `Step` is one pass through the `while True` body, `RunLoop` its iteration, and the
 method `Move` is the loop itself, proved to compute `RunMove`.
 */
module CmdVel {
  import opened RealMath
  import opened Geometry
  import opened LaserScan
  import opened Core

  datatype Phase = Turning | Driving

  datatype Twist = Twist(linear: real, angular: real)

  const ZeroTwist := Twist(0.0, 0.0)

  datatype StopReason = WasCancelled | TimedOut | SafetyStop | TargetReached

  datatype MotionResult = MotionResult(
    succeeded: bool, error: Option<ErrorCode>, distanceTraveled: real,
    finalPose: Option<Pose>, stopReason: StopReason)

  /** Construction-time settings of the plugin. */
  datatype Settings = Settings(
    tick: real, positionTolerance: real, angleTolerance: real,
    kpLinear: real, kpAngular: real, watchesScan: bool)

  datatype Odometry = Odometry(pose: Option<Pose>, isFresh: bool) {
    predicate Usable() { pose.Some? && isFresh }
  }

  /** Everything one pass through the loop reads. */
  datatype Tick = Tick(cancelled: bool, tokenExpired: bool, now: real, odometry: Odometry, scan: Option<Scan>)

  /** The source's drive_sign: 1.0, -1.0 or, for a rotation in place, 0.0. */
  datatype DriveSense = Ahead | Reverse | InPlace {
    function Signed(v: real): real {
      match this
      case Ahead => v
      case Reverse => -v
      case InPlace => 0.0
    }
  }

  datatype Plan = Plan(rotation: bool, heading: real, sense: DriveSense, distance: real, firstPhase: Phase)

  /** What stays fixed during one `move`. `linearStep` and `angularStep` are the largest changes of a
      command per tick (acceleration limit times tick period), `linearGain` and `angularGain` the
      proportional laws (multiplication by kp), `headingError` the wrapped difference between the
      planned heading and a yaw, and `obstacle` the check of the sector of travel. */
  datatype Mission = Mission(
    m: Math, limits: Constraints, settings: Settings, plan: Plan, deadline: real,
    linearStep: real, angularStep: real,
    linearGain: real -> real, angularGain: real -> real, headingError: real -> real,
    obstacle: Option<Scan> -> Option<real>) {

    ghost predicate HeadingErrorAt(yaw: real)
      requires m.pi > 0.0
    {
      headingError(yaw) == AngularDifference(m.pi, plan.heading, yaw)
    }

    ghost predicate LinearGainAt(remaining: real) {
      linearGain(remaining) == settings.kpLinear * remaining
    }

    ghost predicate AngularGainAt(error: real) {
      angularGain(error) == settings.kpAngular * error
    }

    ghost predicate ObstacleAt(scan: Option<Scan>) {
      obstacle(scan) == ObstacleAhead(m, settings, scan, TravelSector(plan), limits.obstacleStopDistance)
    }

    /** The four laws are the source's. */
    ghost predicate Wired() {
      && m.pi > 0.0
      && (forall yaw: real :: HeadingErrorAt(yaw))
      && (forall remaining: real :: LinearGainAt(remaining))
      && (forall error: real :: AngularGainAt(error))
      && (forall scan: Option<Scan> :: ObstacleAt(scan))
    }
  }

  datatype LoopState = LoopState(
    phase: Phase, phaseStart: Pose, traveled: real, lastPose: Pose, prevLinear: real, prevAngular: real)

  datatype Outcome =
    | Exit(result: MotionResult)           // publishes zero, returns
    | SwitchPhase(next: LoopState)         // publishes nothing
    | Drive(next: LoopState, twist: Twist)

  /** A published twist, labelled with the tick and phase it was computed in. */
  datatype Published =
    | Control(twist: Twist, phase: Phase, tick: nat)
    | Stop(twist: Twist)

  datatype LoopRun = LoopRun(log: seq<Published>, state: LoopState, result: Option<MotionResult>)

  datatype MoveTrace = MoveTrace(log: seq<Published>, result: Option<MotionResult>)

  function Clamp(value: real, lo: real, hi: real): real {
    Max(lo, Min(hi, value))
  }

  function ClampDelta(target: real, prev: real, maxDelta: real): real {
    if maxDelta <= 0.0 then prev
    else if target - prev > maxDelta then prev + maxDelta
    else if target - prev < -maxDelta then prev - maxDelta
    else target
  }

  function MakePlan(pi: real, target: MoveTarget, start: Pose): Plan
    requires pi > 0.0 && target.WellFormed()
  {
    match target.direction
    case RotateLeft =>
      Plan(true, Normalize(pi, start.yaw + Radians(pi, target.angleDeg.value)), InPlace, 0.0, Turning)
    case RotateRight =>
      Plan(true, Normalize(pi, start.yaw - Radians(pi, target.angleDeg.value)), InPlace, 0.0, Turning)
    case Translate(t) =>
      Plan(false, DriveHeading(pi, t, start.yaw), if t == Backward then Reverse else Ahead, target.distance.value,
           if t == Forward || t == Backward then Driving else Turning)
  }

  function InitialState(plan: Plan, start: Pose): LoopState {
    LoopState(plan.firstPhase, start, 0.0, start, 0.0, 0.0)
  }

  function TravelSector(plan: Plan): Sector {
    if plan.sense == Reverse then RearSector else FrontSector
  }

  /** `_obstacle_ahead`: the sector's nearest range when it is inside the stop distance. */
  function ObstacleAhead(m: Math, settings: Settings, scan: Option<Scan>, sector: Sector, stop: real): Option<real> {
    if !settings.watchesScan || scan.None? then None
    else
      var r := SectorRange(m, scan.value, sector);
      if r.Some? && r.value < stop then r else None
  }

  function Failed(error: ErrorCode, distance: real, pose: Option<Pose>, reason: StopReason): MotionResult {
    MotionResult(false, Some(error), distance, pose, reason)
  }

  function Reached(distance: real, pose: Pose): MotionResult {
    MotionResult(true, None, distance, Some(pose), TargetReached)
  }

  /** Both clamps, in the order the source applies them. */
  function AngularLimited(x: Mission, requested: real, prev: real): real {
    ClampDelta(Clamp(requested, -x.limits.maxAngular, x.limits.maxAngular), prev, x.angularStep)
  }

  function AngularCommand(x: Mission, error: real, prev: real): real {
    AngularLimited(x, x.angularGain(error), prev)
  }

  function LinearLimited(x: Mission, requestedSpeed: real, prev: real): real {
    ClampDelta(x.plan.sense.Signed(Clamp(requestedSpeed, 0.0, x.limits.maxLinear)), prev, x.linearStep)
  }

  function LinearCommand(x: Mission, remaining: real, prev: real): real {
    LinearLimited(x, x.linearGain(remaining), prev)
  }

  function Remaining(x: Mission, st: LoopState, pose: Pose): real {
    x.plan.distance - Distance(x.m, st.phaseStart, pose)
  }

  /** One pass through the loop body, exits tested in the source's order. */
  function Step(x: Mission, st: LoopState, t: Tick): Outcome
  {
    if t.cancelled then Exit(Failed(Cancelled, st.traveled, Some(st.lastPose), WasCancelled))
    else if t.tokenExpired || t.now >= x.deadline then
      Exit(Failed(ActionTimeout, st.traveled, Some(st.lastPose), TimedOut))
    else if !t.odometry.Usable() then
      Exit(Failed(SensorStale, st.traveled, Some(st.lastPose), SafetyStop))
    else
      var pose := t.odometry.pose.value;
      var seen := st.(traveled := st.traveled + Distance(x.m, st.lastPose, pose), lastPose := pose);
      if st.phase == Turning then TurnStep(x, seen, pose)
      else if x.obstacle(t.scan).Some? then
        Exit(Failed(SafetyRejected, seen.traveled, Some(pose), SafetyStop))
      else DriveStep(x, seen, pose)
  }

  function TurnStep(x: Mission, seen: LoopState, pose: Pose): Outcome
  {
    var error := x.headingError(pose.yaw);
    if Abs(error) <= x.settings.angleTolerance then
      if x.plan.rotation then Exit(Reached(seen.traveled, pose))
      else SwitchPhase(seen.(phase := Driving, phaseStart := pose, prevAngular := 0.0))
    else
      var twist := Twist(0.0, AngularCommand(x, error, seen.prevAngular));
      Drive(seen.(prevLinear := twist.linear, prevAngular := twist.angular), twist)
  }

  function DriveStep(x: Mission, seen: LoopState, pose: Pose): Outcome
  {
    var remaining := Remaining(x, seen, pose);
    if remaining <= x.settings.positionTolerance then Exit(Reached(seen.traveled, pose))
    else
      var headingError := x.headingError(pose.yaw);
      var twist := Twist(LinearCommand(x, remaining, seen.prevLinear),
                         AngularCommand(x, headingError, seen.prevAngular));
      Drive(seen.(prevLinear := twist.linear, prevAngular := twist.angular), twist)
  }

  function Apply(run: LoopRun, k: nat, outcome: Outcome): LoopRun {
    match outcome
    case Exit(result) => LoopRun(run.log + [Stop(ZeroTwist)], run.state, Some(result))
    case SwitchPhase(next) => run.(state := next)
    case Drive(next, twist) => LoopRun(run.log + [Control(twist, run.state.phase, k)], next, None)
  }

  /** The loop over the tick samples; nothing happens after it returned. */
  function RunLoop(x: Mission, start: Pose, ticks: seq<Tick>): LoopRun
    decreases |ticks|
  {
    if |ticks| == 0 then LoopRun([], InitialState(x.plan, start), None)
    else
      var k := |ticks| - 1;
      var run := RunLoop(x, start, ticks[..k]);
      if run.result.Some? then run else Apply(run, k, Step(x, run.state, ticks[k]))
  }

  function MissionFor(m: Math, limits: Constraints, settings: Settings, target: MoveTarget, start: Pose,
                      deadline: real): (x: Mission)
    requires m.pi > 0.0 && target.WellFormed()
    ensures x.Wired()
  {
    var plan := MakePlan(m.pi, target, start);
    Mission(m, limits, settings, plan, deadline,
            limits.maxLinearAccel * settings.tick, limits.maxAngularAccel * settings.tick,
            (remaining: real) => settings.kpLinear * remaining,
            (error: real) => settings.kpAngular * error,
            (yaw: real) => AngularDifference(m.pi, plan.heading, yaw),
            (scan: Option<Scan>) => ObstacleAhead(m, settings, scan, TravelSector(plan), limits.obstacleStopDistance))
  }

  /** A whole `move`. */
  function RunMove(m: Math, limits: Constraints, settings: Settings, target: MoveTarget,
                   timeout: real, startTime: real, startOdometry: Odometry, ticks: seq<Tick>): MoveTrace
    requires m.pi > 0.0 && target.WellFormed()
  {
    if !startOdometry.Usable() then MoveTrace([Stop(ZeroTwist)], Some(Failed(SensorStale, 0.0, None, SafetyStop)))
    else
      var start := startOdometry.pose.value;
      var run := RunLoop(MissionFor(m, limits, settings, target, start, startTime + timeout), start, ticks);
      MoveTrace(run.log, run.result)
  }

  /** Once the loop has returned, further samples change nothing. */
  lemma {:induction false} RunStaysFinished(x: Mission, start: Pose, ticks: seq<Tick>, k: nat)
    requires k <= |ticks| && RunLoop(x, start, ticks[..k]).result.Some?
    ensures RunLoop(x, start, ticks) == RunLoop(x, start, ticks[..k])
  {
    if k < |ticks| {
      var init := ticks[..|ticks| - 1];
      assert init[..k] == ticks[..k];
      RunStaysFinished(x, start, init, k);
    } else {
      assert ticks[..k] == ticks;
    }
  }

  lemma RunOneMore(x: Mission, start: Pose, ticks: seq<Tick>, k: nat)
    requires k < |ticks| && RunLoop(x, start, ticks[..k]).result.None?
    ensures RunLoop(x, start, ticks[..k + 1]) ==
            Apply(RunLoop(x, start, ticks[..k]), k, Step(x, RunLoop(x, start, ticks[..k]).state, ticks[k]))
  {
    assert ticks[..k + 1][..k] == ticks[..k];
  }

  // ----- the loop as the source runs it

  method ReadObstacle(m: Math, settings: Settings, scan: Option<Scan>, sector: Sector, stop: real)
    returns (range: Option<real>)
    ensures range == ObstacleAhead(m, settings, scan, sector, stop)
  {
    if !settings.watchesScan {
      return None;
    }
    if scan.None? {
      return None;
    }
    var analysis := AnalyzeLaserScan(m, scan.value);
    var reading := analysis.sectors[sector];
    if reading.Some? && reading.value.range < stop {
      return Some(reading.value.range);
    }
    return None;
  }

  /** The body of the `while True` loop, up to the sleep. */
  method LoopBody(x: Mission, st: LoopState, t: Tick) returns (outcome: Outcome)
    requires x.Wired()
    ensures outcome == Step(x, st, t)
  {
    if t.cancelled {
      return Exit(Failed(Cancelled, st.traveled, Some(st.lastPose), WasCancelled));
    }
    if t.tokenExpired || t.now >= x.deadline {
      return Exit(Failed(ActionTimeout, st.traveled, Some(st.lastPose), TimedOut));
    }
    if t.odometry.pose.None? || !t.odometry.isFresh {
      return Exit(Failed(SensorStale, st.traveled, Some(st.lastPose), SafetyStop));
    }
    var pose := t.odometry.pose.value;
    var traveled := st.traveled + Distance(x.m, st.lastPose, pose);
    var seen := st.(traveled := traveled, lastPose := pose);
    if st.phase == Driving {
      var sector := if x.plan.sense == Reverse then RearSector else FrontSector;
      var obstacle := ReadObstacle(x.m, x.settings, t.scan, sector, x.limits.obstacleStopDistance);
      assert x.ObstacleAt(t.scan);
      if obstacle.Some? {
        return Exit(Failed(SafetyRejected, traveled, Some(pose), SafetyStop));
      }
    }
    var linear, angular;
    if st.phase == Turning {
      var error := NormalizeAngle(x.m.pi, x.plan.heading - pose.yaw);
      assert x.HeadingErrorAt(pose.yaw);
      if Abs(error) <= x.settings.angleTolerance {
        if x.plan.rotation {
          return Exit(Reached(traveled, pose));
        }
        return SwitchPhase(seen.(phase := Driving, phaseStart := pose, prevAngular := 0.0));
      }
      linear, angular := 0.0, AngularCommand(x, error, st.prevAngular);
    } else {
      var remaining := x.plan.distance - Distance(x.m, st.phaseStart, pose);
      if remaining <= x.settings.positionTolerance {
        return Exit(Reached(traveled, pose));
      }
      var headingError := NormalizeAngle(x.m.pi, x.plan.heading - pose.yaw);
      assert x.HeadingErrorAt(pose.yaw);
      angular := AngularCommand(x, headingError, st.prevAngular);
      linear := LinearCommand(x, remaining, st.prevLinear);
    }
    return Drive(seen.(prevLinear := linear, prevAngular := angular), Twist(linear, angular));
  }

  /** `CmdVelMotionPlugin.move`. */
  method Move(m: Math, limits: Constraints, settings: Settings, target: MoveTarget,
              timeout: real, startTime: real, startOdometry: Odometry, ticks: seq<Tick>)
    returns (log: seq<Published>, result: Option<MotionResult>)
    requires m.pi > 0.0 && target.WellFormed()
    ensures MoveTrace(log, result) == RunMove(m, limits, settings, target, timeout, startTime, startOdometry, ticks)
  {
    log, result := [], None;
    if startOdometry.pose.None? || !startOdometry.isFresh {
      return [Stop(ZeroTwist)], Some(Failed(SensorStale, 0.0, None, SafetyStop));
    }
    var start := startOdometry.pose.value;
    var x := MissionFor(m, limits, settings, target, start, startTime + timeout);
    var state := InitialState(x.plan, start);
    var i := 0;
    while i < |ticks|
      invariant i <= |ticks|
      invariant RunLoop(x, start, ticks[..i]) == LoopRun(log, state, None)
    {
      RunOneMore(x, start, ticks, i);
      var outcome := LoopBody(x, state, ticks[i]);
      match outcome {
        case Exit(reached) =>
          log := log + [Stop(ZeroTwist)];
          RunStaysFinished(x, start, ticks, i + 1);
          return log, Some(reached);
        case SwitchPhase(next) =>
          state := next;
        case Drive(next, twist) =>
          log := log + [Control(twist, state.phase, i)];
          state := next;
      }
      i := i + 1;
    }
    assert ticks[..i] == ticks;
  }
}
