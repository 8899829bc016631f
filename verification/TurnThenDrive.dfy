/**
 A move to the left or right: a turn in place, and from the pose in which the turn ends a drive ahead. When the
 turn ends exactly on its heading, the drive is the one of `DriveConvergence` and ends where the safety
 gate predicted.
 */
module TurnThenDrive {
  import opened RealMath
  import opened Geometry
  import opened Core
  import opened CmdVel
  import MotionSafety
  import opened DriveConvergence
  import T = TurnConvergence

  /** The mission's second phase, as a mission of its own. */
  function DriveOf(x: Mission): Mission { x.(plan := x.plan.(firstPhase := Driving)) }

  /** Alike but for the odometer. */
  ghost predicate Alike(a: LoopState, b: LoopState) {
    a.phase == Driving && b.phase == Driving && a.phaseStart == b.phaseStart
    && a.prevLinear == b.prevLinear && a.prevAngular == b.prevAngular
  }

  ghost predicate AlikeRuns(a: LoopRun, b: LoopRun) {
    if a.result.None? then b.result.None? && Alike(a.state, b.state)
    else
      && b.result.Some? && a.result.value.succeeded == b.result.value.succeeded
      && (a.result.value.succeeded ==> a.result.value.finalPose == b.result.value.finalPose)
  }

  lemma StepsAlike(x: Mission, a: LoopRun, b: LoopRun, j: nat, k: nat, t: Tick)
    requires a.result.None? && b.result.None? && Alike(a.state, b.state)
    ensures AlikeRuns(Apply(a, j, Step(x, a.state, t)), Apply(b, k, Step(DriveOf(x), b.state, t)))
  {}

  /** From the end of the turn on, the run is that of the drive. */
  lemma {:induction false} RunsAlike(x: Mission, start: Pose, before: seq<Tick>, here: Pose, rest: seq<Tick>)
    requires var run := RunLoop(x, start, before);
             run.result.None? && Alike(run.state, InitialState(DriveOf(x).plan, here))
    ensures AlikeRuns(RunLoop(x, start, before + rest), RunLoop(DriveOf(x), here, rest))
    decreases |rest|
  {
    if |rest| == 0 {
      assert before + rest == before;
    } else {
      var init, last := rest[..|rest| - 1], rest[|rest| - 1];
      RunsAlike(x, start, before, here, init);
      var all := before + rest;
      assert all[..|all| - 1] == before + init && all[|all| - 1] == last;
      var a, b := RunLoop(x, start, before + init), RunLoop(DriveOf(x), here, init);
      if a.result.None? { StepsAlike(x, a, b, |all| - 1, |rest| - 1, last); }
    }
  }

  /** Where an exact turn ends. */
  function TurnEnd(x: Mission, start: Pose): Pose { Pose(start.x, start.y, x.plan.heading) }

  /** The last of these passes is the first to find the heading reached, and finds it reached exactly, where
      the move started. */
  ghost predicate EndsExactly(x: Mission, start: Pose, turn: seq<Tick>) {
    && |turn| > 0 && T.Calm(x, turn[|turn| - 1]) && turn[|turn| - 1].odometry.pose == Some(TurnEnd(x, start))
    && var run := RunLoop(x, start, turn[..|turn| - 1]); run.result.None? && run.state.phase == Turning
  }

  /** While it turns the robot is never sent forward. */
  lemma {:induction false} TurningIsInPlace(x: Mission, start: Pose, ticks: seq<Tick>)
    ensures RunLoop(x, start, ticks).state.phase == Turning ==> RunLoop(x, start, ticks).state.prevLinear == 0.0
  {
    if |ticks| > 0 { TurningIsInPlace(x, start, ticks[..|ticks| - 1]); }
  }

  lemma {:induction false} ThenDrives(x: Mission, start: Pose, turn: seq<Tick>)
    requires x.Wired() && !x.plan.rotation && x.settings.angleTolerance >= 0.0 && EndsExactly(x, start, turn)
    ensures var run := RunLoop(x, start, turn);
            run.result.None? && Alike(run.state, InitialState(DriveOf(x).plan, TurnEnd(x, start)))
  {
    TurningIsInPlace(x, start, turn[..|turn| - 1]);
    assert x.HeadingErrorAt(x.plan.heading);
    NormalizeUnique(x.m.pi, 0.0, 0.0, 0);
  }

  lemma SideDrive(x: Mission, start: Pose)
    requires x.Wired() && x.limits.Positive() && x.linearStep > 0.0 && x.angularStep > 0.0
    requires x.settings.positionTolerance >= 0.0 && x.plan.distance >= 0.0 && x.plan.sense == Ahead
    ensures StraightDrive(DriveOf(x), TurnEnd(x, start)) && DriveOf(x).Wired()
  {
    var y := DriveOf(x);
    assert x.HeadingErrorAt(x.plan.heading) && x.AngularGainAt(0.0);
    NormalizeUnique(x.m.pi, 0.0, 0.0, 0);
    assert x.settings.kpAngular * 0.0 == 0.0;
    forall yaw: real ensures y.HeadingErrorAt(yaw) { assert x.HeadingErrorAt(yaw); }
    forall r: real ensures y.LinearGainAt(r) && y.AngularGainAt(r) { assert x.LinearGainAt(r) && x.AngularGainAt(r); }
    forall scan ensures y.ObstacleAt(scan) { assert x.ObstacleAt(scan); }
  }

  /** The end of the drive is the prediction made before the turn. */
  lemma EndsAtPrediction(y: Mission, along: Translation, start: Pose, dt: real, run: LoopRun)
    requires (along == Left || along == Right) && y.m.Sound() && y.plan.sense == Ahead
    requires y.plan.heading == DriveHeading(y.m.pi, along, start.yaw)
    requires Arrived(y, IdealWorld(y, Pose(start.x, start.y, y.plan.heading), dt), run)
    ensures run.result.Some? && run.result.value.succeeded && run.result.value.finalPose.Some?
    ensures var (px, py) := ProjectTranslation(y.m, along, y.plan.distance, start);
            Distance(y.m, run.result.value.finalPose.value, Pose(px, py, start.yaw)) <= y.settings.positionTolerance
  {
    var here := Pose(start.x, start.y, y.plan.heading);
    var r: real :| ShortBy(y, IdealWorld(y, here, dt), run.result.value.finalPose, r);
    PredictionAgreesWithExecution(y.m, along, y.plan.distance, start);
    var d := y.plan.distance;
    LineDistance(y.m, here, y.plan.heading, d - r, d);
    assert DriveSign(along) * d == d && y.plan.sense.Signed(d - r) == d - r;
    var end := StraightAhead(y.m, start, y.plan.heading, d);
    assert end == StraightAhead(y.m, here, y.plan.heading, d);
  }

  /** The two halves of the move. */
  ghost predicate TurnsThenDrives(x: Mission, start: Pose, turn: seq<Tick>, drive: seq<Tick>, dt: real, n: nat) {
    var y, here := DriveOf(x), TurnEnd(x, start);
    && EndsExactly(x, start, turn)
    && Tuned(y, dt) && ClosedLoop(y, here, drive, IdealWorld(y, here, dt))
    && LongEnough(y, IdealWorld(y, here, dt), n) && |drive| > n
  }

  /** The result is the prediction's. */
  ghost predicate Reaches(x: Mission, along: Translation, start: Pose, result: Option<MotionResult>) {
    && result.Some? && result.value.succeeded && result.value.finalPose.Some?
    && var (px, py) := ProjectTranslation(x.m, along, x.plan.distance, start);
       Distance(x.m, result.value.finalPose.value, Pose(px, py, start.yaw)) <= x.settings.positionTolerance
  }

  lemma {:induction false} SideMoveReaches(x: Mission, along: Translation, start: Pose, turn: seq<Tick>,
                                           drive: seq<Tick>, dt: real, n: nat)
    requires (along == Left || along == Right) && x.m.Sound() && x.Wired() && !x.plan.rotation
    requires x.settings.angleTolerance >= 0.0
    requires StraightDrive(DriveOf(x), TurnEnd(x, start)) && DriveOf(x).Wired()
    requires x.plan.sense == Ahead && x.plan.heading == DriveHeading(x.m.pi, along, start.yaw)
    requires TurnsThenDrives(x, start, turn, drive, dt, n)
    ensures Reaches(x, along, start, RunLoop(x, start, turn + drive).result)
  {
    var y, here := DriveOf(x), TurnEnd(x, start);
    ThenDrives(x, start, turn);
    RunsAlike(x, start, turn, here, drive);
    DriveArrives(y, here, drive, dt, n);
    EndsAtPrediction(y, along, start, dt, RunLoop(y, here, drive));
  }

  /** A whole move to the left or right whose turn ends exactly succeeds, within the position tolerance of the
      very point the safety gate predicted for it. */
  lemma {:induction false} SideMoveReachesPrediction(
    m: Math, limits: Constraints, settings: Settings, along: Translation, distance: real, timeout: real,
    startTime: real, start: Pose, turn: seq<Tick>, drive: seq<Tick>, dt: real, n: nat)
    requires (along == Left || along == Right) && m.Sound() && limits.Positive() && settings.tick > 0.0
    requires distance >= 0.0 && settings.positionTolerance >= 0.0 && settings.angleTolerance >= 0.0
    requires var x := MissionFor(m, limits, settings, MoveTarget(Translate(along), Some(distance), None), start,
                                 startTime + timeout);
             TurnsThenDrives(x, start, turn, drive, dt, n)
    ensures var target := MoveTarget(Translate(along), Some(distance), None);
            var x := MissionFor(m, limits, settings, target, start, startTime + timeout);
            var trace := RunMove(m, limits, settings, target, timeout, startTime, Odometry(Some(start), true),
                                 turn + drive);
            Reaches(x, along, start, trace.result)
  {
    var target := MoveTarget(Translate(along), Some(distance), None);
    var x := MissionFor(m, limits, settings, target, start, startTime + timeout);
    MotionSafety.MissionSteps(m, limits, settings, target, start, startTime + timeout);
    SideDrive(x, start);
    SideMoveReaches(x, along, start, turn, drive, dt, n);
  }
}
