/**
 The acceleration clamp across the turning/driving switch.

 docs/07-motion-architecture.md:74-77 promises that a command never steps discontinuously from
 the previously published one. The switch resets the remembered angular command to zero without
 publishing anything, so for left/right moves the promise can fail there. This module gives the
 exact condition: the promise holds on every run of a command if and only if `NoAngularJump` does.
 */
module PhaseSwitch {
  import opened RealMath
  import opened Geometry
  import opened Core
  import opened CmdVel
  import opened MotionSafety

  ghost predicate AngularStepOk(x: Mission, p: Published, q: Published) {
    p.Control? && q.Control? ==> Abs(q.twist.angular - p.twist.angular) <= x.angularStep
  }

  ghost predicate AngularSmooth(x: Mission, log: seq<Published>) {
    forall i | 0 <= i < |log| - 1 :: AngularStepOk(x, log[i], log[i + 1])
  }

  /** The promise, over every run of the command. */
  ghost predicate NeverJumps(m: Math, limits: Constraints, settings: Settings, target: MoveTarget)
    requires m.pi > 0.0 && target.WellFormed()
  {
    forall start: Pose, deadline: real, ticks: seq<Tick> ::
      AngularSmooth(MissionFor(m, limits, settings, target, start, deadline),
                    RunLoop(MissionFor(m, limits, settings, target, start, deadline), start, ticks).log)
  }

  /** The fastest turn the loop can ever command. */
  function TopTurnRate(pi: real, limits: Constraints, settings: Settings): real {
    Min(limits.maxAngular, settings.kpAngular * pi)
  }

  predicate Sideways(target: MoveTarget) {
    target.direction == Translate(Left) || target.direction == Translate(Right)
  }

  /** Checkable before the call: no turn precedes a drive, or no drive follows, or no turn is ever
      commanded, or the top turn rate is at most half an acceleration step. */
  predicate NoAngularJump(pi: real, limits: Constraints, settings: Settings, target: MoveTarget)
    requires target.WellFormed()
  {
    || !Sideways(target)
    || target.distance.value <= settings.positionTolerance
    || settings.angleTolerance >= pi
    || 2.0 * TopTurnRate(pi, limits, settings) <= limits.maxAngularAccel * settings.tick
  }

  ghost predicate Sensible(m: Math, limits: Constraints, settings: Settings) {
    m.Sound() && limits.Positive() && settings.tick > 0.0 && settings.kpAngular > 0.0 && settings.angleTolerance >= 0.0
  }

  ghost predicate SensibleMission(x: Mission) {
    && Sensible(x.m, x.limits, x.settings) && x.linearStep > 0.0 && x.angularStep > 0.0
    && x.Wired()
  }

  // ----- the condition suffices

  ghost predicate OnePhase(log: seq<Published>, phase: Phase) {
    forall i | 0 <= i < |log| :: log[i].Control? ==> log[i].phase == phase
  }

  lemma OnePhaseIsSmooth(x: Mission, log: seq<Published>, phase: Phase)
    requires OnePhase(log, phase) && Smooth(x, log)
    ensures AngularSmooth(x, log)
  {
    forall i | 0 <= i < |log| - 1
      ensures AngularStepOk(x, log[i], log[i + 1])
    {
      assert SmoothStep(x, log[i], log[i + 1]);
    }
  }

  lemma {:induction false} StraightMovesOnlyDrive(x: Mission, start: Pose, ticks: seq<Tick>)
    requires x.plan.firstPhase == Driving
    ensures RunLoop(x, start, ticks).state.phase == Driving && OnePhase(RunLoop(x, start, ticks).log, Driving)
  {
    if |ticks| > 0 {
      StraightMovesOnlyDrive(x, start, ticks[..|ticks| - 1]);
    }
  }

  lemma {:induction false} RotationsOnlyTurn(x: Mission, start: Pose, ticks: seq<Tick>)
    requires x.plan.firstPhase == Turning && x.plan.rotation
    ensures RunLoop(x, start, ticks).state.phase == Turning && OnePhase(RunLoop(x, start, ticks).log, Turning)
  {
    if |ticks| > 0 {
      RotationsOnlyTurn(x, start, ticks[..|ticks| - 1]);
    }
  }

  lemma DistanceNonNegative(m: Math, a: Pose, b: Pose)
    requires m.Sound()
    ensures Distance(m, a, b) >= 0.0
  {
    assert m.HypotIsNorm(b.x - a.x, b.y - a.y);
  }

  lemma StepShortMove(x: Mission, st: LoopState, t: Tick)
    requires x.m.Sound() && x.plan.distance <= x.settings.positionTolerance && st.phase == Driving
    ensures !Step(x, st, t).Drive?
  {
    if t.odometry.Usable() {
      DistanceNonNegative(x.m, st.phaseStart, t.odometry.pose.value);
    }
  }

  lemma {:induction false} ShortMovesNeverDrive(x: Mission, start: Pose, ticks: seq<Tick>)
    requires x.m.Sound() && x.plan.distance <= x.settings.positionTolerance
    ensures OnePhase(RunLoop(x, start, ticks).log, Turning)
  {
    if |ticks| > 0 {
      var k := |ticks| - 1;
      ShortMovesNeverDrive(x, start, ticks[..k]);
      var st := RunLoop(x, start, ticks[..k]).state;
      if st.phase == Driving {
        StepShortMove(x, st, ticks[k]);
      }
    }
  }

  lemma {:induction false} WideTolerancesNeverTurn(x: Mission, start: Pose, ticks: seq<Tick>)
    requires x.Wired() && x.settings.angleTolerance >= x.m.pi
    ensures OnePhase(RunLoop(x, start, ticks).log, Driving)
  {
    if |ticks| > 0 {
      var t := ticks[|ticks| - 1];
      WideTolerancesNeverTurn(x, start, ticks[..|ticks| - 1]);
      if t.odometry.Usable() {
        assert x.HeadingErrorAt(t.odometry.pose.value.yaw);
      }
    }
  }

  lemma GainBounded(kp: real, pi: real, error: real)
    requires kp > 0.0 && -pi < error <= pi
    ensures Abs(kp * error) <= kp * pi
  {
    var w, full, neg := kp * error, kp * pi, kp * -pi;
    ProductMonotone(error, pi, kp);
    ProductMonotone(-pi, error, kp);
    NegatedFactor(kp, pi);
    assert neg <= w <= full && neg == -full;
  }

  lemma LimitedTurn(x: Mission, requested: real, prev: real, top: real)
    requires x.limits.maxAngular > 0.0 && Min(x.limits.maxAngular, Abs(requested)) <= top && Abs(prev) <= top
    ensures Abs(AngularLimited(x, requested, prev)) <= top
  {
    ClampDeltaBetween(Clamp(requested, -x.limits.maxAngular, x.limits.maxAngular), prev, x.angularStep);
  }

  /** The law's answer to a half turn bounds its answer to every heading error. */
  lemma TurnGain(x: Mission, error: real)
    requires x.Wired() && x.settings.kpAngular > 0.0 && Principal(x.m.pi, error)
    ensures Abs(x.angularGain(error)) <= x.angularGain(x.m.pi)
  {
    GainBounded(x.settings.kpAngular, x.m.pi, error);
    assert x.AngularGainAt(error) && x.AngularGainAt(x.m.pi);
  }

  function TopRate(x: Mission): real {
    Min(x.limits.maxAngular, x.angularGain(x.m.pi))
  }

  lemma TopRateIsTopTurnRate(x: Mission)
    requires x.Wired() && x.limits.maxAngular > 0.0 && x.settings.kpAngular > 0.0
    ensures TopRate(x) == TopTurnRate(x.m.pi, x.limits, x.settings) && x.angularGain(x.m.pi) > 0.0
  {
    ProductPositive(x.settings.kpAngular, x.m.pi);
    assert x.AngularGainAt(x.m.pi);
  }

  lemma TurnCommandBounded(x: Mission, error: real, prev: real)
    requires x.Wired() && x.limits.maxAngular > 0.0 && x.settings.kpAngular > 0.0
    requires Principal(x.m.pi, error) && Abs(prev) <= TopRate(x)
    ensures Abs(AngularCommand(x, error, prev)) <= TopRate(x)
  {
    TurnGain(x, error);
    LimitedTurn(x, x.angularGain(error), prev, TopRate(x));
  }

  ghost predicate TurnsBounded(run: LoopRun, top: real) {
    Abs(run.state.prevAngular) <= top
    && forall i | 0 <= i < |run.log| :: Abs(run.log[i].twist.angular) <= top
  }

  lemma {:induction false} TurnRateBounded(x: Mission, start: Pose, ticks: seq<Tick>)
    requires x.Wired() && x.limits.maxAngular > 0.0 && x.settings.kpAngular > 0.0
    ensures TurnsBounded(RunLoop(x, start, ticks), TopRate(x))
  {
    TurnGain(x, 0.0);
    if |ticks| > 0 {
      var k := |ticks| - 1;
      TurnRateBounded(x, start, ticks[..k]);
      var st := RunLoop(x, start, ticks[..k]).state;
      if ticks[k].odometry.Usable() {
        var yaw := ticks[k].odometry.pose.value.yaw;
        assert x.HeadingErrorAt(yaw);
        TurnCommandBounded(x, x.headingError(yaw), st.prevAngular);
      }
      StepTurnBounded(x, st, ticks[k], TopRate(x));
    }
  }

  lemma StepTurnBounded(x: Mission, st: LoopState, t: Tick, top: real)
    requires top >= 0.0 && Abs(st.prevAngular) <= top
    requires t.odometry.Usable() ==>
               Abs(AngularCommand(x, x.headingError(t.odometry.pose.value.yaw), st.prevAngular)) <= top
    ensures match Step(x, st, t)
            case Exit(_) => true
            case SwitchPhase(next) => next.prevAngular == 0.0
            case Drive(next, twist) => Abs(twist.angular) <= top && next.prevAngular == twist.angular
  {}

  lemma PlanShape(pi: real, target: MoveTarget, start: Pose)
    requires pi > 0.0 && target.WellFormed()
    ensures var plan := MakePlan(pi, target, start);
            && plan.rotation == target.direction.IsRotation()
            && (plan.firstPhase == Turning <==> plan.rotation || Sideways(target))
            && (Sideways(target) ==> plan.distance == target.distance.value)
  {}

  lemma SmallTurnsAreSmooth(x: Mission, log: seq<Published>, top: real)
    requires 2.0 * top <= x.angularStep
    requires forall i | 0 <= i < |log| :: Abs(log[i].twist.angular) <= top
    ensures AngularSmooth(x, log)
  {}

  lemma NoJumpSuffices(x: Mission, start: Pose, ticks: seq<Tick>)
    requires SensibleMission(x)
    requires || x.plan.firstPhase == Driving || x.plan.rotation
             || x.plan.distance <= x.settings.positionTolerance
             || x.settings.angleTolerance >= x.m.pi
             || 2.0 * TopRate(x) <= x.angularStep
    ensures AngularSmooth(x, RunLoop(x, start, ticks).log)
  {
    var log := RunLoop(x, start, ticks).log;
    AccelerationLimited(x, start, ticks);
    if x.plan.firstPhase == Driving {
      StraightMovesOnlyDrive(x, start, ticks);
      OnePhaseIsSmooth(x, log, Driving);
    } else if x.plan.rotation {
      RotationsOnlyTurn(x, start, ticks);
      OnePhaseIsSmooth(x, log, Turning);
    } else if x.plan.distance <= x.settings.positionTolerance {
      ShortMovesNeverDrive(x, start, ticks);
      OnePhaseIsSmooth(x, log, Turning);
    } else if x.settings.angleTolerance >= x.m.pi {
      WideTolerancesNeverTurn(x, start, ticks);
      OnePhaseIsSmooth(x, log, Driving);
    } else {
      TurnRateBounded(x, start, ticks);
      SmallTurnsAreSmooth(x, log, TopRate(x));
    }
  }

  // ----- and it is necessary: three ticks that break the promise otherwise

  /** A tick in which nothing stops the robot, which sits at the origin facing `yaw`. */
  function QuietTick(yaw: real): Tick {
    Tick(false, false, 0.0, Odometry(Some(Pose(0.0, 0.0, yaw)), true), None)
  }

  const Origin := Pose(0.0, 0.0, 0.0)

  /** Facing backwards, then on the heading, then some way past it. */
  function SwitchTicks(x: Mission, yaw: real): seq<Tick> {
    [QuietTick(x.plan.heading - x.m.pi), QuietTick(x.plan.heading), QuietTick(yaw)]
  }

  /** How far past the heading the third tick has to be. */
  lemma OvershootExists(top: real, limit: real) returns (q: real)
    requires top > 0.0 && limit > 0.0 && 2.0 * top > limit
    ensures 0.0 < q < 1.0 && top * q > limit - Min(top, limit)
  {
    var gap := limit - Min(top, limit);
    var share := gap / top;
    assert share * top == gap;
    assert 0.0 <= gap < top;
    if share >= 1.0 { ProductMonotone(1.0, share, top); }
    var minus := -share;
    assert minus * top == -(share * top);
    if share < 0.0 { ProductPositive(minus, top); }
    q := (share + 1.0) / 2.0;
    assert top * q == (share * top + top) / 2.0;
  }

  /** Two commands from rest, one to each side, more than one step apart. */
  lemma OppositeCommands(x: Mission, full: real, part: real, top: real)
    requires x.limits.maxAngular > 0.0 && x.angularStep > 0.0
    requires top == Min(x.limits.maxAngular, full) && top > 0.0
    requires x.angularStep - Min(top, x.angularStep) < part <= full && x.angularStep - Min(top, x.angularStep) < top
    ensures AngularLimited(x, full, 0.0) - AngularLimited(x, -part, 0.0) > x.angularStep
  {
  }

  lemma QuietStep(x: Mission, st: LoopState, yaw: real)
    requires x.Wired()
    requires x.m.Sound() && x.deadline > 0.0 && st.lastPose.x == 0.0 && st.lastPose.y == 0.0
    requires st.phaseStart.x == 0.0 && st.phaseStart.y == 0.0
    ensures var pose := Pose(0.0, 0.0, yaw);
            Step(x, st, QuietTick(yaw)) ==
            if st.phase == Turning then TurnStep(x, st.(lastPose := pose), pose)
            else DriveStep(x, st.(lastPose := pose), pose)
    ensures Remaining(x, st, Pose(0.0, 0.0, yaw)) == x.plan.distance
  {
    HypotZero(x.m);
    assert x.ObstacleAt(None);
  }

  lemma WrappedError(pi: real, h: real, error: real)
    requires pi > 0.0 && Principal(pi, error)
    ensures AngularDifference(pi, h, h - error) == error
  {
    NormalizeUnique(pi, error, error, 0);
    assert h - (h - error) == error;
  }

  lemma HeadingErrorOf(x: Mission, error: real)
    requires x.Wired() && Principal(x.m.pi, error)
    ensures x.headingError(x.plan.heading - error) == error
  {
    WrappedError(x.m.pi, x.plan.heading, error);
    assert x.HeadingErrorAt(x.plan.heading - error);
  }

  /** The three-tick run publishes a turn command and then, the phase having switched in between, a
      drive command. */
  lemma FirstTurn(x: Mission)
    requires x.m.Sound() && x.Wired() && x.deadline > 0.0 && 0.0 <= x.settings.angleTolerance < x.m.pi
    requires x.plan.firstPhase == Turning
    ensures x.headingError(x.plan.heading - x.m.pi) == x.m.pi ==>
            var w := AngularCommand(x, x.m.pi, 0.0);
            Step(x, InitialState(x.plan, Origin), QuietTick(x.plan.heading - x.m.pi)) ==
            Drive(LoopState(Turning, Origin, 0.0, Pose(0.0, 0.0, x.plan.heading - x.m.pi), 0.0, w), Twist(0.0, w))
  {
    QuietStep(x, InitialState(x.plan, Origin), x.plan.heading - x.m.pi);
  }

  lemma ThenSwitch(x: Mission, st: LoopState)
    requires x.m.Sound() && x.Wired() && x.deadline > 0.0 && 0.0 <= x.settings.angleTolerance
    requires st.phase == Turning && !x.plan.rotation && st.phaseStart == Origin
    requires st.lastPose.x == 0.0 && st.lastPose.y == 0.0
    requires x.headingError(x.plan.heading) == 0.0
    ensures Step(x, st, QuietTick(x.plan.heading)) ==
            SwitchPhase(st.(phase := Driving, phaseStart := Pose(0.0, 0.0, x.plan.heading),
                            lastPose := Pose(0.0, 0.0, x.plan.heading), prevAngular := 0.0))
  {
    QuietStep(x, st, x.plan.heading);
  }

  lemma ThenDrive(x: Mission, st: LoopState, yaw: real, error: real)
    requires x.m.Sound() && x.Wired() && x.deadline > 0.0 && st.phase == Driving && st.prevAngular == 0.0
    requires x.plan.distance > x.settings.positionTolerance
    requires st.phaseStart.x == 0.0 && st.phaseStart.y == 0.0 && st.lastPose.x == 0.0 && st.lastPose.y == 0.0
    requires x.headingError(yaw) == error
    ensures Step(x, st, QuietTick(yaw)).Drive?
    ensures Step(x, st, QuietTick(yaw)).twist.angular == AngularCommand(x, error, 0.0)
  {
    QuietStep(x, st, yaw);
  }

  lemma TurnThenSwitch(x: Mission, yaw: real)
    requires x.m.Sound() && x.Wired() && x.deadline > 0.0 && 0.0 <= x.settings.angleTolerance < x.m.pi
    requires x.plan.firstPhase == Turning && !x.plan.rotation
    ensures var ticks := SwitchTicks(x, yaw);
            var there := Pose(0.0, 0.0, x.plan.heading);
            RunLoop(x, Origin, ticks[..2]) ==
            LoopRun([Control(Twist(0.0, AngularCommand(x, x.m.pi, 0.0)), Turning, 0)],
                    LoopState(Driving, there, 0.0, there, 0.0, 0.0), None)
  {
    var ticks := SwitchTicks(x, yaw);
    HeadingErrorOf(x, x.m.pi);
    HeadingErrorOf(x, 0.0);
    assert x.plan.heading - 0.0 == x.plan.heading;
    FirstTurn(x);
    RunOneMore(x, Origin, ticks, 0);
    ThenSwitch(x, RunLoop(x, Origin, ticks[..1]).state);
    RunOneMore(x, Origin, ticks, 1);
  }

  lemma SwitchRun(x: Mission, yaw: real, error: real)
    requires x.m.Sound() && x.Wired() && x.deadline > 0.0 && 0.0 <= x.settings.angleTolerance < x.m.pi
    requires x.plan.firstPhase == Turning && !x.plan.rotation && x.plan.distance > x.settings.positionTolerance
    requires x.headingError(yaw) == error
    ensures var log := RunLoop(x, Origin, SwitchTicks(x, yaw)).log;
            && |log| == 2 && log[0].Control? && log[1].Control?
            && log[0].twist.angular == AngularCommand(x, x.m.pi, 0.0)
            && log[1].twist.angular == AngularCommand(x, error, 0.0)
  {
    var ticks := SwitchTicks(x, yaw);
    TurnThenSwitch(x, yaw);
    ThenDrive(x, RunLoop(x, Origin, ticks[..2]).state, yaw, error);
    RunOneMore(x, Origin, ticks, 2);
    assert ticks[..3] == ticks;
  }

  /** A heading error whose command from rest is opposite to a half turn's and far enough from it. */
  lemma OppositeError(kp: real, pi: real, maxA: real, step: real) returns (error: real, part: real)
    requires pi > 0.0 && maxA > 0.0 && step > 0.0 && kp > 0.0 && 2.0 * Min(maxA, kp * pi) > step
    ensures -pi < error < 0.0 && kp * error == -part
    ensures var top := Min(maxA, kp * pi);
            top > 0.0 && step - Min(top, step) < part <= kp * pi && step - Min(top, step) < top
  {
    ProductPositive(kp, pi);
    var top := Min(maxA, kp * pi);
    var q := OvershootExists(top, step);
    error := -(pi * q);
    ProductPositive(pi, q);
    ProductPositive(pi, 1.0 - q);
    assert pi * (1.0 - q) == pi - pi * q;
    part := PartOfGain(kp, pi, q, error, top, step - Min(top, step));
  }

  lemma PartOfGain(kp: real, pi: real, q: real, error: real, top: real, gap: real) returns (part: real)
    requires kp > 0.0 && pi > 0.0 && 0.0 < q < 1.0 && 0.0 < top <= kp * pi
    requires error == -(pi * q) && top * q > gap
    ensures kp * error == -part && gap < part <= kp * pi && gap < top
  {
    var full := kp * pi;
    part := full * q;
    NegatedFactor(kp, pi * q);
    assert kp * (pi * q) == part;
    ProductMonotone(top, full, q);
    ProductMonotone(q, 1.0, full);
    ProductMonotone(q, 1.0, top);
  }

  lemma OppositeGain(x: Mission) returns (error: real, part: real)
    requires x.Wired() && x.limits.maxAngular > 0.0 && x.angularStep > 0.0 && x.settings.kpAngular > 0.0
    requires 2.0 * TopRate(x) > x.angularStep
    ensures -x.m.pi < error < 0.0 && x.angularGain(error) == -part
    ensures var top := TopRate(x);
            top > 0.0 && x.angularStep - Min(top, x.angularStep) < part <= x.angularGain(x.m.pi)
            && x.angularStep - Min(top, x.angularStep) < top
  {
    assert x.AngularGainAt(x.m.pi);
    error, part := OppositeError(x.settings.kpAngular, x.m.pi, x.limits.maxAngular, x.angularStep);
    assert x.AngularGainAt(error);
  }

  lemma JumpingRun(x: Mission)
    requires SensibleMission(x) && x.deadline > 0.0 && x.settings.angleTolerance < x.m.pi
    requires x.plan.firstPhase == Turning && !x.plan.rotation && x.plan.distance > x.settings.positionTolerance
    requires 2.0 * TopRate(x) > x.angularStep
    ensures exists ticks: seq<Tick> :: !AngularSmooth(x, RunLoop(x, Origin, ticks).log)
  {
    var error, part := OppositeGain(x);
    OppositeCommands(x, x.angularGain(x.m.pi), part, TopRate(x));
    HeadingErrorOf(x, error);
    var yaw := x.plan.heading - error;
    SwitchRun(x, yaw, error);
    var log := RunLoop(x, Origin, SwitchTicks(x, yaw)).log;
    assert !AngularStepOk(x, log[0], log[0 + 1]);
    assert !AngularSmooth(x, log);
  }

  /** The acceleration promise holds on every run of a command exactly when `NoAngularJump` does. */
  lemma AngularPromiseExactly(m: Math, limits: Constraints, settings: Settings, target: MoveTarget)
    requires target.WellFormed() && Sensible(m, limits, settings)
    ensures NeverJumps(m, limits, settings, target) <==> NoAngularJump(m.pi, limits, settings, target)
  {
    if NoAngularJump(m.pi, limits, settings, target) {
      forall start: Pose, deadline: real, ticks: seq<Tick>
        ensures AngularSmooth(MissionFor(m, limits, settings, target, start, deadline),
                              RunLoop(MissionFor(m, limits, settings, target, start, deadline), start, ticks).log)
      {
        PlanShape(m.pi, target, start);
        MissionSteps(m, limits, settings, target, start, deadline);
        TopRateIsTopTurnRate(MissionFor(m, limits, settings, target, start, deadline));
        NoJumpSuffices(MissionFor(m, limits, settings, target, start, deadline), start, ticks);
      }
    } else {
      PlanShape(m.pi, target, Origin);
      MissionSteps(m, limits, settings, target, Origin, 1.0);
      TopRateIsTopTurnRate(MissionFor(m, limits, settings, target, Origin, 1.0));
      JumpingRun(MissionFor(m, limits, settings, target, Origin, 1.0));
    }
  }
}
