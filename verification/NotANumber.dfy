/**
 A move whose distance or angle is NaN. JSON as Python reads it has NaN, every comparison with it is false,
 and so it passes the schema's bounds (src/ros_mcp/validation/engine.py), the safety gate's limit
 (src/ros_mcp/safety/policy_engine.py:94) and the approval threshold; in the controller it makes the
 target unreachable and the clamp answer its upper end (cmd_vel_plugin.py:57-58, 297, 327). `CmdVel` and
 `SafetyPolicy` compute with reals; here the steps a NaN reaches are repeated on Python's numbers and
 proved to be the same on finite ones.
 */
module NotANumber {
  import opened RealMath
  import opened Geometry
  import opened Core
  import opened SchemaCheck
  import opened Commands
  import opened SafetyPolicy
  import opened CmdVel

  // ----- Python's arithmetic, as far as it is needed

  function Minus(a: Number, r: real): Number { if a.Finite? then Finite(a.r - r) else a }

  function Times(k: real, a: Number): Number {
    match a
    case Finite(r) => Finite(k * r)
    case NaN => NaN
    case PosInf => if k > 0.0 then PosInf else if k < 0.0 then NegInf else NaN
    case NegInf => if k > 0.0 then NegInf else if k < 0.0 then PosInf else NaN
  }

  /** `a <= bound`. */
  predicate AtMost(a: Number, bound: real) { a == NegInf || (a.Finite? && a.r <= bound) }

  /** `max(lo, min(hi, value))`, each keeping its first argument unless the second is smaller, or larger. */
  function PyClamp(value: Number, lo: real, hi: real): real {
    var least := if Below(value, hi) then value else Finite(hi);
    if least.Finite? && least.r > lo then least.r else lo
  }

  lemma PyClampAgrees(value: Number, lo: real, hi: real)
    ensures value.Finite? ==> PyClamp(value, lo, hi) == Clamp(value.r, lo, hi)
    ensures value == NaN ==> PyClamp(value, lo, hi) == Max(lo, hi)
  {}

  // ----- the gate

  /** The gate's answer to a translation of a session within its rate, no pose known. */
  function JudgeRaw(safety: SafetyConfig, distance: Number): Decision {
    if Above(distance, safety.limits.maxMoveDistance) then Deny(SafetyRejected)
    else if safety.approval == AlwaysHuman then RequireApproval
    else if safety.approval == PolicyBased && Above(distance, safety.approvalAbove) then RequireApproval
    else Allow
  }

  lemma JudgeRawAgrees(m: Math, safety: SafetyConfig, along: Translation, r: real)
    ensures JudgeRaw(safety, Finite(r))
            == Judge(m, safety, MoveRequest(MoveTarget(Translate(along), Some(r), None)), None)
  {}

  /** What the limit promises of an allowed translation. */
  predicate DistanceInBounds(distance: Number, limits: Constraints) {
    distance.Finite? && 0.0 <= distance.r <= limits.maxMoveDistance
  }

  /** The distance limit is kept exactly unless the distance is NaN. */
  lemma DistanceBoundedExactly(args: seq<Field>, readTools: map<string, Schema>, safety: SafetyConfig, t: Timeouts)
    requires var outcome := HandleCall("robot.move", args, readTools, safety.limits, t);
             outcome.Submitted? && outcome.command.target.RawMove? && Translates(Some(outcome.command.target.direction))
    ensures var distance := HandleCall("robot.move", args, readTools, safety.limits, t).command.target.distance;
            && distance.Some? && (distance.value.Int? || distance.value.Float?)
            && (JudgeRaw(safety, NumberOf(distance.value)) == Allow ==>
                  (DistanceInBounds(NumberOf(distance.value), safety.limits) <==> !IsNaN(distance)))
  {
    SubmittedCommandsMeetAsserts("robot.move", args, readTools, safety.limits, t);
  }

  const NaNDistanceCall := [Field("direction", Str("forward")), Field("distance_m", Float(NaN))]

  lemma NaNDistanceConforms()
    ensures Conforms(MoveSchema, Obj(NaNDistanceCall))
  {
    var v := Obj(NaNDistanceCall);
    assert HasKey(v.fields, "direction") by { assert v.fields[0].name == "direction"; }
    assert "forward" == Directions[0];
    assert Conforms(DirectionSchema, Str("forward")) && Conforms(DistanceSchema, Float(NaN));
  }

  lemma NaNDistanceArguments()
    ensures Get(NaNDistanceCall, "direction") == Some(Str("forward"))
    ensures Get(NaNDistanceCall, "distance_m") == Some(Float(NaN)) && Get(NaNDistanceCall, "angle_deg") == None
  {
    var args := NaNDistanceCall;
    assert "direction"[0] == 'd' && "distance_m"[1] == 'i' && "angle_deg"[0] == 'a' && |"distance_m"| == 10;
    assert args[1..][0] == args[1] && args[1..][1..] == [];
  }

  /** The input: "forward NaN m" is validated and allowed, under every configuration that does not send
      everything to approval. */
  lemma NaNDistanceIsAllowed(readTools: map<string, Schema>, safety: SafetyConfig, t: Timeouts)
    requires safety.approval != AlwaysHuman
    ensures var outcome := HandleCall("robot.move", NaNDistanceCall, readTools, safety.limits, t);
            && outcome.Submitted? && outcome.command.target == RawMove(Str("forward"), Some(Float(NaN)), None)
            && JudgeRaw(safety, NaN) == Allow
  {
    CheckDecidesConformance(MoveSchema, Obj(NaNDistanceCall));
    NaNDistanceConforms();
    NaNDistanceArguments();
  }

  // ----- the controller

  /** The driving part of a pass, for a distance and a wrapped heading error of any kind. */
  function DriveStepRaw(x: Mission, seen: LoopState, pose: Pose, distance: Number, error: Number): Outcome {
    var remaining := Minus(distance, Distance(x.m, seen.phaseStart, pose));
    if AtMost(remaining, x.settings.positionTolerance) then Exit(Reached(seen.traveled, pose))
    else
      var speed := PyClamp(Times(x.settings.kpLinear, remaining), 0.0, x.limits.maxLinear);
      var linear := ClampDelta(x.plan.sense.Signed(speed), seen.prevLinear, x.linearStep);
      var angular := AngularRaw(x, error, seen.prevAngular);
      Drive(seen.(prevLinear := linear, prevAngular := angular), Twist(linear, angular))
  }

  function AngularRaw(x: Mission, error: Number, prev: real): real {
    ClampDelta(PyClamp(Times(x.settings.kpAngular, error), -x.limits.maxAngular, x.limits.maxAngular), prev,
               x.angularStep)
  }

  /** The turning part, of a rotation. */
  function RotateStepRaw(x: Mission, seen: LoopState, pose: Pose, error: Number): Outcome {
    if AtMost(error, x.settings.angleTolerance) && !Below(error, -x.settings.angleTolerance) then
      Exit(Reached(seen.traveled, pose))
    else
      var angular := AngularRaw(x, error, seen.prevAngular);
      Drive(seen.(prevLinear := 0.0, prevAngular := angular), Twist(0.0, angular))
  }

  lemma AngularRawAgrees(x: Mission, error: real, prev: real)
    requires x.AngularGainAt(error)
    ensures AngularRaw(x, Finite(error), prev) == AngularCommand(x, error, prev)
  {
    PyClampAgrees(Finite(x.angularGain(error)), -x.limits.maxAngular, x.limits.maxAngular);
  }

  lemma SpeedAgrees(x: Mission, remaining: real)
    requires x.LinearGainAt(remaining)
    ensures PyClamp(Times(x.settings.kpLinear, Finite(remaining)), 0.0, x.limits.maxLinear)
            == Clamp(x.linearGain(remaining), 0.0, x.limits.maxLinear)
  {
    PyClampAgrees(Finite(x.linearGain(remaining)), 0.0, x.limits.maxLinear);
  }

  lemma DriveStepRawAgrees(x: Mission, seen: LoopState, pose: Pose)
    requires x.Wired()
    ensures DriveStepRaw(x, seen, pose, Finite(x.plan.distance), Finite(x.headingError(pose.yaw)))
            == DriveStep(x, seen, pose)
  {
    var remaining, error := Remaining(x, seen, pose), x.headingError(pose.yaw);
    assert x.LinearGainAt(remaining) && x.AngularGainAt(error);
    SpeedAgrees(x, remaining);
    AngularRawAgrees(x, error, seen.prevAngular);
  }

  lemma RotateStepRawAgrees(x: Mission, seen: LoopState, pose: Pose)
    requires x.Wired() && x.plan.rotation
    ensures RotateStepRaw(x, seen, pose, Finite(x.headingError(pose.yaw))) == TurnStep(x, seen, pose)
  {
    assert x.AngularGainAt(x.headingError(pose.yaw));
    AngularRawAgrees(x, x.headingError(pose.yaw), seen.prevAngular);
  }

  /** A whole pass of a move with these raw numbers: the exits before the target come first. */
  function StepRaw(x: Mission, st: LoopState, t: Tick, distance: Number, angle: Number): Outcome {
    if t.cancelled || t.tokenExpired || t.now >= x.deadline || !t.odometry.Usable() then Step(x, st, t)
    else
      var pose := t.odometry.pose.value;
      var seen := st.(traveled := st.traveled + Distance(x.m, st.lastPose, pose), lastPose := pose);
      // the target heading of a rotation by NaN is NaN, and so is every difference to it
      var error := if angle == NaN then NaN else Finite(x.headingError(pose.yaw));
      if st.phase == Turning && x.plan.rotation then RotateStepRaw(x, seen, pose, error)
      else if st.phase == Turning then Step(x, st, t)
      else if x.obstacle(t.scan).Some? then Step(x, st, t)
      else DriveStepRaw(x, seen, pose, distance, error)
  }

  /** On finite numbers this is the controller of `CmdVel`. */
  lemma StepRawAgrees(x: Mission, st: LoopState, t: Tick, angle: Number)
    requires x.Wired() && angle.Finite?
    ensures StepRaw(x, st, t, Finite(x.plan.distance), angle) == Step(x, st, t)
  {
    if t.odometry.Usable() {
      var pose := t.odometry.pose.value;
      var seen := st.(traveled := st.traveled + Distance(x.m, st.lastPose, pose), lastPose := pose);
      DriveStepRawAgrees(x, seen, pose);
      if x.plan.rotation { RotateStepRawAgrees(x, seen, pose); }
    }
  }

  /** Whether the pass ends for one of the reasons that do not look at the target. */
  predicate Interrupted(x: Mission, phase: Phase, t: Tick) {
    || t.cancelled || t.tokenExpired || t.now >= x.deadline || !t.odometry.Usable()
    || (phase == Driving && x.obstacle(t.scan).Some?)
  }

  /** A move by NaN metres never arrives: every pass that is not interrupted drives on, towards top speed;
      and the move can only fail. */
  lemma NaNDistanceDrivesOn(x: Mission, st: LoopState, t: Tick)
    requires x.limits.Positive() && st.phase == Driving
    ensures var outcome := StepRaw(x, st, t, NaN, Finite(0.0));
            && (outcome.Exit? <==> Interrupted(x, st.phase, t)) && (outcome.Exit? ==> !outcome.result.succeeded)
            && (outcome.Drive? ==>
                  outcome.twist.linear == ClampDelta(x.plan.sense.Signed(x.limits.maxLinear), st.prevLinear,
                                                     x.linearStep))
  {
    PyClampAgrees(NaN, 0.0, x.limits.maxLinear);
  }

  /** A rotation by NaN degrees turns on, left at the angular limit, until it is interrupted. */
  lemma NaNAngleTurnsOn(x: Mission, st: LoopState, t: Tick)
    requires x.limits.Positive() && x.plan.rotation && st.phase == Turning
    ensures var outcome := StepRaw(x, st, t, Finite(0.0), NaN);
            && (outcome.Exit? <==> Interrupted(x, st.phase, t)) && (outcome.Exit? ==> !outcome.result.succeeded)
            && (outcome.Drive? ==>
                  outcome.twist == Twist(0.0, ClampDelta(x.limits.maxAngular, st.prevAngular, x.angularStep)))
  {
    PyClampAgrees(NaN, -x.limits.maxAngular, x.limits.maxAngular);
  }
}
