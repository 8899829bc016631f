/**
 What every run of the `/cmd_vel` loop keeps, for any sensor stream, clock and cancellation.
 Each theorem is an induction over the tick samples; the `Step...` lemmas carry the induction step.
 */
module MotionSafety {
  import opened RealMath
  import opened Geometry
  import opened LaserScan
  import opened Core
  import opened CmdVel

  // ----- the rate clamp

  /** The rate clamp lands between the previous and the requested value, at most one step away. */
  lemma ClampDeltaBetween(target: real, prev: real, d: real)
    ensures Min(prev, target) <= ClampDelta(target, prev, d) <= Max(prev, target)
    ensures d > 0.0 ==> Abs(ClampDelta(target, prev, d) - prev) <= d
  {}

  // ----- magnitude limits

  ghost predicate WithinLimits(limits: Constraints, twist: Twist) {
    Abs(twist.linear) <= limits.maxLinear && Abs(twist.angular) <= limits.maxAngular
  }

  ghost predicate PrevWithinLimits(x: Mission, st: LoopState) {
    WithinLimits(x.limits, Twist(st.prevLinear, st.prevAngular))
  }

  lemma ClampDeltaBounded(target: real, prev: real, d: real, bound: real)
    requires Abs(target) <= bound && Abs(prev) <= bound
    ensures Abs(ClampDelta(target, prev, d)) <= bound
  {}

  lemma AngularWithinLimits(x: Mission, requested: real, prev: real)
    requires x.limits.Positive() && Abs(prev) <= x.limits.maxAngular
    ensures Abs(AngularLimited(x, requested, prev)) <= x.limits.maxAngular
  {}

  lemma LinearWithinLimits(x: Mission, requested: real, prev: real)
    requires x.limits.Positive() && Abs(prev) <= x.limits.maxLinear
    ensures Abs(LinearLimited(x, requested, prev)) <= x.limits.maxLinear
  {
    var speed := Clamp(requested, 0.0, x.limits.maxLinear);
    ClampDeltaBounded(x.plan.sense.Signed(speed), prev, x.linearStep, x.limits.maxLinear);
  }

  lemma StepWithinLimits(x: Mission, st: LoopState, t: Tick)
    requires x.limits.Positive() && PrevWithinLimits(x, st)
    ensures match Step(x, st, t)
            case Exit(_) => true
            case SwitchPhase(next) => PrevWithinLimits(x, next)
            case Drive(next, twist) => WithinLimits(x.limits, twist) && PrevWithinLimits(x, next)
  {
    if t.odometry.Usable() {
      var pose := t.odometry.pose.value;
      var error := x.headingError(pose.yaw);
      AngularWithinLimits(x, x.angularGain(error), st.prevAngular);
      LinearWithinLimits(x, x.linearGain(Remaining(x, st, pose)), st.prevLinear);
    }
  }

  /** Every published twist respects the velocity limits. */
  lemma {:induction false} TwistsWithinLimits(x: Mission, start: Pose, ticks: seq<Tick>)
    requires x.limits.Positive()
    ensures PrevWithinLimits(x, RunLoop(x, start, ticks).state)
    ensures forall i | 0 <= i < |RunLoop(x, start, ticks).log| ::
              WithinLimits(x.limits, RunLoop(x, start, ticks).log[i].twist)
  {
    if |ticks| > 0 {
      var k := |ticks| - 1;
      TwistsWithinLimits(x, start, ticks[..k]);
      StepWithinLimits(x, RunLoop(x, start, ticks[..k]).state, ticks[k]);
    }
  }

  // ----- shape of the log: controls, then one zero twist exactly when the loop returns

  ghost predicate EndsInZero(log: seq<Published>, finished: bool) {
    && (forall i | 0 <= i < |log| - (if finished then 1 else 0) :: log[i].Control?)
    && (finished ==> |log| > 0 && log[|log| - 1] == Stop(ZeroTwist))
  }

  /** The last published twist of a run that returned is zero, and no run publishes its final zero
      before it returns. */
  lemma {:induction false} ReturnsAfterZero(x: Mission, start: Pose, ticks: seq<Tick>)
    ensures EndsInZero(RunLoop(x, start, ticks).log, RunLoop(x, start, ticks).result.Some?)
  {
    if |ticks| > 0 {
      ReturnsAfterZero(x, start, ticks[..|ticks| - 1]);
    }
  }

  // ----- every control twist was allowed by every guard of its own tick

  ghost predicate ClearAhead(x: Mission, scan: Option<Scan>) {
    x.settings.watchesScan && scan.Some? ==>
      forall i: nat :: Selected(x.m, scan.value, {TravelSector(x.plan)}, i) ==>
                         RangeAt(scan.value, i) >= x.limits.obstacleStopDistance
  }

  ghost predicate Guarded(x: Mission, ticks: seq<Tick>, p: Published) {
    p.Control? ==>
      && p.tick < |ticks|
      && !ticks[p.tick].cancelled && !ticks[p.tick].tokenExpired && ticks[p.tick].now < x.deadline
      && ticks[p.tick].odometry.Usable()
      && (p.phase == Driving ==> ClearAhead(x, ticks[p.tick].scan))
      && (p.phase == Turning ==> p.twist.linear == 0.0)
  }

  lemma StepGuarded(x: Mission, st: LoopState, t: Tick)
    requires x.Wired() && Step(x, st, t).Drive?
    ensures !t.cancelled && !t.tokenExpired && t.now < x.deadline && t.odometry.Usable()
    ensures st.phase == Driving ==> ClearAhead(x, t.scan)
    ensures st.phase == Turning ==> Step(x, st, t).twist.linear == 0.0
  {
    assert x.ObstacleAt(t.scan);
    if st.phase == Driving && x.settings.watchesScan && t.scan.Some? {
      SectorRangeSummarises(x.m, t.scan.value, TravelSector(x.plan), x.limits.obstacleStopDistance);
    }
  }

  /** In the tick of every published control twist the token was not cancelled or expired, the
      deadline not reached and the odometry fresh; and for a driving twist every valid beam of the
      latest scan in the sector of travel was at or beyond the stop distance. */
  lemma {:induction false} EveryCommandIsGuarded(x: Mission, start: Pose, ticks: seq<Tick>)
    requires x.Wired()
    ensures forall i | 0 <= i < |RunLoop(x, start, ticks).log| ::
              Guarded(x, ticks, RunLoop(x, start, ticks).log[i])
  {
    if |ticks| > 0 {
      var k := |ticks| - 1;
      var init := ticks[..k];
      EveryCommandIsGuarded(x, start, init);
      var before := RunLoop(x, start, init);
      if before.result.None? && Step(x, before.state, ticks[k]).Drive? {
        StepGuarded(x, before.state, ticks[k]);
      }
      forall i | 0 <= i < |before.log|
        ensures Guarded(x, ticks, before.log[i])
      {
        assert Guarded(x, init, before.log[i]);
      }
    }
  }

  // ----- the same on the raw scan

  /** Beam `i` returned from nearer than the stop distance, in front of a robot that drives ahead, behind one
      that reverses. */
  ghost predicate Blocks(x: Mission, scan: Scan, i: nat)
    requires x.m.pi > 0.0
  {
    && i < |scan.ranges| && scan.ranges[i].Finite?
    && scan.rangeMin <= scan.ranges[i].value <= scan.rangeMax && scan.ranges[i].value < x.limits.obstacleStopDistance
    && var a := Normalize(x.m.pi, Bearing(scan, i));
       if x.plan.sense == Reverse then a >= 5.0 * x.m.pi / 6.0 || a < -5.0 * x.m.pi / 6.0
       else -x.m.pi / 6.0 <= a < x.m.pi / 6.0
  }

  ghost predicate Blocked(x: Mission, scan: Option<Scan>)
    requires x.m.pi > 0.0
  {
    x.settings.watchesScan && scan.Some? && exists i: nat :: Blocks(x, scan.value, i)
  }

  lemma ObstacleIsBlock(x: Mission, scan: Option<Scan>)
    requires x.Wired() && x.m.Sound()
    ensures x.obstacle(scan).Some? <==> Blocked(x, scan)
  {
    assert x.ObstacleAt(scan);
    if x.settings.watchesScan && scan.Some? {
      var s := if x.plan.sense == Reverse then RearSector else FrontSector;
      SectorRangeSummarises(x.m, scan.value, s, x.limits.obstacleStopDistance);
      forall i: nat
        ensures Blocks(x, scan.value, i) <==>
                Selected(x.m, scan.value, {s}, i) && RangeAt(scan.value, i) < x.limits.obstacleStopDistance
      {
        SelectedIsReturned(x.m, scan.value, s, i);
      }
    }
  }

  /** A pass of the drive that is not ended before it looks stops for an obstacle exactly if there is one in
      its way. */
  lemma ObstacleStopsExactly(x: Mission, st: LoopState, t: Tick)
    requires x.Wired() && x.m.Sound() && st.phase == Driving
    requires !t.cancelled && !t.tokenExpired && t.now < x.deadline && t.odometry.Usable()
    ensures var o := Step(x, st, t);
            o.Exit? && o.result.error == Some(SafetyRejected) && !o.result.succeeded <==> Blocked(x, t.scan)
  {
    ObstacleIsBlock(x, t.scan);
  }

  /** In the tick of every driving twist of a whole move nothing was in the way: in front for forward, left and
      right, behind for backward. */
  lemma {:induction false} DrivesOnlyWhenClear(
    m: Math, limits: Constraints, settings: Settings, along: Translation, distance: real, timeout: real,
    startTime: real, sample: Odometry, ticks: seq<Tick>, p: Published)
    requires m.Sound() && sample.Usable() && p.Control? && p.phase == Driving
    requires var target := MoveTarget(Translate(along), Some(distance), None);
             p in RunMove(m, limits, settings, target, timeout, startTime, sample, ticks).log
    ensures var target := MoveTarget(Translate(along), Some(distance), None);
            var x := MissionFor(m, limits, settings, target, sample.pose.value, startTime + timeout);
            && x.plan.sense == (if along == Backward then Reverse else Ahead)
            && p.tick < |ticks| && !Blocked(x, ticks[p.tick].scan)
  {
    var target := MoveTarget(Translate(along), Some(distance), None);
    var x := MissionFor(m, limits, settings, target, sample.pose.value, startTime + timeout);
    EveryCommandIsGuarded(x, sample.pose.value, ticks);
    assert Guarded(x, ticks, p);
    ClearIsNotBlocked(x, ticks[p.tick].scan);
  }

  lemma ClearIsNotBlocked(x: Mission, scan: Option<Scan>)
    requires x.Wired() && x.m.Sound() && ClearAhead(x, scan)
    ensures !Blocked(x, scan)
  {
    if x.settings.watchesScan && scan.Some? {
      forall i: nat ensures !Blocks(x, scan.value, i) {
        SelectedIsReturned(x.m, scan.value, TravelSector(x.plan), i);
      }
    }
  }

  /** A run told it is cancelled (or expired) in tick `k` has returned by the end of that tick, and
      publishes nothing but zero from then on. */
  lemma CancelEndsTheRun(x: Mission, start: Pose, ticks: seq<Tick>, k: nat)
    requires x.Wired() && k < |ticks|
    requires ticks[k].cancelled || ticks[k].tokenExpired || ticks[k].now >= x.deadline
    ensures RunLoop(x, start, ticks[..k + 1]).result.Some?
    ensures RunLoop(x, start, ticks) == RunLoop(x, start, ticks[..k + 1])
    ensures forall i | 0 <= i < |RunLoop(x, start, ticks).log| ::
              RunLoop(x, start, ticks).log[i].Control? ==> RunLoop(x, start, ticks).log[i].tick < k
  {
    var upto := ticks[..k + 1];
    assert upto[..k] == ticks[..k];
    RunStaysFinished(x, start, ticks, k + 1);
    EveryCommandIsGuarded(x, start, upto);
    var log := RunLoop(x, start, upto).log;
    forall i | 0 <= i < |log| && log[i].Control?
      ensures log[i].tick < k
    {
      assert Guarded(x, upto, log[i]);
    }
  }

  lemma {:induction false} ClockAdvances(ticks: seq<Tick>, eps: real, k: nat)
    requires k < |ticks|
    requires forall i | 0 <= i < |ticks| - 1 :: ticks[i + 1].now >= ticks[i].now + eps
    ensures ticks[k].now >= ticks[0].now + (k as real) * eps
  {
    if k > 0 {
      ClockAdvances(ticks, eps, k - 1);
      var kr := (k - 1) as real;
      assert k as real == kr + 1.0;
      assert (kr + 1.0) * eps == kr * eps + eps;
    }
  }

  /** If the clock gains at least `eps` per tick, the loop has returned once the samples span the
      timeout. */
  lemma ReturnsByDeadline(x: Mission, start: Pose, ticks: seq<Tick>, eps: real, startTime: real, timeout: real)
    requires x.Wired() && |ticks| > 0 && x.deadline == startTime + timeout
    requires ticks[0].now >= startTime
    requires forall i | 0 <= i < |ticks| - 1 :: ticks[i + 1].now >= ticks[i].now + eps
    requires ((|ticks| - 1) as real) * eps >= timeout
    ensures RunLoop(x, start, ticks).result.Some?
  {
    var k := |ticks| - 1;
    ClockAdvances(ticks, eps, k);
    assert ticks[..k + 1] == ticks;
    CancelEndsTheRun(x, start, ticks, k);
  }

  // ----- acceleration limits

  lemma MissionSteps(m: Math, limits: Constraints, settings: Settings, target: MoveTarget, start: Pose, deadline: real)
    requires m.pi > 0.0 && target.WellFormed() && limits.Positive() && settings.tick > 0.0
    ensures var x := MissionFor(m, limits, settings, target, start, deadline);
            && x.linearStep == limits.maxLinearAccel * settings.tick && x.linearStep > 0.0
            && x.angularStep == limits.maxAngularAccel * settings.tick && x.angularStep > 0.0
            && x.limits == limits && x.settings == settings && x.deadline == deadline
            && RunLoop(x, start, []) == LoopRun([], LoopState(x.plan.firstPhase, start, 0.0, start, 0.0, 0.0), None)
  {
    ProductPositive(limits.maxLinearAccel, settings.tick);
    ProductPositive(limits.maxAngularAccel, settings.tick);
  }

  /** What the next control twist `q` may be, after `p`. */
  ghost predicate SmoothStep(x: Mission, p: Published, q: Published) {
    p.Control? && q.Control? ==>
      && Abs(q.twist.linear - p.twist.linear) <= x.linearStep
      && (p.phase == q.phase ==> Abs(q.twist.angular - p.twist.angular) <= x.angularStep)
      && (p.phase != q.phase ==> p.phase == Turning && q.phase == Driving && Abs(q.twist.angular) <= x.angularStep)
  }

  /** The previous commands the loop remembers are those it last published in this phase, or rest. */
  ghost predicate Remembers(run: LoopRun) {
    && (run.state.phase == Turning ==> run.state.prevLinear == 0.0)
    && (run.result.None? ==>
          if |run.log| == 0 then run.state.prevLinear == 0.0 && run.state.prevAngular == 0.0
          else
            var last := run.log[|run.log| - 1];
            && last.Control?
            && last.twist.linear == run.state.prevLinear
            && (last.phase == run.state.phase ==> last.twist.angular == run.state.prevAngular)
            && (last.phase != run.state.phase ==>
                  last.phase == Turning && run.state.phase == Driving && run.state.prevAngular == 0.0))
  }

  lemma StepSmooth(x: Mission, st: LoopState, t: Tick)
    requires x.linearStep > 0.0 && x.angularStep > 0.0
    requires st.phase == Turning ==> st.prevLinear == 0.0
    ensures match Step(x, st, t)
            case Exit(_) => true
            case SwitchPhase(next) =>
              st.phase == Turning && next.phase == Driving && next.prevLinear == st.prevLinear
              && next.prevAngular == 0.0
            case Drive(next, twist) =>
              && next.phase == st.phase && twist == Twist(next.prevLinear, next.prevAngular)
              && Abs(twist.linear - st.prevLinear) <= x.linearStep
              && Abs(twist.angular - st.prevAngular) <= x.angularStep
              && (st.phase == Turning ==> twist.linear == 0.0)
  {
    if t.odometry.Usable() {
      var pose := t.odometry.pose.value;
      var error := x.headingError(pose.yaw);
      var w := x.angularGain(error);
      ClampDeltaBetween(Clamp(w, -x.limits.maxAngular, x.limits.maxAngular), st.prevAngular, x.angularStep);
      var v := x.linearGain(Remaining(x, st, pose));
      var sv := x.plan.sense.Signed(Clamp(v, 0.0, x.limits.maxLinear));
      ClampDeltaBetween(sv, st.prevLinear, x.linearStep);
    }
  }

  ghost predicate Smooth(x: Mission, log: seq<Published>) {
    forall i | 0 <= i < |log| - 1 :: SmoothStep(x, log[i], log[i + 1])
  }

  /** Consecutive control twists differ by at most one acceleration step, in the linear part always
      and in the angular part within a phase; the first angular command after the phase switch is
      within one step of rest. */
  lemma {:induction false} AccelerationLimited(x: Mission, start: Pose, ticks: seq<Tick>)
    requires x.linearStep > 0.0 && x.angularStep > 0.0
    ensures Remembers(RunLoop(x, start, ticks))
    ensures Smooth(x, RunLoop(x, start, ticks).log)
  {
    if |ticks| > 0 {
      var k := |ticks| - 1;
      AccelerationLimited(x, start, ticks[..k]);
      var before := RunLoop(x, start, ticks[..k]);
      if before.result.None? {
        StepSmooth(x, before.state, ticks[k]);
        SmoothExtends(x, before, k, Step(x, before.state, ticks[k]));
      }
    }
  }

  lemma SmoothExtends(x: Mission, before: LoopRun, k: nat, o: Outcome)
    requires before.result.None? && Remembers(before) && Smooth(x, before.log)
    requires match o
             case Exit(_) => true
             case SwitchPhase(next) =>
               before.state.phase == Turning && next.phase == Driving && next.prevLinear == before.state.prevLinear
               && next.prevAngular == 0.0
             case Drive(next, twist) =>
               && next.phase == before.state.phase && twist == Twist(next.prevLinear, next.prevAngular)
               && Abs(twist.linear - before.state.prevLinear) <= x.linearStep
               && Abs(twist.angular - before.state.prevAngular) <= x.angularStep
               && (before.state.phase == Turning ==> twist.linear == 0.0)
    ensures Remembers(Apply(before, k, o)) && Smooth(x, Apply(before, k, o).log)
  {
    var after := Apply(before, k, o);
    forall i | 0 <= i < |after.log| - 1
      ensures SmoothStep(x, after.log[i], after.log[i + 1])
    {
      if i < |before.log| - 1 {
        assert SmoothStep(x, before.log[i], before.log[i + 1]);
      }
    }
  }

  // ----- path length and the meaning of success

  ghost predicate Odometer(x: Mission, start: Pose, st: LoopState)
  {
    && st.traveled >= Distance(x.m, start, st.lastPose) >= 0.0
    && st.traveled >= Distance(x.m, st.phaseStart, st.lastPose)
    && (st.phase == Driving ==>
          st.phaseStart == start || Abs(x.headingError(st.phaseStart.yaw)) <= x.settings.angleTolerance)
  }

  ghost predicate HonestResult(x: Mission, start: Pose, st: LoopState, r: MotionResult)
  {
    && r.distanceTraveled >= st.traveled
    && (r.finalPose.Some? ==> r.distanceTraveled >= Distance(x.m, start, r.finalPose.value))
    && (r.succeeded <==> r.stopReason == TargetReached)
    && (r.succeeded ==> r.finalPose.Some? && r.error.None?)
    && (r.succeeded && st.phase == Turning ==>
          x.plan.rotation && Abs(x.headingError(r.finalPose.value.yaw)) <= x.settings.angleTolerance)
    && (r.succeeded && st.phase == Driving ==>
          && x.plan.distance - Distance(x.m, st.phaseStart, r.finalPose.value) <= x.settings.positionTolerance
          && r.distanceTraveled >= x.plan.distance - x.settings.positionTolerance)
  }

  lemma StepOdometer(x: Mission, start: Pose, st: LoopState, t: Tick)
    requires Odometer(x, start, st)
    requires t.odometry.Usable() ==>
               var pose := t.odometry.pose.value;
               && 0.0 <= Distance(x.m, start, pose) <= Distance(x.m, start, st.lastPose)
                  + Distance(x.m, st.lastPose, pose)
               && Distance(x.m, st.phaseStart, pose) <= Distance(x.m, st.phaseStart, st.lastPose)
                  + Distance(x.m, st.lastPose, pose)
               && 0.0 <= Distance(x.m, st.lastPose, pose) && Distance(x.m, pose, pose) == 0.0
    ensures match Step(x, st, t)
            case Exit(r) => HonestResult(x, start, st, r)
            case SwitchPhase(next) => Odometer(x, start, next) && next.traveled >= st.traveled
            case Drive(next, _) => Odometer(x, start, next) && next.traveled >= st.traveled
  {
  }

  lemma DistanceFacts(m: Math, start: Pose, phaseStart: Pose, last: Pose, pose: Pose)
    requires m.Sound()
    ensures 0.0 <= Distance(m, start, pose) <= Distance(m, start, last) + Distance(m, last, pose)
    ensures Distance(m, phaseStart, pose) <= Distance(m, phaseStart, last) + Distance(m, last, pose)
    ensures 0.0 <= Distance(m, last, pose) && Distance(m, pose, pose) == 0.0
  {
    DistanceTriangle(m, start, last, pose);
    DistanceTriangle(m, phaseStart, last, pose);
    DistanceTriangle(m, start, pose, pose);
    DistanceTriangle(m, last, pose, pose);
    HypotZero(m);
  }

  /** On every return that carries a pose the reported distance is at least the straight-line
      distance from the start; a reported success means what it says -- a rotation ends within the
      angle tolerance of its heading, a translation at most the position tolerance short of the
      requested distance, measured from where its drive began and also by the odometer. */
  lemma {:induction false} ResultsAreHonest(x: Mission, start: Pose, ticks: seq<Tick>)
    requires x.m.Sound()
    ensures Odometer(x, start, RunLoop(x, start, ticks).state)
    ensures RunLoop(x, start, ticks).result.Some? ==>
              HonestResult(x, start, RunLoop(x, start, ticks).state, RunLoop(x, start, ticks).result.value)
    ensures |ticks| > 0 ==>
              RunLoop(x, start, ticks[..|ticks| - 1]).state.traveled <= RunLoop(x, start, ticks).state.traveled
  {
    if |ticks| > 0 {
      var k := |ticks| - 1;
      ResultsAreHonest(x, start, ticks[..k]);
      var st := RunLoop(x, start, ticks[..k]).state;
      if ticks[k].odometry.Usable() {
        DistanceFacts(x.m, start, st.phaseStart, st.lastPose, ticks[k].odometry.pose.value);
      }
      StepOdometer(x, start, st, ticks[k]);
    } else {
      HypotZero(x.m);
      assert Distance(x.m, start, start) == 0.0;
    }
  }

  // ----- the odometer, exactly

  ghost predicate AllUsable(ticks: seq<Tick>) { forall i | 0 <= i < |ticks| :: ticks[i].odometry.Usable() }

  function PoseOf(t: Tick): Pose {
    if t.odometry.pose.Some? then t.odometry.pose.value else Pose(0.0, 0.0, 0.0)
  }

  /** The pose of the last sample. */
  function LastPose(start: Pose, ticks: seq<Tick>): Pose {
    if |ticks| == 0 then start else PoseOf(ticks[|ticks| - 1])
  }

  /** The length of the polygon through the start and all samples. */
  function Legs(m: Math, start: Pose, ticks: seq<Tick>): real
    decreases |ticks|
  {
    if |ticks| == 0 then 0.0
    else
      var init := ticks[..|ticks| - 1];
      Legs(m, start, init) + Distance(m, LastPose(start, init), PoseOf(ticks[|ticks| - 1]))
  }

  lemma StepMeasures(x: Mission, st: LoopState, t: Tick)
    ensures match Step(x, st, t)
            case Exit(r) =>
              if r.stopReason == WasCancelled || r.stopReason == TimedOut || r.error == Some(SensorStale)
              then r.distanceTraveled == st.traveled && r.finalPose == Some(st.lastPose)
              else
                && t.odometry.Usable() && r.finalPose == Some(PoseOf(t))
                && r.distanceTraveled == st.traveled + Distance(x.m, st.lastPose, PoseOf(t))
            case SwitchPhase(next) =>
              t.odometry.Usable() && next.lastPose == PoseOf(t)
              && next.traveled == st.traveled + Distance(x.m, st.lastPose, PoseOf(t))
            case Drive(next, _) =>
              t.odometry.Usable() && next.lastPose == PoseOf(t)
              && next.traveled == st.traveled + Distance(x.m, st.lastPose, PoseOf(t))
  {}

  ghost predicate Measured(x: Mission, start: Pose, ticks: seq<Tick>, st: LoopState) {
    AllUsable(ticks) && st.traveled == Legs(x.m, start, ticks) && st.lastPose == LastPose(start, ticks)
  }

  lemma OneMoreLeg(x: Mission, start: Pose, ticks: seq<Tick>, k: nat, st: LoopState)
    requires k < |ticks| && Measured(x, start, ticks[..k], st) && ticks[k].odometry.Usable()
    ensures AllUsable(ticks[..k + 1]) && LastPose(start, ticks[..k + 1]) == PoseOf(ticks[k])
    ensures Legs(x.m, start, ticks[..k + 1]) == st.traveled + Distance(x.m, st.lastPose, PoseOf(ticks[k]))
  {
    var before, more := ticks[..k], ticks[..k + 1];
    assert more[..k] == before;
    forall i | 0 <= i < |more| ensures more[i].odometry.Usable() {
      if i < k { assert more[i] == before[i]; }
    }
  }

  /** While the loop runs its odometer reads the length of the path sampled so far, and it remembers the
      last pose. */
  lemma {:induction false} OdometerIsPathLength(x: Mission, start: Pose, ticks: seq<Tick>, k: nat)
    requires k <= |ticks| && RunLoop(x, start, ticks[..k]).result.None?
    ensures Measured(x, start, ticks[..k], RunLoop(x, start, ticks[..k]).state)
    decreases k
  {
    if k > 0 {
      assert ticks[..k][..k - 1] == ticks[..k - 1];
      OdometerIsPathLength(x, start, ticks, k - 1);
      var st := RunLoop(x, start, ticks[..k - 1]).state;
      StepMeasures(x, st, ticks[k - 1]);
      OneMoreLeg(x, start, ticks, k - 1, st);
    }
  }

  /** The path and its last pose are what a result reports. */
  ghost predicate ReportsPath(m: Math, start: Pose, ticks: seq<Tick>, r: MotionResult) {
    AllUsable(ticks) && r.distanceTraveled == Legs(m, start, ticks) && r.finalPose == Some(LastPose(start, ticks))
  }

  /** Every return reports exactly the length of the sampled path and its last pose: up to the sample
      before when the loop was told to stop or lost its odometry, else including the current one. */
  lemma {:induction false} ResultReportsPath(x: Mission, start: Pose, ticks: seq<Tick>, k: nat)
    requires k < |ticks| && RunLoop(x, start, ticks[..k]).result.None? && RunLoop(x, start, ticks[..k + 1]).result.Some?
    ensures var r := RunLoop(x, start, ticks[..k + 1]).result.value;
            if r.stopReason == WasCancelled || r.stopReason == TimedOut || r.error == Some(SensorStale)
            then ReportsPath(x.m, start, ticks[..k], r) else ReportsPath(x.m, start, ticks[..k + 1], r)
  {
    OdometerIsPathLength(x, start, ticks, k);
    RunOneMore(x, start, ticks, k);
    var st := RunLoop(x, start, ticks[..k]).state;
    StepMeasures(x, st, ticks[k]);
    if ticks[k].odometry.Usable() { OneMoreLeg(x, start, ticks, k, st); }
  }

  // ----- which way it turns and drives

  /** From rest a turn is commanded towards the heading, the short way round, and a drive in the sense of
      its plan; and no step ever moves a command away from what the proportional law asks for. */
  lemma CommandsHaveTheRightSense(x: Mission, error: real, remaining: real, prev: real)
    requires x.Wired() && x.limits.Positive() && x.linearStep > 0.0 && x.angularStep > 0.0
    requires x.settings.kpAngular > 0.0 && x.settings.kpLinear > 0.0
    ensures error > 0.0 ==> AngularCommand(x, error, 0.0) > 0.0
    ensures error < 0.0 ==> AngularCommand(x, error, 0.0) < 0.0
    ensures remaining > 0.0 && x.plan.sense == Ahead ==> LinearCommand(x, remaining, 0.0) > 0.0
    ensures remaining > 0.0 && x.plan.sense == Reverse ==> LinearCommand(x, remaining, 0.0) < 0.0
    ensures var wanted := Clamp(x.angularGain(error), -x.limits.maxAngular, x.limits.maxAngular);
            Abs(wanted - AngularCommand(x, error, prev)) <= Abs(wanted - prev)
  {
    assert x.AngularGainAt(error) && x.LinearGainAt(remaining);
    var ka, kl := x.settings.kpAngular, x.settings.kpLinear;
    if error > 0.0 { ProductPositive(ka, error); }
    if error < 0.0 {
      ProductPositive(ka, -error);
      NegatedFactor(ka, error);
    }
    if remaining > 0.0 { ProductPositive(kl, remaining); }
  }

  // ----- one pass in numbers

  /** From `prev` towards `want`, by at most `step`. */
  function Towards(prev: real, want: real, step: real): real { Max(prev - step, Min(prev + step, want)) }

  /** The answer of a pass that ends the move, by its reason. */
  ghost predicate Ends(o: Outcome, succeeded: bool, error: Option<ErrorCode>, traveled: real, pose: Pose,
                       why: StopReason) {
    o == Exit(MotionResult(succeeded, error, traveled, Some(pose), why))
  }

  /** A turning pass at pose `p` with `error` left to turn, `rate` being the proportional answer to it. */
  ghost predicate TurnsOn(x: Mission, st: LoopState, o: Outcome, p: Pose, traveled: real, error: real, rate: real) {
    var angular := Towards(st.prevAngular, Max(-x.limits.maxAngular, Min(x.limits.maxAngular, rate)), x.angularStep);
    if error < -x.settings.angleTolerance || error > x.settings.angleTolerance then
      o == Drive(LoopState(Turning, st.phaseStart, traveled, p, 0.0, angular), Twist(0.0, angular))
    else if x.plan.rotation then Ends(o, true, None, traveled, p, TargetReached)
    else o == SwitchPhase(LoopState(Driving, p, traveled, p, st.prevLinear, 0.0))
  }

  /** A driving pass with `remaining` left to drive, `rate` and `speed` being the proportional answers. */
  ghost predicate DrivesOn(x: Mission, st: LoopState, o: Outcome, p: Pose, traveled: real, remaining: real, rate: real,
                           speed: real) {
    var angular := Towards(st.prevAngular, Max(-x.limits.maxAngular, Min(x.limits.maxAngular, rate)), x.angularStep);
    var limited := Max(0.0, Min(x.limits.maxLinear, speed));
    var want := match x.plan.sense case Ahead => limited case Reverse => -limited case InPlace => 0.0;
    var linear := Towards(st.prevLinear, want, x.linearStep);
    if remaining <= x.settings.positionTolerance then Ends(o, true, None, traveled, p, TargetReached)
    else o == Drive(LoopState(Driving, st.phaseStart, traveled, p, linear, angular), Twist(linear, angular))
  }

  lemma TurnInNumbers(x: Mission, st: LoopState, p: Pose, traveled: real, error: real)
    requires x.limits.Positive() && x.angularStep > 0.0 && st.phase == Turning && error == x.headingError(p.yaw)
    ensures TurnsOn(x, st, TurnStep(x, st.(traveled := traveled, lastPose := p), p), p, traveled, error,
                    x.angularGain(error))
  {}

  lemma DriveInNumbers(x: Mission, st: LoopState, p: Pose, traveled: real, error: real, remaining: real)
    requires x.limits.Positive() && x.angularStep > 0.0 && x.linearStep > 0.0 && st.phase == Driving
    requires error == x.headingError(p.yaw) && remaining == x.plan.distance - x.m.hypot(p.x - st.phaseStart.x,
                                                                                        p.y - st.phaseStart.y)
    ensures DrivesOn(x, st, DriveStep(x, st.(traveled := traveled, lastPose := p), p), p, traveled, remaining,
                     x.angularGain(error), x.linearGain(remaining))
  {}

  /** How a pass ends before it looks at the pose: cancellation, the deadline, stale odometry, in this order. */
  lemma PassEndsEarly(x: Mission, st: LoopState, t: Tick)
    requires t.cancelled || t.tokenExpired || t.now >= x.deadline || t.odometry.pose.None? || !t.odometry.isFresh
    ensures var o := Step(x, st, t);
            if t.cancelled then Ends(o, false, Some(Cancelled), st.traveled, st.lastPose, WasCancelled)
            else if t.tokenExpired || t.now >= x.deadline then
              Ends(o, false, Some(ActionTimeout), st.traveled, st.lastPose, TimedOut)
            else Ends(o, false, Some(SensorStale), st.traveled, st.lastPose, SafetyStop)
  {}

  /** The pass has a pose: nothing ends it early. */
  predicate Acts(x: Mission, t: Tick) {
    !t.cancelled && !t.tokenExpired && t.now < x.deadline && t.odometry.pose.Some? && t.odometry.isFresh
  }

  lemma StepActs(x: Mission, st: LoopState, t: Tick, p: Pose, traveled: real)
    requires x.Wired() && x.m.Sound() && Acts(x, t) && t.odometry.pose == Some(p)
    requires traveled == st.traveled + x.m.hypot(p.x - st.lastPose.x, p.y - st.lastPose.y)
    ensures var seen := st.(traveled := traveled, lastPose := p);
            Step(x, st, t) ==
            if st.phase == Turning then TurnStep(x, seen, p)
            else if Blocked(x, t.scan)
            then Exit(MotionResult(false, Some(SafetyRejected), traveled, Some(p), SafetyStop))
            else DriveStep(x, seen, p)
  {
    ObstacleIsBlock(x, t.scan);
  }

  /** The laws of a whole move are proportional, with the gains of its settings, and the heading error is what is
      left to turn to the planned heading. */
  lemma LawsAre(m: Math, limits: Constraints, settings: Settings, target: MoveTarget, start: Pose, deadline: real,
                error: real, remaining: real, yaw: real)
    requires m.pi > 0.0 && target.WellFormed()
    ensures var x := MissionFor(m, limits, settings, target, start, deadline);
            && x.angularGain(error) == settings.kpAngular * error
            && x.linearGain(remaining) == settings.kpLinear * remaining
            && x.headingError(yaw) == Normalize(m.pi, MakePlan(m.pi, target, start).heading - yaw)
  {
    var x := MissionFor(m, limits, settings, target, start, deadline);
    assert x.AngularGainAt(error) && x.LinearGainAt(remaining) && x.HeadingErrorAt(yaw);
  }

  /** What a pass with a pose answers and commands, for every state and sample: in a drive the obstacle first,
      then the turn or the drive with its two limited commands. `error` and `remaining` are what is left to
      turn and to drive, `rate` and `speed` the answers of the laws (`LawsAre`). */
  lemma PassInNumbers(x: Mission, st: LoopState, t: Tick, p: Pose, traveled: real, error: real, remaining: real,
                      rate: real, speed: real)
    requires x.Wired() && x.m.Sound() && x.limits.Positive() && x.linearStep > 0.0 && x.angularStep > 0.0
    requires Acts(x, t) && t.odometry.pose == Some(p)
    requires traveled == st.traveled + x.m.hypot(p.x - st.lastPose.x, p.y - st.lastPose.y)
    requires error == AngularDifference(x.m.pi, x.plan.heading, p.yaw)
    requires remaining == x.plan.distance - x.m.hypot(p.x - st.phaseStart.x, p.y - st.phaseStart.y)
    requires rate == x.angularGain(error) && speed == x.linearGain(remaining)
    ensures var o := Step(x, st, t);
            if st.phase == Turning then TurnsOn(x, st, o, p, traveled, error, rate)
            else if Blocked(x, t.scan) then Ends(o, false, Some(SafetyRejected), traveled, p, SafetyStop)
            else DrivesOn(x, st, o, p, traveled, remaining, rate, speed)
  {
    StepActs(x, st, t, p, traveled);
    assert x.HeadingErrorAt(p.yaw);
    if st.phase == Turning {
      TurnInNumbers(x, st, p, traveled, error);
    } else {
      DriveInNumbers(x, st, p, traveled, error, remaining);
    }
  }

  // ----- what is planned

  /** `h` is `degrees` to the left of `yaw`, give or take `k` full turns. */
  predicate DegreesLeft(pi: real, h: real, yaw: real, degrees: real, k: int) {
    180.0 * (h - yaw) == degrees * pi + 360.0 * pi * (k as real)
  }

  ghost predicate HeadsDegreesLeft(pi: real, h: real, yaw: real, degrees: real) {
    -pi < h <= pi && exists k: int :: DegreesLeft(pi, h, yaw, degrees, k)
  }

  /** What each direction makes of the start heading, in degrees, and how it then drives. */
  lemma PlanMeans(pi: real, target: MoveTarget, start: Pose)
    requires pi > 0.0 && target.WellFormed()
    ensures var p, yaw := MakePlan(pi, target, start), start.yaw;
            match target.direction
            case RotateLeft =>
              p.rotation && p.firstPhase == Turning && HeadsDegreesLeft(pi, p.heading, yaw, target.angleDeg.value)
            case RotateRight =>
              p.rotation && p.firstPhase == Turning && HeadsDegreesLeft(pi, p.heading, yaw, -target.angleDeg.value)
            case Translate(along) =>
              && !p.rotation && p.distance == target.distance.value
              && p.sense == (if along == Backward then Reverse else Ahead)
              && (along == Forward || along == Backward ==> p.firstPhase == Driving && p.heading == yaw)
              && (along == Left ==> p.firstPhase == Turning && HeadsDegreesLeft(pi, p.heading, yaw, 90.0))
              && (along == Right ==> p.firstPhase == Turning && HeadsDegreesLeft(pi, p.heading, yaw, -90.0))
  {
    var yaw := start.yaw;
    match target.direction {
      case RotateLeft => NormalizedDegrees(pi, yaw, target.angleDeg.value, target.angleDeg.value * pi / 180.0);
      case RotateRight => NormalizedDegrees(pi, yaw, -target.angleDeg.value, -(target.angleDeg.value * pi / 180.0));
      case Translate(along) =>
        NormalizedDegrees(pi, yaw, 90.0, pi / 2.0);
        NormalizedDegrees(pi, yaw, -90.0, -pi / 2.0);
    }
  }

  lemma NormalizedDegrees(pi: real, yaw: real, degrees: real, turn: real)
    requires pi > 0.0 && 180.0 * turn == degrees * pi
    ensures HeadsDegreesLeft(pi, Normalize(pi, yaw + turn), yaw, degrees)
  {
    var h, k := Normalize(pi, yaw + turn), TurnsToPrincipal(pi, yaw + turn);
    var whole := 2.0 * pi * (k as real);
    assert h == yaw + turn + whole;
    assert 180.0 * whole == 360.0 * pi * (k as real);
    assert DegreesLeft(pi, h, yaw, degrees, k);
  }

  // ----- the whole command

  /** A whole `move`, from the start sample on: its twists respect the limits and the acceleration
      steps, each was guarded, and the last twist before any return is zero. */
  lemma MoveIsSafe(m: Math, limits: Constraints, settings: Settings, target: MoveTarget,
                   timeout: real, startTime: real, startOdometry: Odometry, ticks: seq<Tick>)
    requires m.pi > 0.0 && target.WellFormed() && limits.Positive() && settings.tick > 0.0
    ensures var trace := RunMove(m, limits, settings, target, timeout, startTime, startOdometry, ticks);
            && EndsInZero(trace.log, trace.result.Some?)
            && (forall i | 0 <= i < |trace.log| :: WithinLimits(limits, trace.log[i].twist))
            && (!startOdometry.Usable() ==>
                  trace == MoveTrace([Stop(ZeroTwist)], Some(Failed(SensorStale, 0.0, None, SafetyStop))))
            && (startOdometry.Usable() ==>
                  var x := MissionFor(m, limits, settings, target, startOdometry.pose.value, startTime + timeout);
                  && Smooth(x, trace.log)
                  && forall i | 0 <= i < |trace.log| :: Guarded(x, ticks, trace.log[i]))
  {
    if startOdometry.Usable() {
      var start := startOdometry.pose.value;
      var x := MissionFor(m, limits, settings, target, start, startTime + timeout);
      MissionSteps(m, limits, settings, target, start, startTime + timeout);
      TwistsWithinLimits(x, start, ticks);
      ReturnsAfterZero(x, start, ticks);
      EveryCommandIsGuarded(x, start, ticks);
      AccelerationLimited(x, start, ticks);
    }
  }
}
