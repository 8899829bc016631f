/**
 The driving phase in closed loop with the ideal robot: the integrator the unit tests use as the
 world (tests/unit/test_cmd_vel_motion_plugin.py:46-49), sampled by fresh odometry.

 With kp * maxLinear * dt <= linearStep and kp * dt <= 1 (both hold for the defaults) the drive
 never overshoots, never reverses, strictly shrinks the remaining distance and stops inside the
 position tolerance, within a number of ticks known in advance.

 The induction is carried out over a `World`: the few laws of the ideal robot it needs, as function
 values. `IdealWorld` builds it from the integrator and `IdealWorldIsIdeal` proves the laws.
 */
module DriveConvergence {
  import opened RealMath
  import opened Geometry
  import opened Core
  import opened CmdVel
  import opened MotionSafety

  /** One control period of the ideal robot. */
  function Integrate(m: Math, pose: Pose, twist: Twist, dt: real): Pose {
    Pose(pose.x + twist.linear * m.cos(pose.yaw) * dt,
         pose.y + twist.linear * m.sin(pose.yaw) * dt,
         pose.yaw + twist.angular * dt)
  }

  /** `cover(u)` is the ground covered in a tick at speed `u`, `line(r)` the pose on the drive with `r`
      to go, `plant` the robot; `slowest` bounds the speed from below outside the tolerance and `unit` the
      ground a tick at that speed covers. */
  datatype World = World(
    cover: real -> real, line: real -> Pose, plant: (Pose, Twist) -> Pose, slowest: real, unit: real)

  ghost predicate Pulls(x: Mission, w: World, r: real) {
    && (r >= 0.0 ==> x.linearGain(r) >= 0.0)
    && (r > x.settings.positionTolerance ==> x.linearGain(r) >= w.slowest)
  }

  /** At or below the proportional speed a tick does not pass the target, and the next proportional
      speed is at most one step lower. */
  ghost predicate Yields(x: Mission, cover: real -> real, r: real, u: real) {
    r >= 0.0 && 0.0 <= u <= x.limits.maxLinear && u <= x.linearGain(r) ==>
      && 0.0 <= cover(u) <= r
      && u - x.linearStep <= x.linearGain(r - cover(u))
  }

  ghost predicate Covers(w: World, u: real) {
    u >= w.slowest ==> w.cover(u) >= w.unit
  }

  ghost predicate OnLine(x: Mission, start: Pose, w: World, r: real) {
    r <= x.plan.distance ==>
      x.plan.distance - Distance(x.m, start, w.line(r)) == r && w.line(r).yaw == x.plan.heading
  }

  ghost predicate Moves(x: Mission, w: World, r: real, u: real) {
    w.plant(w.line(r), Twist(x.plan.sense.Signed(u), 0.0)) == w.line(r - w.cover(u))
  }

  ghost predicate IsIdeal(x: Mission, start: Pose, w: World) {
    && 0.0 < w.slowest <= x.limits.maxLinear && w.slowest <= x.linearStep && 0.0 < w.unit
    && w.line(x.plan.distance) == start
    && (forall r: real :: Pulls(x, w, r))
    && (forall r: real, u: real :: Yields(x, w.cover, r, u))
    && (forall u: real :: Covers(w, u))
    && (forall r: real :: OnLine(x, start, w, r))
    && (forall r: real, u: real :: Moves(x, w, r, u))
  }

  /** A forward or backward drive that starts on its heading and has nothing to correct. */
  ghost predicate StraightDrive(x: Mission, start: Pose) {
    && x.limits.Positive() && x.linearStep > 0.0 && x.settings.positionTolerance >= 0.0
    && x.plan.firstPhase == Driving && x.plan.heading == start.yaw && x.plan.sense != InPlace
    && x.plan.distance >= 0.0
    && x.headingError(x.plan.heading) == 0.0 && AngularCommand(x, 0.0, 0.0) == 0.0
  }

  // ----- the ideal course: the same drive in one dimension

  /** Towards the speed `want`, from speed `v`. */
  function NextSpeed(x: Mission, want: real, v: real): real {
    ClampDelta(Clamp(want, 0.0, x.limits.maxLinear), v, x.linearStep)
  }

  /** The speed commanded in tick `k - 1`. */
  function Speed(x: Mission, w: World, k: nat): real
    decreases k, 0
  {
    if k == 0 then 0.0 else NextSpeed(x, x.linearGain(ToGo(x, w, k - 1)), Speed(x, w, k - 1))
  }

  /** The distance to go before tick `k`. */
  function ToGo(x: Mission, w: World, k: nat): real
    decreases k, 1
  {
    if k == 0 then x.plan.distance else ToGo(x, w, k - 1) - w.cover(Speed(x, w, k))
  }

  ghost predicate Underway(x: Mission, w: World, k: nat) {
    forall j: nat | j < k :: ToGo(x, w, j) > x.settings.positionTolerance
  }

  /** `r` to go at speed `v`, slow enough that one step of deceleration suffices to obey the
      proportional law. */
  ghost predicate Cruising(x: Mission, r: real, v: real) {
    && 0.0 <= r <= x.plan.distance && 0.0 <= v <= x.limits.maxLinear
    && v - x.linearStep <= x.linearGain(r)
  }

  lemma SpeedLaw(x: Mission, want: real, v: real, slowest: real)
    requires x.limits.maxLinear > 0.0 && x.linearStep > 0.0 && 0.0 <= v <= x.limits.maxLinear
    requires want >= slowest > 0.0 && v - x.linearStep <= want
    requires slowest <= x.limits.maxLinear && slowest <= x.linearStep
    ensures slowest <= NextSpeed(x, want, v) <= want && NextSpeed(x, want, v) <= x.limits.maxLinear
  {}

  lemma CruiseStep(x: Mission, w: World, r: real, v: real, u: real)
    requires x.limits.maxLinear > 0.0 && x.linearStep > 0.0 && Cruising(x, r, v)
    requires 0.0 < w.slowest <= x.limits.maxLinear && w.slowest <= x.linearStep
    requires r > x.settings.positionTolerance && u == NextSpeed(x, x.linearGain(r), v)
    requires Pulls(x, w, r) && Yields(x, w.cover, r, u) && Covers(w, u)
    ensures Cruising(x, r - w.cover(u), u) && w.cover(u) >= w.unit
    ensures w.slowest <= u <= x.linearGain(r)
  {
    SpeedLaw(x, x.linearGain(r), v, w.slowest);
  }

  /** One tick of the course. */
  lemma CourseTicks(x: Mission, w: World, k: nat)
    requires x.limits.maxLinear > 0.0 && x.linearStep > 0.0
    requires 0.0 < w.slowest <= x.limits.maxLinear && w.slowest <= x.linearStep && 0.0 < w.unit
    requires k > 0 && Cruising(x, ToGo(x, w, k - 1), Speed(x, w, k - 1))
    requires ToGo(x, w, k - 1) > x.settings.positionTolerance
    requires var r, u := ToGo(x, w, k - 1), Speed(x, w, k); Pulls(x, w, r) && Yields(x, w.cover, r, u) && Covers(w, u)
    ensures Cruising(x, ToGo(x, w, k), Speed(x, w, k))
    ensures ToGo(x, w, k) <= ToGo(x, w, k - 1) - w.unit
    ensures w.slowest <= Speed(x, w, k) <= x.linearGain(ToGo(x, w, k - 1))
  {
    CruiseStep(x, w, ToGo(x, w, k - 1), Speed(x, w, k - 1), Speed(x, w, k));
  }

  /** While underway the course never passes its target, never exceeds the proportional speed and
      covers at least `unit` in every tick. */
  lemma {:induction false} CourseAdvances(x: Mission, start: Pose, w: World, k: nat)
    requires StraightDrive(x, start) && IsIdeal(x, start, w) && Underway(x, w, k)
    ensures Cruising(x, ToGo(x, w, k), Speed(x, w, k))
    ensures k > 0 ==>
              && ToGo(x, w, k) <= ToGo(x, w, k - 1) - w.unit
              && w.slowest <= Speed(x, w, k) <= x.linearGain(ToGo(x, w, k - 1))
  {
    if k == 0 {
      assert Pulls(x, w, x.plan.distance);
    } else {
      CourseAdvances(x, start, w, k - 1);
      var r, u := ToGo(x, w, k - 1), Speed(x, w, k);
      assert Pulls(x, w, r) && Yields(x, w.cover, r, u) && Covers(w, u);
      CourseTicks(x, w, k);
    }
  }

  // ----- the loop follows the course

  /** Nobody cancels, time does not run out and nothing stands in the way. */
  ghost predicate Quiet(x: Mission, t: Tick) {
    && !t.cancelled && !t.tokenExpired && t.now < x.deadline && t.odometry.Usable()
    && x.obstacle(t.scan).None?
  }

  function TwistOf(o: Outcome): Twist {
    if o.Drive? then o.twist else ZeroTwist
  }

  /** Where the robot is after tick `k`. */
  function NextPose(x: Mission, start: Pose, ticks: seq<Tick>, w: World, k: nat): Pose
    requires k < |ticks| && ticks[k].odometry.Usable()
  {
    w.plant(ticks[k].odometry.pose.value, TwistOf(Step(x, RunLoop(x, start, ticks[..k]).state, ticks[k])))
  }

  /** Undisturbed samples of the ideal robot driven by this very loop, starting at `start`. */
  ghost predicate ClosedLoop(x: Mission, start: Pose, ticks: seq<Tick>, w: World) {
    && (forall k | 0 <= k < |ticks| :: Quiet(x, ticks[k]))
    && (|ticks| > 0 ==> ticks[0].odometry.pose.value == start)
    && (forall k | 0 <= k < |ticks| - 1 :: ticks[k + 1].odometry.pose.value == NextPose(x, start, ticks, w, k))
  }

  /** The loop state before a tick, at speed `v`. */
  ghost predicate OnCourse(x: Mission, start: Pose, st: LoopState, v: real) {
    && st.phase == Driving && st.phaseStart == start
    && st.prevLinear == x.plan.sense.Signed(v) && st.prevAngular == 0.0
  }

  lemma SignedClampDelta(sense: DriveSense, target: real, prev: real, d: real)
    ensures sense != InPlace ==>
              ClampDelta(sense.Signed(target), sense.Signed(prev), d) == sense.Signed(ClampDelta(target, prev, d))
  {}

  lemma QuietDrive(x: Mission, st: LoopState, t: Tick)
    requires Quiet(x, t) && st.phase == Driving
    ensures var pose := t.odometry.pose.value;
            Step(x, st, t) ==
            DriveStep(x, st.(traveled := st.traveled + Distance(x.m, st.lastPose, pose), lastPose := pose), pose)
  {}

  /** The outcome of a tick on course. */
  lemma TickOnCourse(x: Mission, start: Pose, w: World, st: LoopState, t: Tick, r: real, v: real)
    requires StraightDrive(x, start) && OnLine(x, start, w, r) && Quiet(x, t)
    requires OnCourse(x, start, st, v) && t.odometry.pose.value == w.line(r) && r <= x.plan.distance
    ensures var u := NextSpeed(x, x.linearGain(r), v);
            var o := Step(x, st, t);
            if r <= x.settings.positionTolerance
            then o.Exit? && o.result.succeeded && o.result.finalPose == Some(w.line(r))
            else o.Drive? && o.twist == Twist(x.plan.sense.Signed(u), 0.0) && OnCourse(x, start, o.next, u)
  {
    QuietDrive(x, st, t);
    assert Remaining(x, st, t.odometry.pose.value) == r;
    SignedClampDelta(x.plan.sense, Clamp(x.linearGain(r), 0.0, x.limits.maxLinear), v, x.linearStep);
  }

  ghost predicate ForwardOnly(x: Mission, log: seq<Published>) {
    forall i | 0 <= i < |log| :: x.plan.sense.Signed(log[i].twist.linear) >= 0.0 && log[i].twist.angular == 0.0
  }

  /** The run and the sample of tick `k` with `r` to go at speed `v`. */
  ghost predicate AtTick(x: Mission, start: Pose, ticks: seq<Tick>, w: World, k: nat, r: real, v: real)
    requires k < |ticks| && ticks[k].odometry.Usable()
  {
    var run := RunLoop(x, start, ticks[..k]);
    && run.result.None? && ForwardOnly(x, run.log) && OnCourse(x, start, run.state, v)
    && ticks[k].odometry.pose.value == w.line(r)
  }

  lemma OneTickFurther(x: Mission, start: Pose, ticks: seq<Tick>, w: World, k: nat, r: real, v: real, u: real)
    requires StraightDrive(x, start) && 0 < k < |ticks| && Quiet(x, ticks[k - 1]) && Quiet(x, ticks[k])
    requires AtTick(x, start, ticks, w, k - 1, r, v) && x.settings.positionTolerance < r <= x.plan.distance
    requires u == NextSpeed(x, x.linearGain(r), v) && u >= 0.0
    requires OnLine(x, start, w, r) && Moves(x, w, r, u)
    requires ticks[k].odometry.pose.value == NextPose(x, start, ticks, w, k - 1)
    ensures AtTick(x, start, ticks, w, k, r - w.cover(u), u)
  {
    var before := RunLoop(x, start, ticks[..k - 1]);
    TickOnCourse(x, start, w, before.state, ticks[k - 1], r, v);
    RunOneMore(x, start, ticks, k - 1);
  }

  /** What the induction needs to know of tick `k`. */
  ghost predicate IdealTick(x: Mission, start: Pose, ticks: seq<Tick>, w: World, k: nat) {
    var r, u := ToGo(x, w, k), Speed(x, w, k + 1);
    && k + 1 < |ticks| && Quiet(x, ticks[k]) && Quiet(x, ticks[k + 1])
    && x.settings.positionTolerance < r <= x.plan.distance && u >= 0.0
    && OnLine(x, start, w, r) && Moves(x, w, r, u)
    && ticks[k + 1].odometry.pose.value == NextPose(x, start, ticks, w, k)
  }

  lemma IdealTicks(x: Mission, start: Pose, ticks: seq<Tick>, w: World, k: nat)
    requires StraightDrive(x, start) && IsIdeal(x, start, w)
    requires k + 1 < |ticks| && ClosedLoop(x, start, ticks, w) && Underway(x, w, k + 1)
    ensures IdealTick(x, start, ticks, w, k)
  {
    CourseAdvances(x, start, w, k);
    CourseAdvances(x, start, w, k + 1);
    var r := ToGo(x, w, k);
    assert r > x.settings.positionTolerance;
    assert OnLine(x, start, w, r) && Moves(x, w, r, Speed(x, w, k + 1));
    assert Quiet(x, ticks[k]) && Quiet(x, ticks[k + 1]);
  }

  ghost predicate CourseTick(x: Mission, start: Pose, ticks: seq<Tick>, w: World, k: nat)
    requires k < |ticks| && ticks[k].odometry.Usable()
  {
    AtTick(x, start, ticks, w, k, ToGo(x, w, k), Speed(x, w, k))
  }

  lemma NextCourseTick(x: Mission, start: Pose, ticks: seq<Tick>, w: World, k: nat)
    requires StraightDrive(x, start) && 0 < k < |ticks| && Quiet(x, ticks[k]) && Quiet(x, ticks[k - 1])
    requires IdealTick(x, start, ticks, w, k - 1) && CourseTick(x, start, ticks, w, k - 1)
    ensures CourseTick(x, start, ticks, w, k)
  {
    OneTickFurther(x, start, ticks, w, k, ToGo(x, w, k - 1), Speed(x, w, k - 1), Speed(x, w, k));
  }

  lemma {:induction false} TicksOnCourse(x: Mission, start: Pose, ticks: seq<Tick>, w: World, k: nat)
    requires StraightDrive(x, start) && k < |ticks| && Quiet(x, ticks[0]) && Quiet(x, ticks[k])
    requires ticks[0].odometry.pose.value == start == w.line(x.plan.distance)
    requires forall j: nat | j < k :: IdealTick(x, start, ticks, w, j)
    ensures CourseTick(x, start, ticks, w, k)
  {
    if k > 0 {
      assert IdealTick(x, start, ticks, w, k - 1);
      TicksOnCourse(x, start, ticks, w, k - 1);
      NextCourseTick(x, start, ticks, w, k);
    }
  }

  /** Every tick of the closed loop is on the ideal course until the tolerance is reached. */
  lemma RunFollowsCourse(x: Mission, start: Pose, ticks: seq<Tick>, w: World, k: nat)
    requires StraightDrive(x, start) && IsIdeal(x, start, w)
    requires k < |ticks| && ClosedLoop(x, start, ticks, w) && Underway(x, w, k)
    ensures ticks[k].odometry.Usable() && CourseTick(x, start, ticks, w, k)
  {
    forall j: nat | j < k
      ensures IdealTick(x, start, ticks, w, j)
    {
      assert Underway(x, w, j + 1);
      IdealTicks(x, start, ticks, w, j);
    }
    assert Quiet(x, ticks[0]) && Quiet(x, ticks[k]);
    TicksOnCourse(x, start, ticks, w, k);
  }

  /** The ground `n` ticks at the slowest speed cover. */
  function GroundCovered(w: World, n: nat): real {
    if n == 0 then 0.0 else GroundCovered(w, n - 1) + w.unit
  }

  lemma {:induction false} GroundCoveredIs(w: World, n: nat)
    ensures GroundCovered(w, n) == (n as real) * w.unit
  {
    if n > 0 {
      GroundCoveredIs(w, n - 1);
      var nr := (n - 1) as real;
      assert n as real == nr + 1.0;
      assert (nr + 1.0) * w.unit == nr * w.unit + w.unit;
    }
  }

  /** A number of ticks that surely suffices. */
  ghost predicate LongEnough(x: Mission, w: World, n: nat) {
    (n as real) * w.unit >= x.plan.distance - x.settings.positionTolerance
  }

  lemma {:induction false} CourseShrinks(x: Mission, start: Pose, w: World, k: nat)
    requires StraightDrive(x, start) && IsIdeal(x, start, w) && Underway(x, w, k)
    ensures ToGo(x, w, k) <= x.plan.distance - GroundCovered(w, k)
  {
    if k > 0 {
      CourseShrinks(x, start, w, k - 1);
      CourseAdvances(x, start, w, k);
    }
  }

  /** The tick in which the course first enters the tolerance. */
  lemma ArrivalTick(x: Mission, start: Pose, w: World, n: nat) returns (a: nat)
    requires StraightDrive(x, start) && IsIdeal(x, start, w)
    requires LongEnough(x, w, n)
    ensures a <= n && Underway(x, w, a) && ToGo(x, w, a) <= x.settings.positionTolerance
  {
    a := 0;
    while a < n && ToGo(x, w, a) > x.settings.positionTolerance
      invariant a <= n && Underway(x, w, a)
    {
      a := a + 1;
    }
    if a == n {
      CourseShrinks(x, start, w, n);
      GroundCoveredIs(w, n);
    }
  }

  /** The run has succeeded, at a point of its line at most the tolerance short of the target and not
      beyond it. */
  ghost predicate Arrived(x: Mission, w: World, run: LoopRun) {
    && run.result.Some? && run.result.value.succeeded
    && exists r: real :: ShortBy(x, w, run.result.value.finalPose, r)
  }

  ghost predicate ShortBy(x: Mission, w: World, pose: Option<Pose>, r: real) {
    0.0 <= r <= x.settings.positionTolerance && pose == Some(w.line(r))
  }

  lemma {:induction false} ConvergesAt(x: Mission, start: Pose, ticks: seq<Tick>, w: World, a: nat)
    requires StraightDrive(x, start) && IsIdeal(x, start, w) && ClosedLoop(x, start, ticks, w)
    requires a < |ticks| && Underway(x, w, a) && ToGo(x, w, a) <= x.settings.positionTolerance
    ensures Arrived(x, w, RunLoop(x, start, ticks)) && ForwardOnly(x, RunLoop(x, start, ticks).log)
  {
    RunFollowsCourse(x, start, ticks, w, a);
    CourseAdvances(x, start, w, a);
    var r := ToGo(x, w, a);
    assert OnLine(x, start, w, r) && Quiet(x, ticks[a]);
    TickOnCourse(x, start, w, RunLoop(x, start, ticks[..a]).state, ticks[a], r, Speed(x, w, a));
    RunOneMore(x, start, ticks, a);
    RunStaysFinished(x, start, ticks, a + 1);
    assert ShortBy(x, w, RunLoop(x, start, ticks).result.value.finalPose, r);
  }

  /** Closed-loop convergence, for any ideal world: the drive publishes forward-only twists, and
      once `n` ticks have passed it has succeeded, at a point of its line at most the tolerance
      short of the target and never beyond it. */
  lemma {:induction false} ConvergesIn(x: Mission, start: Pose, ticks: seq<Tick>, w: World, n: nat)
    requires StraightDrive(x, start) && IsIdeal(x, start, w)
    requires ClosedLoop(x, start, ticks, w) && LongEnough(x, w, n) && |ticks| > n
    ensures Arrived(x, w, RunLoop(x, start, ticks)) && ForwardOnly(x, RunLoop(x, start, ticks).log)
  {
    var a := ArrivalTick(x, start, w, n);
    ConvergesAt(x, start, ticks, w, a);
  }

  // ----- the integrator is an ideal world

  /** The gains the drive converges for. */
  ghost predicate Tuned(x: Mission, dt: real) {
    && dt > 0.0 && x.settings.kpLinear > 0.0 && x.settings.positionTolerance > 0.0
    && x.settings.kpLinear * dt <= 1.0
    && x.settings.kpLinear * x.limits.maxLinear * dt <= x.linearStep
  }

  function Slowest(x: Mission): real {
    Min(x.settings.kpLinear * x.settings.positionTolerance, Min(x.limits.maxLinear, x.linearStep))
  }

  function IdealWorld(x: Mission, start: Pose, dt: real): World {
    World((u: real) => u * dt,
          (r: real) => StraightAhead(x.m, start, x.plan.heading, x.plan.sense.Signed(x.plan.distance - r)),
          (pose: Pose, twist: Twist) => Integrate(x.m, pose, twist, dt),
          Slowest(x), Slowest(x) * dt)
  }

  lemma StaysBehind(kp: real, maxLinear: real, step: real, r: real, u: real, dt: real)
    requires kp > 0.0 && dt > 0.0 && r >= 0.0 && 0.0 <= u <= maxLinear && u <= kp * r
    requires kp * dt <= 1.0 && kp * maxLinear * dt <= step
    ensures 0.0 <= u * dt <= r
    ensures u - step <= kp * (r - u * dt)
  {
    var udt, kr, kdt := u * dt, kp * r, kp * dt;
    ProductMonotone(0.0, u, dt);
    ProductMonotone(u, kr, dt);
    assert kr * dt == kdt * r;
    ProductMonotone(kdt, 1.0, r);
    var km := kp * maxLinear;
    ProductMonotone(u, maxLinear, kp);
    var ku := kp * u;
    ProductMonotone(ku, km, dt);
    assert kp * udt == ku * dt;
    assert kp * (r - udt) == kr - kp * udt;
  }

  lemma PlantAdvances(m: Math, from: Pose, heading: real, s: real, v: real, dt: real, t: real)
    requires t == s + v * dt
    ensures Integrate(m, StraightAhead(m, from, heading, s), Twist(v, 0.0), dt)
            == StraightAhead(m, from, heading, t)
  {
    var c, n := m.cos(heading), m.sin(heading);
    AdvanceAlong(from.x, s, v, dt, c, t);
    AdvanceAlong(from.y, s, v, dt, n, t);
    var here := StraightAhead(m, from, heading, s);
    var next := Integrate(m, here, Twist(v, 0.0), dt);
    assert next.x == here.x + v * c * dt && next.y == here.y + v * n * dt;
    assert 0.0 * dt == 0.0;
    assert next.yaw == heading;
  }

  lemma AdvanceAlong(x0: real, s: real, v: real, dt: real, c: real, t: real)
    requires t == s + v * dt
    ensures x0 + s * c + v * c * dt == x0 + t * c
  {
    var vdt := v * dt;
    assert v * c * dt == vdt * c;
    assert t * c == s * c + vdt * c;
  }

  lemma PullingWorld(x: Mission, w: World, r: real)
    requires x.settings.kpLinear > 0.0 && w.slowest <= x.settings.kpLinear * x.settings.positionTolerance
    requires x.linearGain(r) == x.settings.kpLinear * r
    ensures Pulls(x, w, r)
  {
    if r >= 0.0 { ProductMonotone(0.0, r, x.settings.kpLinear); }
    if r > x.settings.positionTolerance { ProductMonotone(x.settings.positionTolerance, r, x.settings.kpLinear); }
  }

  lemma CoveringWorld(w: World, dt: real, u: real)
    requires dt > 0.0 && w.cover(u) == u * dt && w.unit == w.slowest * dt
    ensures Covers(w, u)
  {
    if u >= w.slowest { ProductMonotone(w.slowest, u, dt); }
  }

  lemma YieldingWorld(x: Mission, cover: real -> real, dt: real, r: real, u: real)
    requires Tuned(x, dt) && cover(u) == u * dt && x.limits.maxLinear > 0.0
    requires x.linearGain(r) == x.settings.kpLinear * r
    requires x.linearGain(r - cover(u)) == x.settings.kpLinear * (r - cover(u))
    ensures Yields(x, cover, r, u)
  {
    if r >= 0.0 && 0.0 <= u <= x.limits.maxLinear && u <= x.linearGain(r) {
      StaysBehind(x.settings.kpLinear, x.limits.maxLinear, x.linearStep, r, u, dt);
    }
  }

  lemma SpeedWorld(x: Mission, start: Pose, dt: real)
    requires StraightDrive(x, start) && Tuned(x, dt)
    ensures var w := IdealWorld(x, start, dt);
            && 0.0 < w.slowest <= x.limits.maxLinear && w.slowest <= x.linearStep && 0.0 < w.unit
            && w.slowest <= x.settings.kpLinear * x.settings.positionTolerance
  {
    ProductPositive(x.settings.kpLinear, x.settings.positionTolerance);
    ProductPositive(Slowest(x), dt);
  }

  lemma LineWorld(x: Mission, start: Pose, dt: real, r: real)
    requires x.m.Sound() && x.plan.sense != InPlace
    ensures OnLine(x, start, IdealWorld(x, start, dt), r)
  {
    StraightAheadDistance(x.m, start, x.plan.heading, x.plan.sense.Signed(x.plan.distance - r));
  }

  lemma SignedProgress(sense: DriveSense, distance: real, r: real, u: real, dt: real, covered: real)
    requires covered == u * dt
    ensures sense.Signed(distance - (r - covered)) == sense.Signed(distance - r) + sense.Signed(u) * dt
  {
    NegatedFactor(dt, u);
    match sense {
      case Ahead =>
      case Reverse =>
        assert -u * dt == -covered;
      case InPlace =>
    }
  }

  lemma MovingWorld(x: Mission, start: Pose, dt: real, r: real, u: real)
    ensures Moves(x, IdealWorld(x, start, dt), r, u)
  {
    var w, sense, d := IdealWorld(x, start, dt), x.plan.sense, x.plan.distance;
    var covered := u * dt;
    var t := sense.Signed(d - (r - covered));
    SignedProgress(sense, d, r, u, dt, covered);
    PlantAdvances(x.m, start, x.plan.heading, sense.Signed(d - r), sense.Signed(u), dt, t);
    assert w.cover(u) == covered;
    assert w.line(r - covered) == StraightAhead(x.m, start, x.plan.heading, t);
  }

  lemma StraightMission(x: Mission, start: Pose)
    requires x.Wired() && x.limits.Positive() && x.linearStep > 0.0 && x.settings.positionTolerance >= 0.0
    requires x.plan.firstPhase == Driving && x.plan.heading == start.yaw && x.plan.sense != InPlace
             && x.plan.distance >= 0.0
    ensures StraightDrive(x, start)
  {
    NormalizeUnique(x.m.pi, 0.0, 0.0, 0);
    assert x.plan.heading - x.plan.heading == 0.0;
    assert x.HeadingErrorAt(x.plan.heading) && x.AngularGainAt(0.0);
    assert x.settings.kpAngular * 0.0 == 0.0;
  }

  lemma IdealPull(x: Mission, start: Pose, dt: real)
    requires StraightDrive(x, start) && x.Wired() && Tuned(x, dt)
    ensures var w := IdealWorld(x, start, dt); forall r: real :: Pulls(x, w, r)
  {
    var w := IdealWorld(x, start, dt);
    SpeedWorld(x, start, dt);
    forall r: real ensures Pulls(x, w, r) {
      assert x.LinearGainAt(r);
      PullingWorld(x, w, r);
    }
  }

  lemma IdealCover(x: Mission, start: Pose, dt: real)
    requires dt > 0.0
    ensures var w := IdealWorld(x, start, dt); forall u: real :: Covers(w, u)
  {
    var w := IdealWorld(x, start, dt);
    forall u: real ensures Covers(w, u) { CoveringWorld(w, dt, u); }
  }

  lemma IdealBraking(x: Mission, start: Pose, dt: real)
    requires StraightDrive(x, start) && x.Wired() && Tuned(x, dt)
    ensures var w := IdealWorld(x, start, dt); forall r: real, u: real :: Yields(x, w.cover, r, u)
  {
    var w := IdealWorld(x, start, dt);
    forall r: real, u: real ensures Yields(x, w.cover, r, u) {
      assert x.LinearGainAt(r) && x.LinearGainAt(r - w.cover(u));
      YieldingWorld(x, w.cover, dt, r, u);
    }
  }

  lemma IdealTrack(x: Mission, start: Pose, dt: real)
    requires StraightDrive(x, start) && x.m.Sound()
    ensures var w := IdealWorld(x, start, dt);
            && w.line(x.plan.distance) == start
            && (forall r: real :: OnLine(x, start, w, r))
            && (forall r: real, u: real :: Moves(x, w, r, u))
  {
    var w := IdealWorld(x, start, dt);
    forall r: real ensures OnLine(x, start, w, r) { LineWorld(x, start, dt, r); }
    forall r: real, u: real ensures Moves(x, w, r, u) { MovingWorld(x, start, dt, r, u); }
    assert x.plan.sense.Signed(x.plan.distance - x.plan.distance) == 0.0;
    LineStart(x.m, start, x.plan.heading);
    assert w.line(x.plan.distance) == StraightAhead(x.m, start, x.plan.heading, 0.0);
  }

  lemma IdealWorldIsIdeal(x: Mission, start: Pose, dt: real)
    requires StraightDrive(x, start) && x.Wired() && x.m.Sound() && Tuned(x, dt)
    ensures IsIdeal(x, start, IdealWorld(x, start, dt))
  {
    SpeedWorld(x, start, dt);
    IdealPull(x, start, dt);
    IdealCover(x, start, dt);
    IdealBraking(x, start, dt);
    IdealTrack(x, start, dt);
  }

  lemma LineStart(m: Math, from: Pose, heading: real)
    requires heading == from.yaw
    ensures StraightAhead(m, from, heading, 0.0) == from
  {}

  lemma ScaledDifference(x0: real, t: real, s: real, c: real)
    ensures (x0 + t * c) - (x0 + s * c) == (t - s) * c
  {}

  lemma LineDistance(m: Math, from: Pose, heading: real, s: real, t: real)
    requires m.Sound()
    ensures Distance(m, StraightAhead(m, from, heading, s), StraightAhead(m, from, heading, t)) == Abs(t - s)
  {
    var a, b := StraightAhead(m, from, heading, s), StraightAhead(m, from, heading, t);
    var d := t - s;
    HypotAlongHeading(m, d, heading);
    ScaledDifference(from.x, t, s, m.cos(heading));
    ScaledDifference(from.y, t, s, m.sin(heading));
    assert b.x - a.x == d * m.cos(heading) && b.y - a.y == d * m.sin(heading);
  }

  /** The mission of a forward or backward move is a straight drive of its distance. */
  lemma ForwardMission(m: Math, limits: Constraints, settings: Settings, along: Translation, distance: real,
                       start: Pose, deadline: real)
    requires (along == Forward || along == Backward) && m.Sound() && limits.Positive() && settings.tick > 0.0
    requires distance >= 0.0 && settings.positionTolerance >= 0.0
    ensures var x := MissionFor(m, limits, settings, MoveTarget(Translate(along), Some(distance), None), start,
                                deadline);
            && StraightDrive(x, start) && Drives(x, m, along, distance)
  {
    var target := MoveTarget(Translate(along), Some(distance), None);
    MissionSteps(m, limits, settings, target, start, deadline);
    StraightMission(MissionFor(m, limits, settings, target, start, deadline), start);
  }

  ghost predicate Drives(x: Mission, m: Math, along: Translation, distance: real) {
    x.m == m && x.plan.distance == distance && x.plan.sense == (if along == Backward then Reverse else Ahead)
  }

  /** The drive succeeds within the tolerance of the predicted point. */
  ghost predicate ReachesPrediction(x: Mission, along: Translation, start: Pose, result: Option<MotionResult>) {
    && result.Some? && result.value.succeeded && result.value.finalPose.Some?
    && var (px, py) := ProjectTranslation(x.m, along, x.plan.distance, start);
       Distance(x.m, result.value.finalPose.value, Pose(px, py, start.yaw)) <= x.settings.positionTolerance
  }

  lemma DriveArrives(x: Mission, start: Pose, ticks: seq<Tick>, dt: real, n: nat)
    requires x.m.Sound() && x.Wired() && StraightDrive(x, start)
    requires Tuned(x, dt) && ClosedLoop(x, start, ticks, IdealWorld(x, start, dt))
    requires LongEnough(x, IdealWorld(x, start, dt), n) && |ticks| > n
    ensures Arrived(x, IdealWorld(x, start, dt), RunLoop(x, start, ticks))
  {
    IdealWorldIsIdeal(x, start, dt);
    ConvergesIn(x, start, ticks, IdealWorld(x, start, dt), n);
  }

  lemma ArrivedReaches(x: Mission, along: Translation, start: Pose, dt: real, run: LoopRun)
    requires (along == Forward || along == Backward) && x.m.Sound() && Drives(x, x.m, along, x.plan.distance)
    requires x.plan.heading == start.yaw && Arrived(x, IdealWorld(x, start, dt), run)
    ensures ReachesPrediction(x, along, start, run.result)
  {
    var r: real :| ShortBy(x, IdealWorld(x, start, dt), run.result.value.finalPose, r);
    ShortOfPrediction(x.m, along, x.plan.distance, start, x.plan.sense, r);
  }

  lemma DriveReachesPrediction(x: Mission, along: Translation, start: Pose, ticks: seq<Tick>, dt: real, n: nat)
    requires (along == Forward || along == Backward) && x.m.Sound() && x.Wired() && StraightDrive(x, start)
             && Drives(x, x.m, along, x.plan.distance)
    requires Tuned(x, dt) && ClosedLoop(x, start, ticks, IdealWorld(x, start, dt))
    requires LongEnough(x, IdealWorld(x, start, dt), n) && |ticks| > n
    ensures ReachesPrediction(x, along, start, RunLoop(x, start, ticks).result)
  {
    DriveArrives(x, start, ticks, dt, n);
    ArrivedReaches(x, along, start, dt, RunLoop(x, start, ticks));
  }

  /** A whole forward or backward `move` on the ideal robot succeeds in the number of ticks known in
      advance, and ends within the position tolerance of the very point the safety gate predicted
      for it. */
  lemma MoveReachesPrediction(m: Math, limits: Constraints, settings: Settings, along: Translation, distance: real,
                              timeout: real, startTime: real, start: Pose, ticks: seq<Tick>, dt: real, n: nat)
    requires (along == Forward || along == Backward) && m.Sound() && limits.Positive() && settings.tick > 0.0
    requires distance >= 0.0
    requires var x := MissionFor(m, limits, settings, MoveTarget(Translate(along), Some(distance), None), start,
                                 startTime + timeout);
             && Tuned(x, dt) && ClosedLoop(x, start, ticks, IdealWorld(x, start, dt))
             && LongEnough(x, IdealWorld(x, start, dt), n) && |ticks| > n
    ensures var target := MoveTarget(Translate(along), Some(distance), None);
            var x := MissionFor(m, limits, settings, target, start, startTime + timeout);
            var trace := RunMove(m, limits, settings, target, timeout, startTime, Odometry(Some(start), true), ticks);
            ReachesPrediction(x, along, start, trace.result)
  {
    var x := MissionFor(m, limits, settings, MoveTarget(Translate(along), Some(distance), None), start,
                        startTime + timeout);
    ForwardMission(m, limits, settings, along, distance, start, startTime + timeout);
    DriveReachesPrediction(x, along, start, ticks, dt, n);
  }

  lemma ShortOfPrediction(m: Math, along: Translation, distance: real, start: Pose, sense: DriveSense, r: real)
    requires m.Sound() && (along == Forward || along == Backward)
             && sense == (if along == Backward then Reverse else Ahead)
    ensures var (px, py) := ProjectTranslation(m, along, distance, start);
            Distance(m, StraightAhead(m, start, start.yaw, sense.Signed(distance - r)), Pose(px, py, start.yaw))
                == Abs(r)
  {
    PredictionAgreesWithExecution(m, along, distance, start);
    LineDistance(m, start, start.yaw, sense.Signed(distance - r), sense.Signed(distance));
    assert DriveSign(along) * distance == sense.Signed(distance);
  }
}
