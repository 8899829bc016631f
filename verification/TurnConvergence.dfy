/**
 The turning phase in closed loop with the ideal robot, whose yaw changes by angular * dt in each tick (up to
 whole turns, as odometry reports it).

 A turn converges for a wider range of gains than `DriveConvergence` asks of a drive, and it has to: the
 default angular gains (1.5, 1 rad/s, 1 rad/s^2 at 20 Hz) make the proportional law slow down faster than
 the acceleration limit allows, so the robot runs ahead of that law. It still never overshoots, because
 the braking distance of its speed never exceeds what is left to turn.
 */
module TurnConvergence {
  import opened RealMath
  import opened Geometry
  import opened Core
  import opened CmdVel

  // ----- one dimension: what is left to turn, and the speed

  /** `want(left)` is the proportional speed, `cover(speed)` the angle a tick covers, and `room(left, speed)`
      says that braking at `step` a tick from `speed` ends within `left`. */
  datatype Course = Course(
    top: real, step: real, tolerance: real, want: real -> real, cover: real -> real, room: (real, real) -> bool)

  function NextSpeed(c: Course, left: real, speed: real): real {
    ClampDelta(Clamp(c.want(left), -c.top, c.top), speed, c.step)
  }

  ghost predicate CanStop(c: Course, left: real, speed: real) {
    0.0 <= left && 0.0 <= speed <= c.top && c.room(left, speed)
  }

  /** A tick leaves room to stop, does not pass the target and does not turn back; the speed is at least
      one step more, or what is wanted. */
  ghost predicate Keeps(c: Course, left: real, speed: real) {
    CanStop(c, left, speed) ==>
      var next := NextSpeed(c, left, speed);
      && 0.0 <= c.cover(next) && CanStop(c, left - c.cover(next), next)
      && next >= Min(speed + c.step, Min(c.want(left), c.top))
  }

  ghost predicate Pulls(c: Course, left: real, floor: real) { left >= floor ==> c.want(left) >= c.want(floor) }

  ghost predicate Covers(c: Course, fast: real, slow: real) { fast >= slow ==> c.cover(fast) >= c.cover(slow) }

  ghost predicate AtRest(c: Course, left: real) { left >= 0.0 ==> c.room(left, 0.0) }

  ghost predicate Lawful(c: Course) {
    && c.top > 0.0 && c.step > 0.0 && c.tolerance >= 0.0
    && (forall left: real, speed: real :: Keeps(c, left, speed))
    && (forall left: real, floor: real :: Pulls(c, left, floor))
    && (forall fast: real, slow: real :: Covers(c, fast, slow))
    && (forall left: real :: AtRest(c, left))
  }

  /** The speed commanded in tick `k - 1` of a turn by `all`. */
  function Speed(c: Course, all: real, k: nat): real
    decreases k, 0
  {
    if k == 0 then 0.0 else NextSpeed(c, Left(c, all, k - 1), Speed(c, all, k - 1))
  }

  /** What is left before tick `k`. */
  function Left(c: Course, all: real, k: nat): real
    decreases k, 1
  {
    if k == 0 then all else Left(c, all, k - 1) - c.cover(Speed(c, all, k))
  }

  /** The whole turn: never past the target, always able to stop, never away from it. */
  lemma {:induction false} TurnAdvances(c: Course, all: real, k: nat)
    requires Lawful(c) && all >= 0.0
    ensures CanStop(c, Left(c, all, k), Speed(c, all, k)) && Left(c, all, k) <= all
    ensures k > 0 ==> Left(c, all, k) <= Left(c, all, k - 1)
  {
    if k == 0 {
      assert AtRest(c, all);
    } else {
      TurnAdvances(c, all, k - 1);
      assert Keeps(c, Left(c, all, k - 1), Speed(c, all, k - 1));
    }
  }

  lemma {:induction false} NeverBack(c: Course, all: real, j: nat, k: nat)
    requires Lawful(c) && all >= 0.0 && j <= k
    ensures Left(c, all, k) <= Left(c, all, j)
  {
    if j < k {
      NeverBack(c, all, j, k - 1);
      TurnAdvances(c, all, k);
    }
  }

  // ----- how long it takes

  function Times(d: real, n: nat): real { if n == 0 then 0.0 else Times(d, n - 1) + d }

  /** The speed reached, sooner or later, while more than `floor` is left. */
  function Pace(c: Course, floor: real): real { Min(c.want(floor), c.top) }

  lemma {:induction false} SpeedsUp(c: Course, all: real, k: nat, i: nat, floor: real)
    requires Lawful(c) && all >= 0.0 && i > 0 && Left(c, all, k + i - 1) >= floor
    ensures Speed(c, all, k + i) >= Min(Times(c.step, i), Pace(c, floor))
    decreases i
  {
    var left, speed := Left(c, all, k + i - 1), Speed(c, all, k + i - 1);
    TurnAdvances(c, all, k + i - 1);
    assert Keeps(c, left, speed) && Pulls(c, left, floor);
    if i > 1 {
      TurnAdvances(c, all, k + i - 1);
      SpeedsUp(c, all, k, i - 1, floor);
    }
  }

  lemma {:induction false} TimesGrows(d: real, n: nat, more: nat)
    requires d >= 0.0
    ensures Times(d, n + more) >= Times(d, n)
  {
    if more > 0 { TimesGrows(d, n, more - 1); }
  }

  lemma {:induction false} GroundCovered(c: Course, all: real, k: nat, ramp: nat, n: nat, floor: real)
    requires Lawful(c) && all >= 0.0 && Times(c.step, ramp) >= Pace(c, floor)
    requires Left(c, all, k + ramp + n) >= floor
    ensures Left(c, all, k + ramp + n) <= Left(c, all, k) - Times(c.cover(Pace(c, floor)), n)
    decreases n
  {
    if n == 0 {
      NeverBack(c, all, k, k + ramp);
    } else {
      TurnAdvances(c, all, k + ramp + n);
      GroundCovered(c, all, k, ramp, n - 1, floor);
      SpeedsUp(c, all, k, ramp + n, floor);
      TimesGrows(c.step, ramp, n);
      assert Covers(c, Speed(c, all, k + ramp + n), Pace(c, floor));
    }
  }

  /** `ramp + n` ticks surely turn from `from` to `floor`: `ramp` to gather speed, `n` at the pace of
      `floor`. */
  ghost predicate Segment(c: Course, from: real, floor: real, ramp: nat, n: nat) {
    Times(c.step, ramp) >= Pace(c, floor) && Times(c.cover(Pace(c, floor)), n) >= from - floor
  }

  lemma {:induction false} SegmentEnds(c: Course, all: real, k: nat, from: real, floor: real, ramp: nat, n: nat)
    requires Lawful(c) && all >= 0.0 && Left(c, all, k) <= from && Segment(c, from, floor, ramp, n)
    ensures Left(c, all, k + ramp + n) <= floor
  {
    if Left(c, all, k + ramp + n) > floor { GroundCovered(c, all, k, ramp, n, floor); }
  }

  /** A number of ticks that surely suffices, in two stages: fast to `mid`, then slowly to the tolerance. */
  datatype Budget = Budget(mid: real, ramp: nat, fast: nat, ramp2: nat, slow: nat) {
    function Ticks(): nat { ramp + fast + ramp2 + slow }
  }

  ghost predicate LongEnough(c: Course, all: real, b: Budget) {
    Segment(c, all, b.mid, b.ramp, b.fast) && Segment(c, b.mid, c.tolerance, b.ramp2, b.slow)
  }

  lemma {:induction false} TurnEnds(c: Course, all: real, b: Budget)
    requires Lawful(c) && all >= 0.0 && LongEnough(c, all, b)
    ensures Left(c, all, b.Ticks()) <= c.tolerance
  {
    SegmentEnds(c, all, 0, all, b.mid, b.ramp, b.fast);
    SegmentEnds(c, all, b.ramp + b.fast, b.mid, c.tolerance, b.ramp2, b.slow);
  }

  // ----- the controller's law is lawful

  datatype Law = Law(kp: real, top: real, step: real, dt: real, tolerance: real) {
    /** The proportional law may be steeper than the acceleration limit, but not twice as steep. */
    ghost predicate Tuned() {
      && kp > 0.0 && top > 0.0 && step > 0.0 && dt > 0.0 && tolerance > 0.0
      && kp * (dt * (top + 2.0 * step)) <= 2.0 * step
    }

    /** Braking from this speed ends within what is left. */
    predicate Room(left: real, speed: real) {
      0.0 <= left && 0.0 <= speed <= top && dt * (speed * speed) <= (2.0 * step) * left
    }
  }

  function CourseOf(l: Law): Course {
    Course(l.top, l.step, l.tolerance, (left: real) => l.kp * left, (speed: real) => l.dt * speed,
           (left: real, speed: real) => l.Room(left, speed))
  }

  lemma BrakingKeeps(l: Law, left: real, speed: real, next: real)
    requires l.Tuned() && l.Room(left, speed) && next == speed - l.step && next >= 0.0
    ensures l.dt * (next * next) + (2.0 * l.step) * (l.dt * next) <= (2.0 * l.step) * left
  {
    var square, nextSquare := speed * speed, next * next;
    assert square == nextSquare + 2.0 * (l.step * next) + l.step * l.step;
    assert l.step * l.step >= 0.0;
    ProductMonotone(nextSquare + 2.0 * (l.step * next), square, l.dt);
    assert l.dt * (nextSquare + 2.0 * (l.step * next)) == l.dt * nextSquare + (2.0 * l.step) * (l.dt * next);
  }

  lemma ObeyingKeeps(l: Law, left: real, next: real)
    requires l.Tuned() && left >= 0.0 && 0.0 <= next <= l.top && next <= l.kp * left
    ensures l.dt * (next * next) + (2.0 * l.step) * (l.dt * next) <= (2.0 * l.step) * left
  {
    var a, b := next + 2.0 * l.step, l.top + 2.0 * l.step;
    var da, db, law := l.dt * a, l.dt * b, l.kp * left;
    ProductMonotone(a, b, l.dt);
    ProductMonotone(da, db, next);
    ProductPositive(l.dt, b);
    ProductMonotone(next, law, db);
    assert next * da <= law * db;
    ProductMonotone(l.kp * db, 2.0 * l.step, left);
    assert law * db == (l.kp * db) * left;
    assert next * da == l.dt * (next * next) + (2.0 * l.step) * (l.dt * next);
  }

  lemma SpeedIs(c: Course, left: real, speed: real)
    requires c.top > 0.0 && c.step > 0.0 && c.want(left) >= 0.0 && 0.0 <= speed <= c.top
    ensures var next := NextSpeed(c, left, speed);
            && 0.0 <= next <= c.top && (next == speed - c.step || next <= c.want(left))
            && next >= Min(speed + c.step, Min(c.want(left), c.top))
  {}

  /** Room after the tick is all there is to show. */
  lemma KeepsIfRoom(c: Course, left: real, speed: real)
    requires c.top > 0.0 && c.step > 0.0 && c.want(left) >= 0.0
    requires forall next: real :: RoomAfter(c, left, speed, next)
    ensures Keeps(c, left, speed)
  {
    if CanStop(c, left, speed) {
      SpeedIs(c, left, speed);
      assert RoomAfter(c, left, speed, NextSpeed(c, left, speed));
    }
  }

  ghost predicate RoomAfter(c: Course, left: real, speed: real, next: real) {
    CanStop(c, left, speed) && 0.0 <= next <= c.top && (next == speed - c.step || next <= c.want(left)) ==>
      0.0 <= c.cover(next) && CanStop(c, left - c.cover(next), next)
  }

  lemma MustBePositive(a: real, r: real, product: real)
    requires a > 0.0 && product == a * r && product >= 0.0
    ensures r >= 0.0
  {}

  lemma NotNegative(a: real, r: real, b: real, square: real)
    requires a > 0.0 && b > 0.0 && square >= 0.0 && b * square <= a * r
    ensures r >= 0.0
  {
    if square > 0.0 { ProductPositive(b, square); }
    var right := a * r;
    assert right >= 0.0;
    MustBePositive(a, r, right);
  }

  lemma WantIsNotNegative(kp: real, left: real)
    requires kp > 0.0 && left >= 0.0
    ensures kp * left >= 0.0
  {
    if left > 0.0 { ProductPositive(kp, left); }
  }

  /** Whichever way the speed was chosen. */
  lemma ChoiceKeeps(l: Law, left: real, speed: real, next: real)
    requires l.Tuned() && l.Room(left, speed) && 0.0 <= next <= l.top
    requires next == speed - l.step || next <= l.kp * left
    ensures l.dt * (next * next) + (2.0 * l.step) * (l.dt * next) <= (2.0 * l.step) * left
  {
    if next == speed - l.step {
      BrakingKeeps(l, left, speed, next);
    } else {
      ObeyingKeeps(l, left, next);
    }
  }

  lemma Distributes(a: real, x: real, y: real)
    ensures a * (x - y) == a * x - a * y
  {}

  /** The room left, `cost` and `room` being the two sides of its inequality. */
  lemma RoomLeft(l: Law, left: real, next: real, turned: real, cost: real, room: real)
    requires l.Tuned() && 0.0 <= next <= l.top && turned == l.dt * next
    requires cost == l.dt * (next * next) && room == (2.0 * l.step) * left
    requires cost + (2.0 * l.step) * turned <= room
    ensures l.Room(left - turned, next)
  {
    Distributes(2.0 * l.step, left, turned);
    SquareNotNegative(next);
    NotNegative(2.0 * l.step, left - turned, l.dt, next * next);
  }

  lemma KeepsRoom(l: Law, left: real, speed: real, next: real, turned: real)
    requires l.Tuned() && l.Room(left, speed) && 0.0 <= next <= l.top && turned == l.dt * next
    requires next == speed - l.step || next <= l.kp * left
    ensures turned >= 0.0 && l.Room(left - turned, next)
  {
    ChoiceKeeps(l, left, speed, next);
    WantIsNotNegative(l.dt, next);
    RoomLeft(l, left, next, turned, l.dt * (next * next), (2.0 * l.step) * left);
  }

  lemma SquareNotNegative(x: real)
    ensures x * x >= 0.0
  {}

  lemma LawRoom(l: Law, left: real, speed: real, next: real)
    requires l.Tuned()
    ensures RoomAfter(CourseOf(l), left, speed, next)
  {
    var c := CourseOf(l);
    if CanStop(c, left, speed) && 0.0 <= next <= c.top && (next == speed - c.step || next <= c.want(left)) {
      KeepsRoom(l, left, speed, next, c.cover(next));
    }
  }

  lemma LawKeeps(l: Law, left: real, speed: real)
    requires l.Tuned()
    ensures Keeps(CourseOf(l), left, speed)
  {
    if left >= 0.0 {
      WantIsNotNegative(l.kp, left);
      forall next: real ensures RoomAfter(CourseOf(l), left, speed, next) { LawRoom(l, left, speed, next); }
      KeepsIfRoom(CourseOf(l), left, speed);
    }
  }

  /** A tuned law turns lawfully. */
  lemma TunedIsLawful(l: Law)
    requires l.Tuned()
    ensures Lawful(CourseOf(l))
  {
    var c := CourseOf(l);
    forall left: real, speed: real ensures Keeps(c, left, speed) { LawKeeps(l, left, speed); }
    forall left: real, floor: real ensures Pulls(c, left, floor) {
      if left >= floor { ProductMonotone(floor, left, l.kp); }
    }
    forall fast: real, slow: real ensures Covers(c, fast, slow) {
      if fast >= slow { ProductMonotone(slow, fast, l.dt); }
    }
    forall left: real ensures AtRest(c, left) {
      if left >= 0.0 { WantIsNotNegative(2.0 * l.step, left); }
    }
  }

  // ----- the loop follows the course

  /** Left or right. */
  function Signed(leftward: bool, v: real): real { if leftward then v else -v }

  /** A turn of the mission, the course being that of its law. */
  ghost predicate Turns(x: Mission, c: Course) {
    && x.Wired() && x.plan.firstPhase == Turning && Lawful(c)
    && c.top == x.limits.maxAngular && c.step == x.angularStep && c.tolerance == x.settings.angleTolerance
    && forall left: real :: PullsAlike(x, c, left)
  }

  ghost predicate PullsAlike(x: Mission, c: Course, left: real) {
    x.angularGain(left) == c.want(left) && x.angularGain(-left) == -c.want(left)
  }

  /** Nobody cancels, time does not run out and odometry is fresh. */
  ghost predicate Calm(x: Mission, t: Tick) {
    !t.cancelled && !t.tokenExpired && t.now < x.deadline && t.odometry.Usable()
  }

  ghost predicate SameHeading(pi: real, a: real, b: real) { exists n: int :: TurnsApart(pi, a, b, n) }

  /** The yaw after the tick: the commanded turn, give or take whole turns. */
  ghost predicate TurnedBy(x: Mission, c: Course, start: Pose, ticks: seq<Tick>, k: nat)
    requires k + 1 < |ticks| && ticks[k].odometry.Usable() && ticks[k + 1].odometry.Usable()
  {
    var outcome := Step(x, RunLoop(x, start, ticks[..k]).state, ticks[k]);
    outcome.Drive? ==>
      var turned := Signed(outcome.twist.angular >= 0.0, c.cover(Abs(outcome.twist.angular)));
      SameHeading(x.m.pi, ticks[k + 1].odometry.pose.value.yaw, ticks[k].odometry.pose.value.yaw + turned)
  }

  /** Undisturbed samples of the ideal robot turned by this very loop. */
  ghost predicate ClosedTurn(x: Mission, c: Course, start: Pose, ticks: seq<Tick>) {
    && (forall k: nat | k < |ticks| :: Calm(x, ticks[k]))
    && (|ticks| > 0 ==> ticks[0].odometry.pose.value.yaw == start.yaw)
    && (forall k: nat | k + 1 < |ticks| :: TurnedBy(x, c, start, ticks, k))
  }

  lemma ErrorAfter(x: Mission, yaw: real, next: real, turned: real, n: int, error: real)
    requires x.m.pi > 0.0 && x.HeadingErrorAt(yaw) && x.HeadingErrorAt(next)
    requires TurnsApart(x.m.pi, next, yaw + turned, n)
    requires error == x.headingError(yaw) - turned && Principal(x.m.pi, error)
    ensures x.headingError(next) == error
  {
    var k := TurnsToPrincipal(x.m.pi, x.plan.heading - yaw);
    assert x.headingError(yaw) == x.plan.heading - yaw + 2.0 * x.m.pi * (k as real);
    assert error == x.plan.heading - next + 2.0 * x.m.pi * ((k + n) as real);
    NormalizeUnique(x.m.pi, x.plan.heading - next, error, k + n);
  }

  lemma SignedSpeed(c: Course, leftward: bool, left: real, speed: real)
    requires c.top > 0.0
    ensures ClampDelta(Clamp(Signed(leftward, c.want(left)), -c.top, c.top), Signed(leftward, speed), c.step)
            == Signed(leftward, NextSpeed(c, left, speed))
  {}

  ghost predicate OnTurn(st: LoopState, leftward: bool, speed: real) {
    st.phase == Turning && st.prevLinear == 0.0 && st.prevAngular == Signed(leftward, speed)
  }

  /** The outcome of a tick of the turn; a turn that has to drive afterwards goes on to its drive. */
  lemma TickOnTurn(x: Mission, c: Course, st: LoopState, t: Tick, leftward: bool, left: real, speed: real)
    requires Turns(x, c) && Calm(x, t) && OnTurn(st, leftward, speed) && left >= 0.0
    requires x.headingError(t.odometry.pose.value.yaw) == Signed(leftward, left)
    ensures var outcome, next := Step(x, st, t), NextSpeed(c, left, speed);
            if left > x.settings.angleTolerance then
              outcome.Drive? && outcome.twist == Twist(0.0, Signed(leftward, next))
              && OnTurn(outcome.next, leftward, next)
            else if x.plan.rotation then
              outcome.Exit? && outcome.result.succeeded && outcome.result.finalPose == t.odometry.pose
            else
              && outcome.SwitchPhase? && outcome.next.phase == Driving
              && Some(outcome.next.phaseStart) == t.odometry.pose
              && outcome.next.prevLinear == 0.0 && outcome.next.prevAngular == 0.0
  {
    assert PullsAlike(x, c, left);
    SignedSpeed(c, leftward, left, speed);
  }

  /** Turning in place, one way only. */
  ghost predicate InPlaceLog(leftward: bool, log: seq<Published>) {
    forall i | 0 <= i < |log| :: log[i].twist.linear == 0.0 && Signed(leftward, log[i].twist.angular) >= 0.0
  }

  /** The run and the sample of tick `k`. */
  ghost predicate AtTick(x: Mission, start: Pose, ticks: seq<Tick>, k: nat, leftward: bool, left: real, speed: real)
    requires k < |ticks| && ticks[k].odometry.Usable()
  {
    var run := RunLoop(x, start, ticks[..k]);
    && run.result.None? && InPlaceLog(leftward, run.log) && OnTurn(run.state, leftward, speed)
    && x.headingError(ticks[k].odometry.pose.value.yaw) == Signed(leftward, left)
  }

  lemma {:induction false} TurnsOn(x: Mission, c: Course, start: Pose, ticks: seq<Tick>, k: nat,
                                   leftward: bool, left: real, speed: real)
    requires Turns(x, c) && k < |ticks| && Calm(x, ticks[k]) && left > x.settings.angleTolerance
    requires AtTick(x, start, ticks, k, leftward, left, speed) && NextSpeed(c, left, speed) >= 0.0
    ensures var run, next := RunLoop(x, start, ticks[..k + 1]), NextSpeed(c, left, speed);
            && run.result.None? && InPlaceLog(leftward, run.log) && OnTurn(run.state, leftward, next)
            && Step(x, RunLoop(x, start, ticks[..k]).state, ticks[k]).Drive?
            && Step(x, RunLoop(x, start, ticks[..k]).state, ticks[k]).twist == Twist(0.0, Signed(leftward, next))
  {
    TickOnTurn(x, c, RunLoop(x, start, ticks[..k]).state, ticks[k], leftward, left, speed);
    RunOneMore(x, start, ticks, k);
  }

  /** The next reading of the heading error. */
  lemma {:induction false} ReadingFollows(x: Mission, c: Course, start: Pose, ticks: seq<Tick>, k: nat, leftward: bool,
                                          left: real, next: real)
    requires Turns(x, c) && k + 1 < |ticks| && Calm(x, ticks[k]) && Calm(x, ticks[k + 1])
             && TurnedBy(x, c, start, ticks, k)
    requires var outcome := Step(x, RunLoop(x, start, ticks[..k]).state, ticks[k]);
             outcome.Drive? && outcome.twist == Twist(0.0, Signed(leftward, next))
    requires x.headingError(ticks[k].odometry.pose.value.yaw) == Signed(leftward, left)
    requires next > 0.0 && Principal(x.m.pi, Signed(leftward, left - c.cover(next)))
    ensures x.headingError(ticks[k + 1].odometry.pose.value.yaw) == Signed(leftward, left - c.cover(next))
  {
    var yaw, after := ticks[k].odometry.pose.value.yaw, ticks[k + 1].odometry.pose.value.yaw;
    var turned := Signed(leftward, c.cover(next));
    var n: int :| TurnsApart(x.m.pi, after, yaw + turned, n);
    assert x.HeadingErrorAt(yaw) && x.HeadingErrorAt(after);
    ErrorAfter(x, yaw, after, turned, n, Signed(leftward, left - c.cover(next)));
  }

  /** The turn is by the wrapped error it starts with, to the side of that error. */
  ghost predicate TurnBy(x: Mission, start: Pose, leftward: bool, all: real) {
    all >= 0.0 && x.headingError(start.yaw) == Signed(leftward, all)
  }

  ghost predicate Underway(c: Course, all: real, k: nat) {
    forall j: nat | j < k :: Left(c, all, j) > c.tolerance
  }

  lemma {:induction false} SpeedIsPositive(c: Course, all: real, k: nat)
    requires Lawful(c) && all >= 0.0 && Left(c, all, k) > c.tolerance && c.want(c.tolerance) > 0.0
    ensures Speed(c, all, k + 1) > 0.0
  {
    TurnAdvances(c, all, k);
    assert Keeps(c, Left(c, all, k), Speed(c, all, k)) && Pulls(c, Left(c, all, k), c.tolerance);
  }

  lemma {:induction false} StaysPrincipal(x: Mission, c: Course, start: Pose, leftward: bool, all: real, k: nat)
    requires Turns(x, c) && TurnBy(x, start, leftward, all)
    ensures Principal(x.m.pi, Signed(leftward, Left(c, all, k)))
  {
    TurnAdvances(c, all, k);
    assert x.HeadingErrorAt(start.yaw);
  }

  /** Every tick of the closed turn is on the course until the tolerance is reached. */
  lemma {:induction false} RunFollowsTurn(x: Mission, c: Course, start: Pose, ticks: seq<Tick>, leftward: bool,
                                          all: real, k: nat)
    requires Turns(x, c) && TurnBy(x, start, leftward, all) && ClosedTurn(x, c, start, ticks)
             && c.want(c.tolerance) > 0.0
    requires k < |ticks| && Underway(c, all, k)
    ensures Calm(x, ticks[k]) && AtTick(x, start, ticks, k, leftward, Left(c, all, k), Speed(c, all, k))
  {
    assert Calm(x, ticks[k]);
    if k == 0 {
      assert ticks[..0] == [];
    } else {
      var j := k - 1;
      assert Calm(x, ticks[j]) && TurnedBy(x, c, start, ticks, j);
      RunFollowsTurn(x, c, start, ticks, leftward, all, j);
      SpeedIsPositive(c, all, j);
      TurnsOn(x, c, start, ticks, j, leftward, Left(c, all, j), Speed(c, all, j));
      StaysPrincipal(x, c, start, leftward, all, k);
      ReadingFollows(x, c, start, ticks, j, leftward, Left(c, all, j), Speed(c, all, k));
    }
  }

  lemma {:induction false} ArrivalTick(c: Course, all: real, n: nat) returns (a: nat)
    requires Left(c, all, n) <= c.tolerance
    ensures a <= n && Underway(c, all, a) && Left(c, all, a) <= c.tolerance
  {
    a := 0;
    while a < n && Left(c, all, a) > c.tolerance
      invariant a <= n && Underway(c, all, a)
    {
      a := a + 1;
    }
  }

  /** A rotation has succeeded, its heading within the tolerance and not beyond the target. */
  ghost predicate Turned(x: Mission, leftward: bool, run: LoopRun) {
    && run.result.Some? && run.result.value.succeeded && run.result.value.finalPose.Some?
    && 0.0 <= Signed(leftward, x.headingError(run.result.value.finalPose.value.yaw)) <= x.settings.angleTolerance
    && InPlaceLog(leftward, run.log)
  }

  lemma {:induction false} LastTick(x: Mission, c: Course, start: Pose, ticks: seq<Tick>, leftward: bool, a: nat,
                                    left: real, speed: real)
    requires Turns(x, c) && x.plan.rotation && a < |ticks| && Calm(x, ticks[a])
    requires AtTick(x, start, ticks, a, leftward, left, speed) && 0.0 <= left <= x.settings.angleTolerance
    ensures Turned(x, leftward, RunLoop(x, start, ticks[..a + 1]))
  {
    TickOnTurn(x, c, RunLoop(x, start, ticks[..a]).state, ticks[a], leftward, left, speed);
    RunOneMore(x, start, ticks, a);
  }

  lemma {:induction false} ArrivesAt(x: Mission, c: Course, start: Pose, ticks: seq<Tick>, leftward: bool, all: real,
                                     a: nat)
    requires Turns(x, c) && x.plan.rotation && TurnBy(x, start, leftward, all) && ClosedTurn(x, c, start, ticks)
    requires c.want(c.tolerance) > 0.0
    requires a < |ticks| && Underway(c, all, a) && Left(c, all, a) <= c.tolerance
    ensures Turned(x, leftward, RunLoop(x, start, ticks))
  {
    RunFollowsTurn(x, c, start, ticks, leftward, all, a);
    TurnAdvances(c, all, a);
    LastTick(x, c, start, ticks, leftward, a, Left(c, all, a), Speed(c, all, a));
    RunStaysFinished(x, start, ticks, a + 1);
  }

  /** A rotation in closed loop turns in place, one way only, and within the budget of ticks succeeds with
      the heading within the tolerance and never beyond the target. */
  lemma {:induction false} RotationConverges(x: Mission, c: Course, start: Pose, ticks: seq<Tick>, leftward: bool,
                                             all: real, b: Budget)
    requires Turns(x, c) && x.plan.rotation && TurnBy(x, start, leftward, all) && ClosedTurn(x, c, start, ticks)
    requires c.want(c.tolerance) > 0.0 && LongEnough(c, all, b) && |ticks| > b.Ticks()
    ensures Turned(x, leftward, RunLoop(x, start, ticks))
  {
    TurnEnds(c, all, b);
    var a := ArrivalTick(c, all, b.Ticks());
    ArrivesAt(x, c, start, ticks, leftward, all, a);
  }

  /** The turn of a move to the left or right: within the budget it goes over to its drive, from a pose whose
      heading is within the tolerance and not beyond the target. */
  lemma {:induction false} SideTurnEnds(x: Mission, c: Course, start: Pose, ticks: seq<Tick>, leftward: bool, all: real,
                                        b: Budget) returns (a: nat)
    requires Turns(x, c) && !x.plan.rotation && TurnBy(x, start, leftward, all) && ClosedTurn(x, c, start, ticks)
    requires c.want(c.tolerance) > 0.0 && LongEnough(c, all, b) && |ticks| > b.Ticks()
    ensures a <= b.Ticks()
    ensures var run := RunLoop(x, start, ticks[..a + 1]);
            && run.result.None? && run.state.phase == Driving && InPlaceLog(leftward, run.log)
            && 0.0 <= Signed(leftward, x.headingError(run.state.phaseStart.yaw)) <= x.settings.angleTolerance
  {
    TurnEnds(c, all, b);
    a := ArrivalTick(c, all, b.Ticks());
    RunFollowsTurn(x, c, start, ticks, leftward, all, a);
    TurnAdvances(c, all, a);
    TickOnTurn(x, c, RunLoop(x, start, ticks[..a]).state, ticks[a], leftward, Left(c, all, a), Speed(c, all, a));
    RunOneMore(x, start, ticks, a);
  }

  // ----- a whole rotation command

  function LawFor(limits: Constraints, settings: Settings, dt: real): Law {
    Law(settings.kpAngular, limits.maxAngular, limits.maxAngularAccel * settings.tick, dt, settings.angleTolerance)
  }

  lemma MissionTurns(x: Mission, l: Law)
    requires x.Wired() && x.plan.firstPhase == Turning && l.Tuned()
    requires l.kp == x.settings.kpAngular && l.top == x.limits.maxAngular && l.step == x.angularStep
    requires l.tolerance == x.settings.angleTolerance
    ensures Turns(x, CourseOf(l)) && CourseOf(l).want(l.tolerance) > 0.0
  {
    TunedIsLawful(l);
    ProductPositive(l.kp, l.tolerance);
    forall left: real ensures PullsAlike(x, CourseOf(l), left) {
      assert x.AngularGainAt(left) && x.AngularGainAt(-left);
      assert l.kp * (-left) == -(l.kp * left);
    }
  }

  lemma TurnIsShorterWay(x: Mission, direction: Direction, start: Pose, t: real)
    requires x.Wired() && direction.IsRotation() && 0.0 <= t <= 2.0 * x.m.pi
    requires x.plan.heading == Normalize(x.m.pi, if direction == RotateLeft then start.yaw + t else start.yaw - t)
    ensures TurnBy(x, start, x.headingError(start.yaw) >= 0.0, Min(t, 2.0 * x.m.pi - t))
    ensures 0.0 < t < x.m.pi ==> (x.headingError(start.yaw) >= 0.0 <==> direction == RotateLeft)
  {
    RotationMeaning(x.m.pi, start.yaw, t);
    assert x.HeadingErrorAt(start.yaw);
  }

  lemma UpToFullTurn(pi: real, degrees: real, turn: real)
    requires pi > 0.0 && 0.0 <= degrees <= 360.0 && turn == degrees * pi / 180.0
    ensures 0.0 <= turn <= 2.0 * pi
  {
    ProductMonotone(0.0, degrees, pi);
    ProductMonotone(degrees, 360.0, pi);
  }

  lemma ErrorIsToWanted(x: Mission, wanted: real, yaw: real)
    requires x.Wired() && x.plan.heading == Normalize(x.m.pi, wanted)
    ensures x.headingError(yaw) == AngularDifference(x.m.pi, wanted, yaw)
  {
    assert x.HeadingErrorAt(yaw);
    NormalizeDifference(x.m.pi, wanted, yaw);
  }

  /** The rotation of a mission whose heading is `wanted`, by `t` to its side. */
  lemma {:induction false} RotationEnds(x: Mission, l: Law, direction: Direction, start: Pose, ticks: seq<Tick>,
                                        t: real, wanted: real, b: Budget)
    requires x.Wired() && direction.IsRotation() && 0.0 <= t <= 2.0 * x.m.pi
    requires x.plan.rotation && wanted == (if direction == RotateLeft then start.yaw + t else start.yaw - t)
    requires x.plan.heading == Normalize(x.m.pi, wanted) && Turns(x, CourseOf(l)) && CourseOf(l).want(l.tolerance) > 0.0
    requires var c := CourseOf(l);
             ClosedTurn(x, c, start, ticks) && LongEnough(c, Min(t, 2.0 * x.m.pi - t), b) && |ticks| > b.Ticks()
    ensures var run := RunLoop(x, start, ticks);
            && run.result.Some? && run.result.value.succeeded && run.result.value.finalPose.Some?
            && Abs(AngularDifference(x.m.pi, wanted, run.result.value.finalPose.value.yaw)) <= x.settings.angleTolerance
            && (0.0 < t < x.m.pi ==> InPlaceLog(direction == RotateLeft, run.log))
  {
    TurnIsShorterWay(x, direction, start, t);
    RotationConverges(x, CourseOf(l), start, ticks, x.headingError(start.yaw) >= 0.0, Min(t, 2.0 * x.m.pi - t), b);
    ErrorIsToWanted(x, wanted, RunLoop(x, start, ticks).result.value.finalPose.value.yaw);
  }

  /** A rotation's mission: what it heads for. */
  lemma RotationMission(m: Math, limits: Constraints, settings: Settings, direction: Direction, degrees: real,
                        start: Pose, deadline: real, turn: real, wanted: real)
    requires m.pi > 0.0 && direction.IsRotation() && turn == degrees * m.pi / 180.0
    requires wanted == (if direction == RotateLeft then start.yaw + turn else start.yaw - turn)
    ensures var x := MissionFor(m, limits, settings, MoveTarget(direction, None, Some(degrees)), start, deadline);
            && x.plan.rotation && x.plan.heading == Normalize(m.pi, wanted) && x.plan.firstPhase == Turning
            && x.m == m && x.settings == settings && x.limits == limits
            && x.angularStep == limits.maxAngularAccel * settings.tick
  {}

  /** The command's loop and the ideal robot, for longer than a turn by `turn` takes. */
  ghost predicate ClosedRotation(m: Math, limits: Constraints, settings: Settings, direction: Direction, degrees: real,
                                 start: Pose, deadline: real, ticks: seq<Tick>, dt: real, b: Budget, turn: real)
    requires m.pi > 0.0 && direction.IsRotation()
  {
    var x := MissionFor(m, limits, settings, MoveTarget(direction, None, Some(degrees)), start, deadline);
    var c := CourseOf(LawFor(limits, settings, dt));
    ClosedTurn(x, c, start, ticks) && LongEnough(c, Min(turn, 2.0 * m.pi - turn), b) && |ticks| > b.Ticks()
  }

  /** The whole command succeeds with its heading within the tolerance of `turn` to the side asked for; below
      half a turn it turns in place and only to that side. */
  ghost predicate RotatesBy(m: Math, limits: Constraints, settings: Settings, direction: Direction, degrees: real,
                            timeout: real, startTime: real, start: Pose, ticks: seq<Tick>, turn: real)
    requires m.pi > 0.0 && direction.IsRotation()
  {
    var target := MoveTarget(direction, None, Some(degrees));
    var trace := RunMove(m, limits, settings, target, timeout, startTime, Odometry(Some(start), true), ticks);
    var wanted := if direction == RotateLeft then start.yaw + turn else start.yaw - turn;
    && trace.result.Some? && trace.result.value.succeeded && trace.result.value.finalPose.Some?
    && Abs(AngularDifference(m.pi, wanted, trace.result.value.finalPose.value.yaw)) <= settings.angleTolerance
    && (0.0 < turn < m.pi ==> InPlaceLog(direction == RotateLeft, trace.log))
  }

  lemma {:induction false} RotationReaches(
    m: Math, limits: Constraints, settings: Settings, direction: Direction, degrees: real, timeout: real,
    startTime: real, start: Pose, ticks: seq<Tick>, dt: real, b: Budget, turn: real)
    requires m.pi > 0.0 && direction.IsRotation() && turn == degrees * m.pi / 180.0 && 0.0 <= turn <= 2.0 * m.pi
    requires LawFor(limits, settings, dt).Tuned()
    requires ClosedRotation(m, limits, settings, direction, degrees, start, startTime + timeout, ticks, dt, b, turn)
    ensures RotatesBy(m, limits, settings, direction, degrees, timeout, startTime, start, ticks, turn)
  {
    var target := MoveTarget(direction, None, Some(degrees));
    var x, l := MissionFor(m, limits, settings, target, start, startTime + timeout), LawFor(limits, settings, dt);
    var wanted := if direction == RotateLeft then start.yaw + turn else start.yaw - turn;
    RotationMission(m, limits, settings, direction, degrees, start, startTime + timeout, turn, wanted);
    MissionTurns(x, l);
    RotationEnds(x, l, direction, start, ticks, turn, wanted, b);
  }

  /** A whole rotation of up to a full turn on the ideal robot turns the shorter way round and succeeds within
      its budget of ticks, its final heading within the tolerance of the degrees asked for; below half a
      turn it only ever turns to the side asked for. */
  lemma {:induction false} RotationReachesHeading(
    m: Math, limits: Constraints, settings: Settings, direction: Direction, degrees: real, timeout: real,
    startTime: real, start: Pose, ticks: seq<Tick>, dt: real, b: Budget, turn: real)
    requires m.pi > 0.0 && direction.IsRotation() && 0.0 <= degrees <= 360.0 && turn == degrees * m.pi / 180.0
    requires LawFor(limits, settings, dt).Tuned()
    requires ClosedRotation(m, limits, settings, direction, degrees, start, startTime + timeout, ticks, dt, b, turn)
    ensures RotatesBy(m, limits, settings, direction, degrees, timeout, startTime, start, ticks, turn)
  {
    UpToFullTurn(m.pi, degrees, turn);
    RotationReaches(m, limits, settings, direction, degrees, timeout, startTime, start, ticks, dt, b, turn);
  }

  lemma {:induction false} TimesIs(d: real, n: nat)
    ensures Times(d, n) == (n as real) * d
  {
    if n > 0 {
      TimesIs(d, n - 1);
      var before := (n - 1) as real;
      assert n as real == before + 1.0;
      assert (before + 1.0) * d == before * d + d;
    }
  }

  /** The default settings: gain 1.5, 1 rad/s, 1 rad/s^2, 20 Hz, 2 degrees. */
  function DefaultLaw(pi: real): Law { Law(1.5, 1.0, 0.05, 0.05, 2.0 * pi / 180.0) }

  /** They are tuned for turning, though too steep for the acceleration limit, and 280 ticks, 14 seconds, are
      enough for any rotation. */
  lemma DefaultsTurn(pi: real, all: real)
    requires 3.0 < pi < 4.0 && 0.0 <= all <= pi
    ensures var l, b := DefaultLaw(pi), Budget(0.35, 11, 140, 2, 127);
            && l.Tuned() && l.kp * (l.dt * l.top) > l.step
            && LongEnough(CourseOf(l), all, b) && (b.Ticks() as real) * l.dt <= 14.0
  {
    var l := DefaultLaw(pi);
    var c := CourseOf(l);
    assert 1.0 / 30.0 < l.tolerance < 2.0 / 45.0;
    TimesIs(c.step, 11);
    TimesIs(c.cover(Pace(c, 0.35)), 140);
    TimesIs(c.step, 2);
    TimesIs(c.cover(Pace(c, l.tolerance)), 127);
  }
}
