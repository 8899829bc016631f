/**
 The safety gate (src/ros_mcp/safety/policy_engine.py): the decision cascade of `check` over the
 rate limiter, the distance limits, the geofence and the approval policy; and what an ALLOW means
 for the path the controller then drives.
 */
module SafetyPolicy {
  import opened RealMath
  import opened Geometry
  import opened Core
  import opened RateLimit
  import opened CmdVel
  import opened MotionSafety
  import opened DriveConvergence

  datatype Fence = Fence(enabled: bool, minX: real, maxX: real, minY: real, maxY: real) {
    /** What the configuration loader guarantees. */
    predicate Proper() { minX < maxX && minY < maxY }
  }

  datatype ApprovalPolicy = Automatic | PolicyBased | AlwaysHuman

  datatype SafetyConfig = SafetyConfig(
    limits: Constraints, rateLimit: real, fence: Fence, approval: ApprovalPolicy, approvalAbove: real)

  /** `OtherRequest`: any operation but move, navigate and stop. */
  datatype Request =
    | MoveRequest(target: MoveTarget) | NavigateRequest(goal: NavigateTarget) | StopRequest | OtherRequest

  datatype Decision = Allow | Deny(error: ErrorCode) | RequireApproval

  /** `_predicted_move_endpoint`. */
  function PredictedEndpoint(m: Math, target: MoveTarget, pose: Pose): (real, real) {
    if target.direction.IsRotation() || target.distance.None? then (pose.x, pose.y)
    else ProjectTranslation(m, target.direction.along, target.distance.value, pose)
  }

  predicate Within(fence: Fence, p: (real, real)) {
    fence.minX <= p.0 <= fence.maxX && fence.minY <= p.1 <= fence.maxY
  }

  /** `_check_hitl`. */
  predicate NeedsHuman(safety: SafetyConfig, distance: Option<real>) {
    match safety.approval
    case Automatic => false
    case AlwaysHuman => true
    case PolicyBased => distance.Some? && distance.value > safety.approvalAbove
  }

  function AfterDistance(safety: SafetyConfig, distance: Option<real>, predicted: Option<(real, real)>): Decision {
    if safety.fence.enabled && predicted.Some? && !Within(safety.fence, predicted.value) then Deny(SafetyRejected)
    else if NeedsHuman(safety, distance) then RequireApproval
    else Allow
  }

  /** The cascade behind the rate limiter. */
  function Judge(m: Math, safety: SafetyConfig, request: Request, pose: Option<Pose>): Decision {
    match request
    case StopRequest => Allow
    case MoveRequest(target) =>
      var distance := if target.direction.IsRotation() then None else target.distance;
      if distance.Some? && distance.value > safety.limits.maxMoveDistance then Deny(SafetyRejected)
      else AfterDistance(safety, distance,
                         if pose.Some? then Some(PredictedEndpoint(m, target, pose.value)) else None)
    case NavigateRequest(goal) =>
      if pose.None? then Deny(RobotNotReady)
      else
        var distance := m.hypot(goal.x - pose.value.x, goal.y - pose.value.y);
        if distance > safety.limits.maxNavigationDistance then Deny(SafetyRejected)
        else AfterDistance(safety, Some(distance), Some((goal.x, goal.y)))
    case OtherRequest => AfterDistance(safety, None, None)
  }

  /** One whole check: the decision and the new rate-limit table. */
  function Check(m: Math, safety: SafetyConfig, history: map<Session, seq<real>>, call: Call,
                 request: Request, pose: Option<Pose>): (Decision, map<Session, seq<real>>) {
    if request == StopRequest then (Allow, history)
    else
      var (withinRate, next) := Decide(history, call, safety.rateLimit);
      (if withinRate then Judge(m, safety, request, pose) else Deny(PermissionDenied), next)
  }

  /** `DefaultSafetyPolicyEngine`. */
  class SafetyPolicyEngine {
    var history: map<Session, seq<real>>

    constructor ()
      ensures history == map[]
    {
      history := map[];
    }

    /** `_check_rate_limit`: prune in place, test, append. */
    method CheckRateLimit(session: Session, limit: real, now: real) returns (allowed: bool)
      modifies this
      ensures (allowed, history) == Decide(old(history), Call(session, now), limit)
    {
      var entries := if session in history then history[session] else [];
      var kept := [];
      for i := 0 to |entries|
        invariant kept == Since(entries[..i], now - 1.0)
        invariant history == old(history)
      {
        assert entries[..i + 1][..i] == entries[..i];
        if entries[i] >= now - 1.0 {
          kept := kept + [entries[i]];
        }
      }
      assert entries[..|entries|] == entries;
      history := history[session := kept];
      if |kept| as real >= limit {
        return false;
      }
      history := history[session := kept + [now]];
      assert history == old(history)[session := kept + [now]];
      return true;
    }

    /** `check`: the documented order, first failure wins. */
    method CheckRequest(m: Math, safety: SafetyConfig, session: Session, request: Request, pose: Option<Pose>,
                        now: real)
      returns (decision: Decision)
      modifies this
      ensures (decision, history) == Check(m, safety, old(history), Call(session, now), request, pose)
    {
      if request == StopRequest {
        return Allow;
      }
      var withinRate := CheckRateLimit(session, safety.rateLimit, now);
      if !withinRate {
        return Deny(PermissionDenied);
      }
      var distance: Option<real>, predicted: Option<(real, real)> := None, None;
      match request {
        case MoveRequest(target) =>
          if !target.direction.IsRotation() {
            distance := target.distance;
            if distance.Some? && distance.value > safety.limits.maxMoveDistance {
              return Deny(SafetyRejected);
            }
          }
          if pose.Some? {
            predicted := Some(PredictedEndpoint(m, target, pose.value));
          }
        case NavigateRequest(goal) =>
          if pose.None? {
            return Deny(RobotNotReady);
          }
          var d := m.hypot(goal.x - pose.value.x, goal.y - pose.value.y);
          distance, predicted := Some(d), Some((goal.x, goal.y));
          if d > safety.limits.maxNavigationDistance {
            return Deny(SafetyRejected);
          }
        case OtherRequest =>
      }
      if safety.fence.enabled && predicted.Some? && !Within(safety.fence, predicted.value) {
        return Deny(SafetyRejected);
      }
      if NeedsHuman(safety, distance) {
        return RequireApproval;
      }
      return Allow;
    }
  }

  // ----- the decision, spelled out

  predicate InRate(safety: SafetyConfig, history: map<Session, seq<real>>, call: Call) {
    |Since(HistoryOf(history, call.session), call.now - 1.0)| as real < safety.rateLimit
  }

  /** The distance a limit applies to: a translation's, or the straight line to the goal. */
  function Length(m: Math, request: Request, pose: Option<Pose>): Option<real> {
    match request
    case MoveRequest(target) => if target.direction.IsRotation() then None else target.distance
    case NavigateRequest(goal) =>
      if pose.Some? then Some(Distance(m, pose.value, Pose(goal.x, goal.y, 0.0))) else None
    case _ => None
  }

  function LengthLimit(safety: SafetyConfig, request: Request): real {
    if request.NavigateRequest? then safety.limits.maxNavigationDistance else safety.limits.maxMoveDistance
  }

  /** Where the request is taken to end; unknown without a pose. */
  function End(m: Math, request: Request, pose: Option<Pose>): Option<(real, real)> {
    match request
    case MoveRequest(target) => if pose.Some? then Some(PredictedEndpoint(m, target, pose.value)) else None
    case NavigateRequest(goal) => Some((goal.x, goal.y))
    case _ => None
  }

  /** Within the distance limit and, as far as the end is known, inside an enabled fence. */
  predicate InBounds(m: Math, safety: SafetyConfig, request: Request, pose: Option<Pose>) {
    var length, end := Length(m, request, pose), End(m, request, pose);
    && (length.Some? ==> length.value <= LengthLimit(safety, request))
    && (safety.fence.enabled && end.Some? ==> Within(safety.fence, end.value))
  }

  /** Every answer of the gate by its cause, in the documented order: a stop is always allowed and does not
      use up the session's rate; then the rate, the missing pose of a navigation, limits and fence, and
      the approval policy. */
  lemma GateExactly(m: Math, safety: SafetyConfig, history: map<Session, seq<real>>, call: Call,
                    request: Request, pose: Option<Pose>)
    ensures var (decision, next) := Check(m, safety, history, call, request, pose);
            if request == StopRequest then decision == Allow && next == history
            else if !InRate(safety, history, call) then decision == Deny(PermissionDenied)
            else if request.NavigateRequest? && pose.None? then decision == Deny(RobotNotReady)
            else if !InBounds(m, safety, request, pose) then decision == Deny(SafetyRejected)
            else decision == if NeedsHuman(safety, Length(m, request, pose)) then RequireApproval else Allow
  {}

  // ----- the decision in numbers

  /** The point `distance` from the pose in the direction of a translation. */
  predicate IsAway(m: Math, along: Translation, distance: real, pose: Pose, x: real, y: real) {
    match along
    case Forward => x == pose.x + distance * m.cos(pose.yaw) && y == pose.y + distance * m.sin(pose.yaw)
    case Backward => x == pose.x - distance * m.cos(pose.yaw) && y == pose.y - distance * m.sin(pose.yaw)
    case Left => x == pose.x - distance * m.sin(pose.yaw) && y == pose.y + distance * m.cos(pose.yaw)
    case Right => x == pose.x + distance * m.sin(pose.yaw) && y == pose.y - distance * m.cos(pose.yaw)
  }

  lemma PredictionIsAway(m: Math, along: Translation, distance: real, pose: Pose)
    ensures var (x, y) := ProjectTranslation(m, along, distance, pose); IsAway(m, along, distance, pose, x, y)
  {
    var c, s := m.cos(pose.yaw), m.sin(pose.yaw);
    match along {
      case Forward => UnitProducts(distance, c, s);
      case Backward => UnitProducts(distance, c, s);
      case Left => UnitProducts(distance, s, c);
      case Right => UnitProducts(distance, s, c);
    }
  }

  lemma UnitProducts(d: real, c: real, s: real)
    ensures 1.0 * d == d && -1.0 * d == -d && 0.0 * d == 0.0 && 0.0 * c == 0.0 && 0.0 * s == 0.0
    ensures -d * c == -(d * c) && -d * s == -(d * s)
  {}

  /** A translation of a session within its rate, `x` and `y` being where it leads: each of the four bounds of
      the fence, the limit and the policy decide, in this order. */
  lemma TranslationInNumbers(m: Math, safety: SafetyConfig, history: map<Session, seq<real>>, call: Call,
                             target: MoveTarget, pose: Option<Pose>, x: real, y: real)
    requires InRate(safety, history, call) && target.direction.Translate? && target.distance.Some?
    requires pose.Some? ==> IsAway(m, target.direction.along, target.distance.value, pose.value, x, y)
    ensures var f, distance := safety.fence, target.distance.value;
            Check(m, safety, history, call, MoveRequest(target), pose).0 ==
            if distance > safety.limits.maxMoveDistance then Deny(SafetyRejected)
            else if f.enabled && pose.Some? && (x < f.minX || x > f.maxX || y < f.minY || y > f.maxY)
            then Deny(SafetyRejected)
            else if safety.approval == AlwaysHuman
                || (safety.approval == PolicyBased && distance > safety.approvalAbove)
            then RequireApproval
            else Allow
  {
    if pose.Some? { PredictionIsAway(m, target.direction.along, target.distance.value, pose.value); }
  }

  /** A rotation, or a translation without a distance, ends where it starts and has no distance: only a policy
      of always asking sends it to a human. */
  lemma RotationInNumbers(m: Math, safety: SafetyConfig, history: map<Session, seq<real>>, call: Call,
                          target: MoveTarget, pose: Option<Pose>)
    requires InRate(safety, history, call) && (target.direction.IsRotation() || target.distance.None?)
    ensures var f := safety.fence;
            Check(m, safety, history, call, MoveRequest(target), pose).0 ==
            if f.enabled && pose.Some? && (pose.value.x < f.minX || pose.value.x > f.maxX
                                           || pose.value.y < f.minY || pose.value.y > f.maxY)
            then Deny(SafetyRejected)
            else if safety.approval == AlwaysHuman then RequireApproval
            else Allow
  {}

  /** A navigation needs a pose; its distance is the straight line, its end the goal. */
  lemma NavigationInNumbers(m: Math, safety: SafetyConfig, history: map<Session, seq<real>>, call: Call,
                            goal: NavigateTarget, pose: Option<Pose>)
    requires InRate(safety, history, call)
    ensures var f := safety.fence;
            Check(m, safety, history, call, NavigateRequest(goal), pose).0 ==
            if pose.None? then Deny(RobotNotReady)
            else
              var d := m.hypot(goal.x - pose.value.x, goal.y - pose.value.y);
              if d > safety.limits.maxNavigationDistance then Deny(SafetyRejected)
              else if f.enabled && (goal.x < f.minX || goal.x > f.maxX || goal.y < f.minY || goal.y > f.maxY)
              then Deny(SafetyRejected)
              else if safety.approval == AlwaysHuman || (safety.approval == PolicyBased && d > safety.approvalAbove)
              then RequireApproval
              else Allow
  {}

  /** Any other operation has neither distance nor end. */
  lemma OtherInNumbers(m: Math, safety: SafetyConfig, history: map<Session, seq<real>>, call: Call, pose: Option<Pose>)
    requires InRate(safety, history, call)
    ensures Check(m, safety, history, call, OtherRequest, pose).0
            == if safety.approval == AlwaysHuman then RequireApproval else Allow
  {}

  // ----- the fence and the path

  lemma ShareWithin(share: real, span: real, part: real)
    requires 0.0 <= share <= 1.0 && part == share * span && span >= 0.0
    ensures 0.0 <= part <= span
  {
    ProductMonotone(0.0, share, span);
    ProductMonotone(share, 1.0, span);
  }

  lemma ShareBack(share: real, span: real, back: real, part: real)
    requires 0.0 <= share <= 1.0 && part == share * span && back == -span && back >= 0.0
    ensures span <= part <= 0.0
  {
    var p := share * back;
    ShareWithin(share, back, p);
    NegatedFactor(share, span);
    assert p == -part;
  }

  /** A point of the straight path, `share` of the way. */
  lemma Between(a: real, b: real, lo: real, hi: real, share: real)
    requires lo <= a <= hi && lo <= b <= hi && 0.0 <= share <= 1.0
    ensures lo <= a + share * (b - a) <= hi
  {
    var span := b - a;
    var part := share * span;
    if span >= 0.0 {
      ShareWithin(share, span, part);
    } else {
      ShareBack(share, span, -span, part);
    }
    assert a + part == a + share * (b - a);
  }

  lemma ShareOf(p: real, d: real) returns (share: real)
    requires 0.0 <= p <= d
    ensures 0.0 <= share <= 1.0 && p == share * d
  {
    if d == 0.0 {
      share := 0.0;
    } else {
      share := p / d;
      assert share * d == p;
      if share > 1.0 { ProductPositive(share - 1.0, d); }
      if share < 0.0 { ProductPositive(-share, d); }
    }
  }

  lemma PointOfPath(x0: real, sp: real, sd: real, share: real, c: real)
    requires sp == share * sd
    ensures x0 + sp * c == x0 + share * ((x0 + sd * c) - x0)
  {
    var sdc := sd * c;
    assert sp * c == share * sdc;
  }

  /** If the start and the predicted end are inside the fence, so is every point of the straight path
      the controller drives: left and right included, after their turn. */
  lemma PathInsideFence(m: Math, fence: Fence, along: Translation, distance: real, start: Pose, p: real)
    requires m.Sound() && 0.0 <= p <= distance
    requires fence.minX <= start.x <= fence.maxX && fence.minY <= start.y <= fence.maxY
    requires var (x, y) := ProjectTranslation(m, along, distance, start);
             fence.minX <= x <= fence.maxX && fence.minY <= y <= fence.maxY
    ensures var here := StraightAhead(m, start, DriveHeading(m.pi, along, start.yaw), DriveSign(along) * p);
            fence.minX <= here.x <= fence.maxX && fence.minY <= here.y <= fence.maxY
  {
    var heading, sign := DriveHeading(m.pi, along, start.yaw), DriveSign(along);
    PredictionAgreesWithExecution(m, along, distance, start);
    var share := ShareOf(p, distance);
    PathPointInside(m, fence, start, heading, sign, distance, p, share);
  }

  lemma PathPointInside(m: Math, fence: Fence, start: Pose, heading: real, sign: real, distance: real, p: real,
                        share: real)
    requires (sign == 1.0 || sign == -1.0) && 0.0 <= share <= 1.0 && p == share * distance
    requires Within(fence, (start.x, start.y))
    requires var end := StraightAhead(m, start, heading, sign * distance); Within(fence, (end.x, end.y))
    ensures var here := StraightAhead(m, start, heading, sign * p); Within(fence, (here.x, here.y))
  {
    var sp, sd := sign * p, sign * distance;
    assert sp == share * sd;
    var end := StraightAhead(m, start, heading, sd);
    PointOfPath(start.x, sp, sd, share, m.cos(heading));
    PointOfPath(start.y, sp, sd, share, m.sin(heading));
    Between(start.x, end.x, fence.minX, fence.maxX, share);
    Between(start.y, end.y, fence.minY, fence.maxY, share);
  }

  // ----- the gate alone: a fence without a pose

  /** What the operator expects of the fence: an allowed translation is predicted to end inside it, wherever
      the robot really is, as far as the pose handed to the gate is true. This is about the gate's answer;
      whether the controller then drives is the next section's matter. */
  ghost predicate FenceKept(m: Math, safety: SafetyConfig, along: Translation, distance: real, known: Option<Pose>) {
    forall truePose: Pose ::
      (known.Some? ==> truePose == known.value)
      && Judge(m, safety, MoveRequest(MoveTarget(Translate(along), Some(distance), None)), known) == Allow ==>
        var (x, y) := ProjectTranslation(m, along, distance, truePose);
        safety.fence.minX <= x <= safety.fence.maxX && safety.fence.minY <= y <= safety.fence.maxY
  }

  /** The fence holds exactly when the gate is given a pose, or the distance is over its limit, or the
      approval policy wants a human for it: with no pose the source skips the fence
      (policy_engine.py:111-112, 150) and a robot near the edge is let out. */
  lemma FenceKeptExactly(m: Math, safety: SafetyConfig, along: Translation, distance: real, known: Option<Pose>)
    requires safety.fence.enabled
    ensures FenceKept(m, safety, along, distance, known) <==>
            || known.Some?
            || distance > safety.limits.maxMoveDistance
            || safety.approval == AlwaysHuman
            || (safety.approval == PolicyBased && distance > safety.approvalAbove)
  {
    var request := MoveRequest(MoveTarget(Translate(along), Some(distance), None));
    if known.None? && Judge(m, safety, request, known) == Allow {
      var atOrigin := ProjectTranslation(m, along, distance, Pose(0.0, 0.0, 0.0));
      var truePose := Pose(safety.fence.maxX + 1.0 - atOrigin.0, 0.0, 0.0);
      assert ProjectTranslation(m, along, distance, truePose).0 == safety.fence.maxX + 1.0;
      assert !Within(safety.fence, ProjectTranslation(m, along, distance, truePose));
    }
  }

  /** The default limits and rate, with a fence of one metre around the origin switched on. */
  const FENCED := SafetyConfig(
    Constraints(0.5, 1.0, 0.5, 1.0, 5.0, 10.0, 0.3), 2.0, Fence(true, -1.0, 1.0, -1.0, 1.0), Automatic, 5.0)

  /** The witness: no pose, "forward 5 m" from the middle of the fence, ALLOW, predicted to end outside;
      with the pose the same call is refused. */
  lemma FenceCanBeLeft(m: Math)
    requires m.Sound()
    ensures var request, start := MoveRequest(MoveTarget(Translate(Forward), Some(5.0), None)), Pose(0.0, 0.0, 0.0);
            && Judge(m, FENCED, request, None) == Allow
            && Judge(m, FENCED, request, Some(start)) == Deny(SafetyRejected)
            && var (x, y) := ProjectTranslation(m, Forward, 5.0, start);
               x < -1.0 || x > 1.0 || y < -1.0 || y > 1.0
  {
    var (x, y) := ProjectTranslation(m, Forward, 5.0, Pose(0.0, 0.0, 0.0));
    PredictionAgreesWithExecution(m, Forward, 5.0, Pose(0.0, 0.0, 0.0));
    HypotAlongHeading(m, 5.0, 0.0);
    assert m.HypotIsNorm(x, y);
    if -1.0 <= x <= 1.0 && -1.0 <= y <= 1.0 {
      SquareAtMostOne(x);
      SquareAtMostOne(y);
    }
  }

  lemma SquareAtMostOne(x: real)
    requires -1.0 <= x <= 1.0
    ensures x * x <= 1.0
  {
    var y := Abs(x);
    var square := y * y;
    ShareWithin(y, y, square);
    assert square == x * x;
  }

  // ----- from ALLOW to the ground

  /** A running loop that is on course is not yet within the tolerance. */
  lemma StillShort(x: Mission, start: Pose, ticks: seq<Tick>, w: World, k: nat, r: real, v: real)
    requires StraightDrive(x, start) && OnLine(x, start, w, r) && r <= x.plan.distance
    requires k < |ticks| && Quiet(x, ticks[k]) && AtTick(x, start, ticks, w, k, r, v)
    requires RunLoop(x, start, ticks[..k + 1]).result.None?
    ensures r > x.settings.positionTolerance
  {
    RunOneMore(x, start, ticks, k);
    TickOnCourse(x, start, w, RunLoop(x, start, ticks[..k]).state, ticks[k], r, v);
  }

  lemma RunningBefore(x: Mission, start: Pose, ticks: seq<Tick>, k: nat)
    requires 0 < k <= |ticks| && RunLoop(x, start, ticks[..k]).result.None?
    ensures RunLoop(x, start, ticks[..k - 1]).result.None?
  {
    assert ticks[..k][..k - 1] == ticks[..k - 1];
  }

  lemma RunningIsShort(x: Mission, start: Pose, ticks: seq<Tick>, w: World, k: nat)
    requires StraightDrive(x, start) && IsIdeal(x, start, w) && ClosedLoop(x, start, ticks, w)
    requires k < |ticks| && RunLoop(x, start, ticks[..k + 1]).result.None? && Underway(x, w, k)
    ensures ToGo(x, w, k) > x.settings.positionTolerance
  {
    RunFollowsCourse(x, start, ticks, w, k);
    CourseAdvances(x, start, w, k);
    var r := ToGo(x, w, k);
    assert OnLine(x, start, w, r) && Quiet(x, ticks[k]);
    StillShort(x, start, ticks, w, k, r, Speed(x, w, k));
  }

  /** While the closed loop is still running it is underway on its course. */
  lemma {:induction false} RunningIsUnderway(x: Mission, start: Pose, ticks: seq<Tick>, w: World, k: nat)
    requires StraightDrive(x, start) && IsIdeal(x, start, w) && ClosedLoop(x, start, ticks, w)
    requires k <= |ticks| && RunLoop(x, start, ticks[..k]).result.None?
    ensures Underway(x, w, k)
  {
    if k > 0 {
      RunningBefore(x, start, ticks, k);
      RunningIsUnderway(x, start, ticks, w, k - 1);
      RunningIsShort(x, start, ticks, w, k - 1);
    }
  }

  /** A running loop on course is on the straight line, between its start and its target. */
  lemma RunningOnPath(x: Mission, start: Pose, ticks: seq<Tick>, w: World, k: nat) returns (r: real)
    requires StraightDrive(x, start) && IsIdeal(x, start, w) && ClosedLoop(x, start, ticks, w)
    requires k < |ticks| && RunLoop(x, start, ticks[..k]).result.None?
    ensures 0.0 <= r <= x.plan.distance && ticks[k].odometry.pose == Some(w.line(r))
  {
    RunningIsUnderway(x, start, ticks, w, k);
    RunFollowsCourse(x, start, ticks, w, k);
    CourseAdvances(x, start, w, k);
    r := ToGo(x, w, k);
  }

  ghost predicate Inside(fence: Fence, pose: Pose) {
    fence.minX <= pose.x && pose.x <= fence.maxX && fence.minY <= pose.y && pose.y <= fence.maxY
  }

  /** A forward or backward move the gate allowed, fence enabled and true pose inside, carried out by
      the closed loop on the ideal robot and still running before tick `k`. */
  ghost predicate AllowedAndDriving(x: Mission, safety: SafetyConfig, along: Translation, start: Pose,
                                    ticks: seq<Tick>, dt: real, k: nat) {
    && safety.fence.enabled && Inside(safety.fence, start)
    && Judge(x.m, safety, MoveRequest(MoveTarget(Translate(along), Some(x.plan.distance), None)), Some(start)) == Allow
    && Tuned(x, dt) && ClosedLoop(x, start, ticks, IdealWorld(x, start, dt))
    && k < |ticks| && RunLoop(x, start, ticks[..k]).result.None?
  }

  lemma AllowedEndInside(x: Mission, safety: SafetyConfig, along: Translation, start: Pose, ticks: seq<Tick>, dt: real,
                         k: nat)
    requires AllowedAndDriving(x, safety, along, start, ticks, dt, k)
    ensures Within(safety.fence, ProjectTranslation(x.m, along, x.plan.distance, start))
  {}

  lemma DrivingOnPath(x: Mission, safety: SafetyConfig, along: Translation, start: Pose, ticks: seq<Tick>, dt: real,
                      k: nat)
    returns (r: real)
    requires StraightDrive(x, start) && x.Wired() && x.m.Sound()
    requires AllowedAndDriving(x, safety, along, start, ticks, dt, k)
    ensures 0.0 <= r <= x.plan.distance
    ensures ticks[k].odometry.pose
            == Some(StraightAhead(x.m, start, x.plan.heading, x.plan.sense.Signed(x.plan.distance - r)))
  {
    IdealWorldIsIdeal(x, start, dt);
    r := RunningOnPath(x, start, ticks, IdealWorld(x, start, dt), k);
  }

  lemma PathIsCourse(x: Mission, along: Translation, start: Pose, p: real)
    requires (along == Forward || along == Backward) && StraightDrive(x, start)
             && Drives(x, x.m, along, x.plan.distance)
             && x.m.pi > 0.0
    ensures StraightAhead(x.m, start, DriveHeading(x.m.pi, along, start.yaw), DriveSign(along) * p)
            == StraightAhead(x.m, start, x.plan.heading, x.plan.sense.Signed(p))
  {
    assert DriveSign(along) * p == x.plan.sense.Signed(p);
  }

  lemma DriveStaysInside(x: Mission, safety: SafetyConfig, along: Translation, start: Pose, ticks: seq<Tick>, dt: real,
                         k: nat)
    requires (along == Forward || along == Backward) && x.m.Sound() && x.Wired()
    requires StraightDrive(x, start) && Drives(x, x.m, along, x.plan.distance)
    requires AllowedAndDriving(x, safety, along, start, ticks, dt, k)
    ensures ticks[k].odometry.pose.Some? && Inside(safety.fence, ticks[k].odometry.pose.value)
  {
    var r := DrivingOnPath(x, safety, along, start, ticks, dt, k);
    AllowedEndInside(x, safety, along, start, ticks, dt, k);
    var p := x.plan.distance - r;
    PathInsideFence(x.m, safety.fence, along, x.plan.distance, start, p);
    PathIsCourse(x, along, start, p);
  }

  /** End to end: in every tick until the move returns the robot is inside the fence. */
  lemma AllowedDriveStaysInside(m: Math, safety: SafetyConfig, settings: Settings, along: Translation, distance: real,
                                start: Pose, deadline: real, ticks: seq<Tick>, dt: real, k: nat)
    requires (along == Forward || along == Backward) && m.Sound() && safety.limits.Positive() && settings.tick > 0.0
    requires distance >= 0.0 && settings.positionTolerance >= 0.0
    requires var x := MissionFor(m, safety.limits, settings, MoveTarget(Translate(along), Some(distance), None), start,
                                 deadline);
             AllowedAndDriving(x, safety, along, start, ticks, dt, k)
    ensures ticks[k].odometry.pose.Some? && Inside(safety.fence, ticks[k].odometry.pose.value)
  {
    ForwardMission(m, safety.limits, settings, along, distance, start, deadline);
    DriveStaysInside(MissionFor(m, safety.limits, settings, MoveTarget(Translate(along), Some(distance), None), start,
                                deadline),
                     safety, along, start, ticks, dt, k);
  }

  // ----- the whole command: the pose appears between the gate and the start

  /** More than `margin` away from every point of the fence. */
  ghost predicate Beyond(m: Math, fence: Fence, p: (real, real), margin: real) {
    forall q: Pose | Inside(fence, q) :: Distance(m, q, Pose(p.0, p.1, q.yaw)) > margin
  }

  lemma BeyondIsOutside(m: Math, fence: Fence, p: (real, real), margin: real, q: Pose, yaw: real)
    requires Beyond(m, fence, p, margin) && Distance(m, q, Pose(p.0, p.1, yaw)) <= margin
    ensures !Inside(fence, q)
  {
    assert Distance(m, q, Pose(p.0, p.1, yaw)) == Distance(m, q, Pose(p.0, p.1, q.yaw));
  }

  /** The controller reads the same odometry (src/ros_mcp/robot_state.py:106-109) and refuses with
      SENSOR_STALE where the gate saw no pose, unless a message arrives in between. Then nothing checks
      the fence any more: the move the gate allowed unseen runs to its prediction, which may be
      outside. */
  lemma UnseenStartLeavesFence(m: Math, safety: SafetyConfig, settings: Settings, along: Translation, distance: real,
                               timeout: real, startTime: real, start: Pose, ticks: seq<Tick>, dt: real, n: nat)
    requires (along == Forward || along == Backward) && m.Sound() && safety.limits.Positive() && settings.tick > 0.0
    requires distance >= 0.0 && safety.fence.enabled
    requires Judge(m, safety, MoveRequest(MoveTarget(Translate(along), Some(distance), None)), None) == Allow
    requires Beyond(m, safety.fence, ProjectTranslation(m, along, distance, start), settings.positionTolerance)
    requires var x := MissionFor(m, safety.limits, settings, MoveTarget(Translate(along), Some(distance), None), start,
                                 startTime + timeout);
             && Tuned(x, dt) && ClosedLoop(x, start, ticks, IdealWorld(x, start, dt))
             && LongEnough(x, IdealWorld(x, start, dt), n) && |ticks| > n
    ensures var target := MoveTarget(Translate(along), Some(distance), None);
            var refused := RunMove(m, safety.limits, settings, target, timeout, startTime, Odometry(None, true), ticks);
            var late := RunMove(m, safety.limits, settings, target, timeout, startTime, Odometry(Some(start), true),
                                ticks);
            && refused.log == [Stop(ZeroTwist)] && refused.result.Some?
            && refused.result.value.error == Some(SensorStale)
            && late.result.Some? && late.result.value.succeeded && late.result.value.finalPose.Some?
            && !Inside(safety.fence, late.result.value.finalPose.value)
  {
    MoveReachesPrediction(m, safety.limits, settings, along, distance, timeout, startTime, start, ticks, dt, n);
    var target := MoveTarget(Translate(along), Some(distance), None);
    var late := RunMove(m, safety.limits, settings, target, timeout, startTime, Odometry(Some(start), true), ticks);
    var p := ProjectTranslation(m, along, distance, start);
    BeyondIsOutside(m, safety.fence, p, settings.positionTolerance, late.result.value.finalPose.value, start.yaw);
  }
}
