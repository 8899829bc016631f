/**
 Planar geometry shared by the safety gate, the motion controller and perception
 (src/ros_mcp/geometry.py, src/ros_mcp/perception/detection_geometry.py).
 */
module Geometry {
  import opened RealMath

  datatype Pose = Pose(x: real, y: real, yaw: real)

  datatype Translation = Forward | Backward | Left | Right

  // ----- wrapping angles

  ghost predicate Principal(pi: real, r: real) {
    -pi < r <= pi
  }

  /** Number of whole turns to add to `a` to reach (-pi, pi]. */
  function TurnsToPrincipal(pi: real, a: real): int
    requires pi > 0.0
  {
    ((pi - a) / (2.0 * pi)).Floor
  }

  function Normalize(pi: real, a: real): (r: real)
    requires pi > 0.0
    ensures Principal(pi, r)
    ensures TurnsApart(pi, r, a, TurnsToPrincipal(pi, a))
  {
    var k := TurnsToPrincipal(pi, a);
    var r := a + 2.0 * pi * (k as real);
    assert Principal(pi, r) by { PrincipalByFloor(pi, a); }
    r
  }

  lemma PrincipalByFloor(pi: real, a: real)
    requires pi > 0.0
    ensures Principal(pi, a + 2.0 * pi * (TurnsToPrincipal(pi, a) as real))
  {
    FloorScaled(pi - a, 2.0 * pi, TurnsToPrincipal(pi, a));
  }

  /** The principal value is unique: two angles a whole number of turns from the same angle and
      both in (-pi, pi] are equal. */
  lemma NormalizeUnique(pi: real, a: real, r: real, k: int)
    requires pi > 0.0 && Principal(pi, r) && TurnsApart(pi, r, a, k)
    ensures r == Normalize(pi, a)
  {
    var n := TurnsToPrincipal(pi, a);
    var d := (k - n) as real;
    assert r - Normalize(pi, a) == 2.0 * pi * d;
    WholeTurnIsLong(pi, k - n);
  }

  lemma WholeTurnIsLong(pi: real, k: int)
    requires pi > 0.0
    ensures k >= 1 ==> 2.0 * pi * (k as real) >= 2.0 * pi
    ensures k <= -1 ==> 2.0 * pi * (k as real) <= -2.0 * pi
  {
    var turn, kr := 2.0 * pi, k as real;
    if k >= 1 {
      ProductMonotone(1.0, kr, turn);
    } else if k <= -1 {
      ProductMonotone(kr, -1.0, turn);
    }
  }

  lemma NormalizeIdempotent(pi: real, a: real)
    requires pi > 0.0
    ensures Normalize(pi, Normalize(pi, a)) == Normalize(pi, a)
  {
    NormalizeUnique(pi, Normalize(pi, a), Normalize(pi, a), 0);
  }

  /** Wrapping an operand first does not change the wrapped difference. */
  lemma NormalizeDifference(pi: real, a: real, b: real)
    requires pi > 0.0
    ensures Normalize(pi, Normalize(pi, a) - b) == Normalize(pi, a - b)
  {
    var k := TurnsToPrincipal(pi, a);
    var c := Normalize(pi, a) - b;
    var n := TurnsToPrincipal(pi, c);
    assert Normalize(pi, c) == (a - b) + 2.0 * pi * ((k + n) as real);
    NormalizeUnique(pi, a - b, Normalize(pi, c), k + n);
  }

  function AngularDifference(pi: real, target: real, current: real): (r: real)
    requires pi > 0.0
    ensures Principal(pi, r)
  {
    Normalize(pi, target - current)
  }

  /** `normalize_angle`: two subtract/add loops that always stop, at the principal value. */
  method NormalizeAngle(pi: real, angle: real) returns (r: real)
    requires pi > 0.0
    ensures r == Normalize(pi, angle)
  {
    r := angle;
    ghost var k := 0;
    while r > pi
      invariant TurnsApart(pi, r, angle, k)
      invariant k == 0 || Principal(pi, r) || r > pi
      decreases TurnsIn(pi, r)
    {
      FewerTurns(pi, r);
      r := r - 2.0 * pi;
      k := k - 1;
    }
    while r <= -pi
      invariant TurnsApart(pi, r, angle, k) && r <= pi
      decreases TurnsIn(pi, -r)
    {
      FewerTurns(pi, -r);
      r := r + 2.0 * pi;
      k := k + 1;
    }
    NormalizeUnique(pi, angle, r, k);
  }

  ghost function TurnsIn(pi: real, r: real): int
    requires pi > 0.0
  {
    (r / (2.0 * pi)).Floor
  }

  lemma FewerTurns(pi: real, r: real)
    requires pi > 0.0 && r >= pi
    ensures 0 <= TurnsIn(pi, r)
    ensures TurnsIn(pi, r - 2.0 * pi) == TurnsIn(pi, r) - 1
    ensures TurnsIn(pi, -(-r + 2.0 * pi)) == TurnsIn(pi, r) - 1
  {
    var turn := 2.0 * pi;
    assert r / turn >= 0.0;
    QuotientStep(r, turn);
    assert -(-r + 2.0 * pi) == r - 2.0 * pi;
  }

  /** `_angular_delta`, perception's own copy of the wrap, agrees with `angular_difference`. */
  method AngularDelta(pi: real, a: real, b: real) returns (diff: real)
    requires pi > 0.0
    ensures diff == AngularDifference(pi, a, b)
  {
    diff := a - b;
    ghost var k := 0;
    while diff > pi
      invariant TurnsApart(pi, diff, a - b, k)
      decreases TurnsIn(pi, diff)
    {
      FewerTurns(pi, diff);
      diff := diff - 2.0 * pi;
      k := k - 1;
    }
    while diff <= -pi
      invariant TurnsApart(pi, diff, a - b, k) && diff <= pi
      decreases TurnsIn(pi, -diff)
    {
      FewerTurns(pi, -diff);
      diff := diff + 2.0 * pi;
      k := k + 1;
    }
    NormalizeUnique(pi, a - b, diff, k);
  }

  function Radians(pi: real, degrees: real): real { degrees * pi / 180.0 }

  /** What a rotation command makes the controller turn through: the first heading error of a
      rotation by `t` (up to a full turn) is `t` itself up to half a turn, and `t` minus a full turn
      beyond it -- a request over 180 degrees is carried out as the shorter turn the other way and
      a full turn as none at all. To the right the mirror image, except that half a turn is +pi. */
  lemma RotationMeaning(pi: real, yaw: real, t: real)
    requires pi > 0.0 && 0.0 <= t <= 2.0 * pi
    ensures AngularDifference(pi, Normalize(pi, yaw + t), yaw) == (if t <= pi then t else t - 2.0 * pi)
    ensures AngularDifference(pi, Normalize(pi, yaw - t), yaw) == (if t < pi then -t else 2.0 * pi - t)
  {
    NormalizeDifference(pi, yaw + t, yaw);
    NormalizeDifference(pi, yaw - t, yaw);
    assert yaw + t - yaw == t && yaw - t - yaw == -t;
    NormalizeUnique(pi, t, if t <= pi then t else t - 2.0 * pi, if t <= pi then 0 else -1);
    NormalizeUnique(pi, -t, if t < pi then -t else 2.0 * pi - t, if t < pi then 0 else 1);
  }

  // ----- distances and translations

  function Distance(m: Math, a: Pose, b: Pose): real {
    m.hypot(b.x - a.x, b.y - a.y)
  }

  lemma DistanceTriangle(m: Math, a: Pose, b: Pose, c: Pose)
    requires m.Sound()
    ensures 0.0 <= Distance(m, a, b)
    ensures Distance(m, a, c) <= Distance(m, a, b) + Distance(m, b, c)
  {
    assert m.HypotIsNorm(b.x - a.x, b.y - a.y);
    Triangle(m, b.x - a.x, b.y - a.y, c.x - b.x, c.y - b.y);
    assert (b.x - a.x) + (c.x - b.x) == c.x - a.x && (b.y - a.y) + (c.y - b.y) == c.y - a.y;
  }

  /** Unit displacement (forward, lateral) in the robot's own frame. */
  function LocalDelta(direction: Translation): (real, real) {
    match direction
    case Forward => (1.0, 0.0)
    case Backward => (-1.0, 0.0)
    case Left => (0.0, 1.0)
    case Right => (0.0, -1.0)
  }

  /** `project_translation`: where the safety gate expects the robot to end up. */
  function ProjectTranslation(m: Math, direction: Translation, distance: real, from: Pose): (real, real) {
    var (forward, lateral) := LocalDelta(direction);
    var (dx, dy) := ToWorld(forward * distance, lateral * distance, m.cos(from.yaw), m.sin(from.yaw));
    (from.x + dx, from.y + dy)
  }

  /** The heading the controller drives along, and the sign of its speed. */
  function DriveHeading(pi: real, direction: Translation, yaw: real): real
    requires pi > 0.0
  {
    match direction
    case Forward => yaw
    case Backward => yaw
    case Left => Normalize(pi, yaw + pi / 2.0)
    case Right => Normalize(pi, yaw + (-pi / 2.0))
  }

  function DriveSign(direction: Translation): real {
    if direction == Backward then -1.0 else 1.0
  }

  /** The pose reached by driving the signed distance `s` straight along `heading`. */
  function StraightAhead(m: Math, from: Pose, heading: real, s: real): Pose {
    Pose(from.x + s * m.cos(heading), from.y + s * m.sin(heading), heading)
  }

  lemma OneMoreTurn(pi: real, a: real, k: int, b: real, c: real)
    requires TurnsApart(pi, b, a, k) && TurnsApart(pi, c, a, k + 1)
    ensures c == b + 2.0 * pi
  {
    assert (k + 1) as real == k as real + 1.0;
  }

  lemma TurnPreservesTrig(m: Math, b: real, c: real)
    requires m.Sound() && c == b + 2.0 * m.pi
    ensures m.sin(b) == m.sin(c) && m.cos(b) == m.cos(c)
  {
    assert m.FullTurn(b);
  }

  lemma {:induction false} WholeTurns(m: Math, a: real, b: real, k: int)
    requires m.Sound() && TurnsApart(m.pi, b, a, k)
    ensures m.sin(b) == m.sin(a) && m.cos(b) == m.cos(a)
    decreases if k < 0 then -k else k
  {
    if k > 0 {
      var c := a + 2.0 * m.pi * ((k - 1) as real);
      WholeTurns(m, a, c, k - 1);
      OneMoreTurn(m.pi, a, k - 1, c, b);
      TurnPreservesTrig(m, c, b);
    } else if k < 0 {
      var c := a + 2.0 * m.pi * ((k + 1) as real);
      WholeTurns(m, a, c, k + 1);
      OneMoreTurn(m.pi, a, k, b, c);
      TurnPreservesTrig(m, b, c);
    }
  }

  lemma HeadingTrig(m: Math, direction: Translation, yaw: real)
    requires m.Sound()
    ensures var h := DriveHeading(m.pi, direction, yaw); var (f, l) := LocalDelta(direction);
            && DriveSign(direction) * m.cos(h) == f * m.cos(yaw) - l * m.sin(yaw)
            && DriveSign(direction) * m.sin(h) == f * m.sin(yaw) + l * m.cos(yaw)
  {
    match direction {
      case Forward =>
      case Backward =>
      case Left =>
        var b := yaw + m.pi / 2.0;
        var h := Normalize(m.pi, b);
        WholeTurns(m, b, Normalize(m.pi, b), TurnsToPrincipal(m.pi, b));
        assert m.QuarterTurn(yaw);
        assert m.cos(h) == -m.sin(yaw) && m.sin(h) == m.cos(yaw);
      case Right =>
        var b := yaw + (-m.pi / 2.0);
        WholeTurns(m, b, Normalize(m.pi, b), TurnsToPrincipal(m.pi, b));
        assert m.QuarterTurn(b);
        assert b + m.pi / 2.0 == yaw;
        var h := Normalize(m.pi, b);
        assert m.cos(h) == m.sin(yaw) && m.sin(h) == -m.cos(yaw);
    }
  }

  lemma Regroup(sign: real, distance: real, u: real, f: real, c: real, l: real, n: real)
    requires sign * u == f * c + l * n
    ensures (sign * distance) * u == (f * distance) * c + (l * distance) * n
  {
    var fc, ln, su := f * c, l * n, sign * u;
    assert (sign * distance) * u == distance * su;
    assert distance * su == distance * fc + distance * ln;
    assert distance * fc == (f * distance) * c && distance * ln == (l * distance) * n;
  }

  /** World-frame displacement for a local one (the last two lines of `project_translation`). */
  function ToWorld(dx: real, dy: real, c: real, s: real): (real, real) {
    (dx * c - dy * s, dx * s + dy * c)
  }

  lemma NegatedFactor(a: real, b: real)
    ensures a * -b == -(a * b)
  {}

  lemma SubtractedProduct(sd: real, dx: real, dy: real, c: real, s: real, u: real)
    requires sd * u == dx * c + dy * -s
    ensures dx * c - dy * s == sd * u
  {
    NegatedFactor(dy, s);
  }

  lemma WorldDisplacement(sign: real, distance: real, f: real, l: real, c: real, s: real, u: real, v: real)
    requires sign * u == f * c - l * s && sign * v == f * s + l * c
    ensures (f * distance) * c - (l * distance) * s == (sign * distance) * u
    ensures (f * distance) * s + (l * distance) * c == (sign * distance) * v
  {
    NegatedFactor(l, s);
    Regroup(sign, distance, u, f, c, l, -s);
    Regroup(sign, distance, v, f, s, l, c);
    SubtractedProduct(sign * distance, f * distance, l * distance, c, s, u);
  }

  lemma DriveDisplacement(m: Math, sign: real, f: real, l: real, distance: real, from: Pose, heading: real)
    requires sign * m.cos(heading) == f * m.cos(from.yaw) - l * m.sin(from.yaw)
    requires sign * m.sin(heading) == f * m.sin(from.yaw) + l * m.cos(from.yaw)
    ensures var (dx, dy) := ToWorld(f * distance, l * distance, m.cos(from.yaw), m.sin(from.yaw));
            var end := StraightAhead(m, from, heading, sign * distance);
            end.x == from.x + dx && end.y == from.y + dy
  {
    WorldDisplacement(sign, distance, f, l,
                      m.cos(from.yaw), m.sin(from.yaw), m.cos(heading), m.sin(heading));
  }

  /** The prediction the geofence is checked against is exactly where the controller's drive along
      its chosen heading leads, for every translation direction. */
  lemma PredictionAgreesWithExecution(m: Math, direction: Translation, distance: real, from: Pose)
    requires m.Sound()
    ensures var (px, py) := ProjectTranslation(m, direction, distance, from);
            var heading := DriveHeading(m.pi, direction, from.yaw);
            var end := StraightAhead(m, from, heading, DriveSign(direction) * distance);
            end.x == px && end.y == py
  {
    var heading := DriveHeading(m.pi, direction, from.yaw);
    var (f, l) := LocalDelta(direction);
    HeadingTrig(m, direction, from.yaw);
    DriveDisplacement(m, DriveSign(direction), f, l, distance, from, heading);
  }

  /** ... and driving a signed distance along any heading covers exactly that distance. */
  lemma StraightAheadDistance(m: Math, from: Pose, heading: real, s: real)
    requires m.Sound()
    ensures Distance(m, from, StraightAhead(m, from, heading, s)) == Abs(s)
  {
    HypotAlongHeading(m, s, heading);
    var end := StraightAhead(m, from, heading, s);
    assert end.x - from.x == s * m.cos(heading) && end.y - from.y == s * m.sin(heading);
  }
}
