/**
 Laser-scan classification and the per-sector nearest fold
 (src/ros_mcp/perception/laser_scan.py).

 `AnalyzeLaserScan` is the source's single loop. Its result is tied to `FirstBest`, a fold over
 beam indices, and `FirstBest` is proved to be the first minimum of the beams it ranges over.
 */
module LaserScan {
  import opened RealMath
  import opened Geometry

  datatype Range = NaN | PosInf | NegInf | Finite(value: real)

  datatype Sector = FrontSector | LeftSector | RightSector | RearSector

  datatype Scan = Scan(ranges: seq<Range>, angleMin: real, angleIncrement: real, rangeMin: real, rangeMax: real)

  datatype Reading = Reading(range: real, angle: real, sector: Sector)

  datatype BeamKind = Invalid | NoReturn | Valid

  datatype Analysis = Analysis(
    nearest: Option<Reading>, farthest: Option<Reading>,
    sectors: map<Sector, Option<Reading>>, invalidBeamCount: nat)

  const AllSectors: set<Sector> := {FrontSector, LeftSector, RightSector, RearSector}

  /** `_sector_for_angle`. */
  function SectorForAngle(m: Math, angle: real): Sector {
    var wrapped := m.atan2SinCos(angle);
    if -m.pi / 6.0 <= wrapped < m.pi / 6.0 then FrontSector
    else if m.pi / 6.0 <= wrapped < 5.0 * m.pi / 6.0 then LeftSector
    else if -5.0 * m.pi / 6.0 <= wrapped < -m.pi / 6.0 then RightSector
    else RearSector
  }

  /** Perception's atan2-based wrap and `normalize_angle` are the same function, so a sector depends
      on the beam's direction only, not on how many turns its angle is written with. */
  lemma SectorIgnoresWholeTurns(m: Math, a: real, b: real, k: int)
    requires m.Sound() && TurnsApart(m.pi, b, a, k)
    ensures m.atan2SinCos(a) == Normalize(m.pi, a)
    ensures SectorForAngle(m, a) == SectorForAngle(m, b)
  {
    assert m.PrincipalValue(a) && m.PrincipalValue(b);
    var i: int :| TurnsApart(m.pi, m.atan2SinCos(a), a, i);
    NormalizeUnique(m.pi, a, m.atan2SinCos(a), i);
    var j: int :| TurnsApart(m.pi, m.atan2SinCos(b), b, j);
    var kr, jr := k as real, j as real;
    assert (k + j) as real == kr + jr;
    assert 2.0 * m.pi * (kr + jr) == 2.0 * m.pi * kr + 2.0 * m.pi * jr;
    NormalizeUnique(m.pi, a, m.atan2SinCos(b), k + j);
  }

  function Opposite(s: Sector): Sector {
    match s
    case FrontSector => RearSector
    case RearSector => FrontSector
    case LeftSector => RightSector
    case RightSector => LeftSector
  }

  /** The four sectors are laid out symmetrically, without gap or overlap: turning the robot half round
      exchanges front with rear and left with right, at every angle. */
  lemma HalfTurnSwapsSectors(m: Math, a: real)
    requires m.Sound()
    ensures SectorForAngle(m, a + m.pi) == Opposite(SectorForAngle(m, a))
  {
    SectorIgnoresWholeTurns(m, a, a, 0);
    SectorIgnoresWholeTurns(m, a + m.pi, a + m.pi, 0);
    var w := Normalize(m.pi, a);
    var k := TurnsToPrincipal(m.pi, a);
    var v := if w <= 0.0 then w + m.pi else w - m.pi;
    var j := if w <= 0.0 then k else k - 1;
    assert TurnsApart(m.pi, v, a + m.pi, j) by {
      var kr, turn := k as real, 2.0 * m.pi;
      assert w == a + turn * kr;
      if w > 0.0 {
        assert j as real == kr - 1.0;
        assert turn * (kr - 1.0) == turn * kr - turn;
      }
    }
    NormalizeUnique(m.pi, a + m.pi, v, j);
  }

  /** The wrapped direction `a` (front is 0, left is positive) lies in this sector: a third of a half turn in
      front, two thirds of one to either side, the rest behind. */
  predicate Faces(pi: real, s: Sector, a: real) {
    match s
    case FrontSector => -pi / 6.0 <= a < pi / 6.0
    case LeftSector => pi / 6.0 <= a < 5.0 * pi / 6.0
    case RightSector => -5.0 * pi / 6.0 <= a < -pi / 6.0
    case RearSector => a < -5.0 * pi / 6.0 || a >= 5.0 * pi / 6.0
  }

  /** Where the sectors are: of the four, exactly the one the direction lies in. */
  lemma SectorsArePlaces(m: Math, a: real, s: Sector)
    requires m.Sound()
    ensures SectorForAngle(m, a) == s <==> Faces(m.pi, s, Normalize(m.pi, a))
  {
    SectorIgnoresWholeTurns(m, a, a, 0);
  }

  function Angle(scan: Scan, i: nat): real {
    scan.angleMin + (i as real) * scan.angleIncrement
  }

  /** The loop's three cases, in its order. */
  function Kind(scan: Scan, r: Range): BeamKind {
    match r
    case NaN => Invalid
    case NegInf => Invalid
    case PosInf => NoReturn
    case Finite(v) => if v < scan.rangeMin then Invalid else if v > scan.rangeMax then NoReturn else Valid
  }

  function BeamSector(m: Math, scan: Scan, i: nat): Sector
  {
    SectorForAngle(m, Angle(scan, i))
  }

  /** Beam `i` is valid and points into one of `sectors`. */
  predicate Selected(m: Math, scan: Scan, sectors: set<Sector>, i: nat)
  {
    i < |scan.ranges| && Kind(scan, scan.ranges[i]) == Valid && BeamSector(m, scan, i) in sectors
  }

  function RangeAt(scan: Scan, i: nat): real
    requires i < |scan.ranges| && Kind(scan, scan.ranges[i]) == Valid
  {
    scan.ranges[i].value
  }

  function ReadingAt(m: Math, scan: Scan, i: nat): Reading
    requires i < |scan.ranges| && Kind(scan, scan.ranges[i]) == Valid
  {
    Reading(RangeAt(scan, i), Angle(scan, i), BeamSector(m, scan, i))
  }

  predicate Better(nearest: bool, x: real, y: real) {
    if nearest then x < y else x > y
  }

  /** Index of the first nearest (or farthest) selected beam among the first `n`. */
  function FirstBest(m: Math, scan: Scan, sectors: set<Sector>, nearest: bool, n: nat): (best: Option<nat>)
    requires n <= |scan.ranges|
    ensures best.Some? ==> best.value < n && Selected(m, scan, sectors, best.value)
  {
    if n == 0 then None
    else
      var best := FirstBest(m, scan, sectors, nearest, n - 1);
      if Selected(m, scan, sectors, n - 1) &&
         (best.None? || Better(nearest, RangeAt(scan, n - 1), RangeAt(scan, best.value)))
      then Some(n - 1) else best
  }

  /** `i` is the first of the best selected beams of the whole scan. */
  ghost predicate IsFirstBest(m: Math, scan: Scan, sectors: set<Sector>, nearest: bool, n: nat, i: nat)
    requires n <= |scan.ranges|
  {
    && i < n && Selected(m, scan, sectors, i)
    && (forall j: nat | j < n && Selected(m, scan, sectors, j) :: !Better(nearest, RangeAt(scan, j), RangeAt(scan, i)))
    && (forall j: nat | j < i && Selected(m, scan, sectors, j) :: Better(nearest, RangeAt(scan, i), RangeAt(scan, j)))
  }

  /** The fold finds the first minimum (maximum), and nothing exactly when no beam qualifies. */
  lemma {:induction false} FirstBestIsFirstBest(m: Math, scan: Scan, sectors: set<Sector>, nearest: bool, n: nat)
    requires n <= |scan.ranges|
    ensures FirstBest(m, scan, sectors, nearest, n).None? <==>
            (forall j: nat | j < n :: !Selected(m, scan, sectors, j))
    ensures forall i: nat :: FirstBest(m, scan, sectors, nearest, n) == Some(i) <==>
                             IsFirstBest(m, scan, sectors, nearest, n, i)
  {
    if n > 0 {
      FirstBestIsFirstBest(m, scan, sectors, nearest, n - 1);
      var best := FirstBest(m, scan, sectors, nearest, n);
      if best.Some? {
        FirstBestHolds(m, scan, sectors, nearest, n);
      }
      forall i: nat | IsFirstBest(m, scan, sectors, nearest, n, i)
        ensures best == Some(i)
      {
        assert Selected(m, scan, sectors, i);
      }
    }
  }

  lemma FirstBestHolds(m: Math, scan: Scan, sectors: set<Sector>, nearest: bool, n: nat)
    requires 0 < n <= |scan.ranges|
    requires FirstBest(m, scan, sectors, nearest, n).Some?
    requires FirstBest(m, scan, sectors, nearest, n - 1).None? ==>
             (forall j: nat | j < n - 1 :: !Selected(m, scan, sectors, j))
    requires FirstBest(m, scan, sectors, nearest, n - 1).Some? ==>
             IsFirstBest(m, scan, sectors, nearest, n - 1, FirstBest(m, scan, sectors, nearest, n - 1).value)
    ensures IsFirstBest(m, scan, sectors, nearest, n, FirstBest(m, scan, sectors, nearest, n).value)
  {
  }

  function ReadingOf(m: Math, scan: Scan, best: Option<nat>): Option<Reading>
    requires best.Some? ==> best.value < |scan.ranges| && Kind(scan, scan.ranges[best.value]) == Valid
  {
    if best.None? then None else Some(ReadingAt(m, scan, best.value))
  }

  /** The nearest (farthest) reading of the first `n` beams, over the given sectors. */
  function BestReading(m: Math, scan: Scan, sectors: set<Sector>, nearest: bool, n: nat): Option<Reading>
    requires n <= |scan.ranges|
  {
    ReadingOf(m, scan, FirstBest(m, scan, sectors, nearest, n))
  }

  function CountKind(scan: Scan, kind: BeamKind, n: nat): nat
    requires n <= |scan.ranges|
  {
    if n == 0 then 0
    else CountKind(scan, kind, n - 1) + (if Kind(scan, scan.ranges[n - 1]) == kind then 1 else 0)
  }

  lemma {:induction false} CountsAddUp(scan: Scan, n: nat)
    requires n <= |scan.ranges|
    ensures CountKind(scan, Invalid, n) + CountKind(scan, NoReturn, n) + CountKind(scan, Valid, n) == n
  {
    if n > 0 {
      CountsAddUp(scan, n - 1);
    }
  }

  /** What one more beam does to a best reading. */
  lemma BestReadingStep(m: Math, scan: Scan, sectors: set<Sector>, nearest: bool, i: nat)
    requires i < |scan.ranges|
    ensures var before := BestReading(m, scan, sectors, nearest, i);
            BestReading(m, scan, sectors, nearest, i + 1) ==
            if Kind(scan, scan.ranges[i]) == Valid && BeamSector(m, scan, i) in sectors &&
               (before.None? || Better(nearest, RangeAt(scan, i), before.value.range))
            then Some(ReadingAt(m, scan, i)) else before
  {
  }

  ghost predicate SectorsFolded(m: Math, scan: Scan, n: nat, sectors: map<Sector, Option<Reading>>)
    requires n <= |scan.ranges|
  {
    && sectors.Keys == AllSectors
    && forall s <- AllSectors :: sectors[s] == BestReading(m, scan, {s}, true, n)
  }

  lemma SectorsStep(m: Math, scan: Scan, i: nat, sectors: map<Sector, Option<Reading>>)
    requires i < |scan.ranges| && SectorsFolded(m, scan, i, sectors)
    ensures Kind(scan, scan.ranges[i]) != Valid ==> SectorsFolded(m, scan, i + 1, sectors)
    ensures Kind(scan, scan.ranges[i]) == Valid ==>
              var s := BeamSector(m, scan, i);
              SectorsFolded(m, scan, i + 1,
                if sectors[s].None? || RangeAt(scan, i) < sectors[s].value.range
                then sectors[s := Some(ReadingAt(m, scan, i))] else sectors)
  {
    forall s <- AllSectors {
      BestReadingStep(m, scan, {s}, true, i);
    }
  }

  /** `analyze_laser_scan`. */
  method AnalyzeLaserScan(m: Math, scan: Scan) returns (a: Analysis)
    ensures a.nearest == BestReading(m, scan, AllSectors, true, |scan.ranges|)
    ensures a.farthest == BestReading(m, scan, AllSectors, false, |scan.ranges|)
    ensures SectorsFolded(m, scan, |scan.ranges|, a.sectors)
    ensures a.invalidBeamCount + CountKind(scan, NoReturn, |scan.ranges|) + CountKind(scan, Valid, |scan.ranges|)
            == |scan.ranges|
  {
    var nearest, farthest: Option<Reading> := None, None;
    var sectorNearest: map<Sector, Option<Reading>> :=
      map[FrontSector := None, LeftSector := None, RightSector := None, RearSector := None];
    var invalidCount := 0;
    for i := 0 to |scan.ranges|
      invariant SectorsFolded(m, scan, i, sectorNearest)
      invariant nearest == BestReading(m, scan, AllSectors, true, i)
      invariant farthest == BestReading(m, scan, AllSectors, false, i)
      invariant invalidCount == CountKind(scan, Invalid, i)
    {
      BestReadingStep(m, scan, AllSectors, true, i);
      BestReadingStep(m, scan, AllSectors, false, i);
      SectorsStep(m, scan, i, sectorNearest);
      var r := scan.ranges[i];
      var angle := Angle(scan, i);
      if r.NaN? || r.NegInf? || (r.Finite? && r.value < scan.rangeMin) {
        invalidCount := invalidCount + 1;
      } else if r.PosInf? || r.value > scan.rangeMax {
      } else {
        var reading := Reading(r.value, angle, SectorForAngle(m, angle));
        assert reading == ReadingAt(m, scan, i);
        if nearest.None? || r.value < nearest.value.range {
          nearest := Some(reading);
        }
        if farthest.None? || r.value > farthest.value.range {
          farthest := Some(reading);
        }
        var current := sectorNearest[reading.sector];
        if current.None? || r.value < current.value.range {
          sectorNearest := sectorNearest[reading.sector := Some(reading)];
        }
      }
    }
    CountsAddUp(scan, |scan.ranges|);
    a := Analysis(nearest, farthest, sectorNearest, invalidCount);
  }

  /** Range of the nearest valid beam of one sector: what the motion controller looks at. */
  function SectorRange(m: Math, scan: Scan, s: Sector): Option<real>
  {
    var best := BestReading(m, scan, {s}, true, |scan.ranges|);
    if best.None? then None else Some(best.value.range)
  }

  /** The sector's range is a sound summary: it is at or above a distance (or absent) exactly when
      every valid beam of the sector is. */
  lemma SectorRangeSummarises(m: Math, scan: Scan, s: Sector, d: real)
    ensures var r := SectorRange(m, scan, s);
            (r.Some? && r.value < d) <==>
            (exists i: nat :: Selected(m, scan, {s}, i) && RangeAt(scan, i) < d)
  {
    var n := |scan.ranges|;
    FirstBestIsFirstBest(m, scan, {s}, true, n);
    var best := FirstBest(m, scan, {s}, true, n);
    if best.Some? {
      assert IsFirstBest(m, scan, {s}, true, n, best.value);
      if RangeAt(scan, best.value) < d {
        assert Selected(m, scan, {s}, best.value) && RangeAt(scan, best.value) < d;
      }
    }
  }

  /** The overall nearest reading is the nearest of its own sector, and no sector has a nearer one. */
  lemma NearestIsLeastOfSectors(m: Math, scan: Scan)
    ensures var n := |scan.ranges|; var nearest := BestReading(m, scan, AllSectors, true, n);
            && (nearest.None? <==> forall s <- AllSectors :: BestReading(m, scan, {s}, true, n).None?)
            && (nearest.Some? ==>
                  && BestReading(m, scan, {nearest.value.sector}, true, n) == nearest
                  && forall s <- AllSectors :: var r := BestReading(m, scan, {s}, true, n);
                       r.Some? ==> nearest.value.range <= r.value.range)
  {
    var n := |scan.ranges|;
    FirstBestIsFirstBest(m, scan, AllSectors, true, n);
    var best := FirstBest(m, scan, AllSectors, true, n);
    forall s <- AllSectors
      ensures var r := FirstBest(m, scan, {s}, true, n);
              && (best.None? ==> r.None?)
              && (r.Some? ==> best.Some? && RangeAt(scan, best.value) <= RangeAt(scan, r.value))
    {
      FirstBestIsFirstBest(m, scan, {s}, true, n);
    }
    if best.Some? {
      var s := BeamSector(m, scan, best.value);
      FirstBestIsFirstBest(m, scan, {s}, true, n);
      assert IsFirstBest(m, scan, AllSectors, true, n, best.value);
      assert IsFirstBest(m, scan, {s}, true, n, best.value);
    }
  }

  // ----- readings on the raw scan

  /** Beams start at the least angle and are one increment apart. */
  function Bearing(scan: Scan, i: nat): real { scan.angleMin + (i as real) * scan.angleIncrement }

  lemma BearingIsAngle(scan: Scan, i: nat)
    ensures Angle(scan, i) == Bearing(scan, i)
  {}

  /** Beam `i` returned the range `r` from a direction in sector `s`. */
  predicate Returned(pi: real, scan: Scan, s: Sector, i: nat, r: real)
    requires pi > 0.0
  {
    && i < |scan.ranges| && scan.ranges[i] == Finite(r) && scan.rangeMin <= r <= scan.rangeMax
    && Faces(pi, s, Normalize(pi, Bearing(scan, i)))
  }

  lemma SelectedIsReturned(m: Math, scan: Scan, s: Sector, i: nat)
    requires m.Sound()
    ensures Selected(m, scan, {s}, i) <==> i < |scan.ranges| && scan.ranges[i].Finite?
                                           && Returned(m.pi, scan, s, i, scan.ranges[i].value)
  {
    BearingIsAngle(scan, i);
    SectorsArePlaces(m, Angle(scan, i), s);
    if i < |scan.ranges| { KindIsValid(scan, scan.ranges[i]); }
  }

  lemma KindIsValid(scan: Scan, r: Range)
    ensures Kind(scan, r) == Valid <==> r.Finite? && scan.rangeMin <= r.value <= scan.rangeMax
  {}

  /** Beam `i`, of range `r` and the angle `a`, is the one a reading of the sector is of: none that returned from
      there is nearer, and the ones before it are farther. */
  ghost predicate FirstNearest(pi: real, scan: Scan, s: Sector, i: nat, r: real, a: real)
    requires pi > 0.0
  {
    && Returned(pi, scan, s, i, r) && a == Bearing(scan, i)
    && (forall j: nat, q: real :: Returned(pi, scan, s, j, q) ==> r <= q)
    && (forall j: nat, q: real :: j < i && Returned(pi, scan, s, j, q) ==> r < q)
  }

  /** A sector's reading, without the fold: the first of its nearest beams, with its unwrapped angle; and no
      reading only when no beam returned from there. */
  lemma ReadingMeans(m: Math, scan: Scan, s: Sector)
    requires m.Sound()
    ensures var reading := BestReading(m, scan, {s}, true, |scan.ranges|);
            && (reading.None? ==> forall i: nat, r: real :: !Returned(m.pi, scan, s, i, r))
            && (reading.Some? ==>
                  && reading.value.sector == s
                  && exists i: nat :: FirstNearest(m.pi, scan, s, i, reading.value.range, reading.value.angle))
  {
    var n := |scan.ranges|;
    FirstBestIsFirstBest(m, scan, {s}, true, n);
    var best := FirstBest(m, scan, {s}, true, n);
    forall i: nat, r: real | Returned(m.pi, scan, s, i, r)
      ensures best.Some? && RangeAt(scan, best.value) <= r && (i < best.value ==> RangeAt(scan, best.value) < r)
    {
      SelectedIsReturned(m, scan, s, i);
      assert Selected(m, scan, {s}, i);
    }
    if best.Some? {
      SelectedIsReturned(m, scan, s, best.value);
      assert FirstNearest(m.pi, scan, s, best.value, RangeAt(scan, best.value), Angle(scan, best.value));
    }
  }

  /** Beam `i` has the range `r` and it is one. */
  predicate InRange(scan: Scan, i: nat, r: real) {
    i < |scan.ranges| && scan.ranges[i] == Finite(r) && scan.rangeMin <= r <= scan.rangeMax
  }

  /** The reading is of the first in-range beam than which none is nearer (farther). */
  ghost predicate FirstExtreme(scan: Scan, nearest: bool, i: nat, r: real, a: real) {
    && InRange(scan, i, r) && a == Bearing(scan, i)
    && (forall j: nat, q: real :: InRange(scan, j, q) ==> if nearest then r <= q else q <= r)
    && (forall j: nat, q: real :: j < i && InRange(scan, j, q) ==> if nearest then r < q else q < r)
  }

  /** The overall readings likewise; infinite, NaN and out-of-range beams take part in neither. */
  lemma OverallMeans(m: Math, scan: Scan, nearest: bool)
    ensures var reading := BestReading(m, scan, AllSectors, nearest, |scan.ranges|);
            && (reading.None? ==> forall i: nat, r: real :: !InRange(scan, i, r))
            && (reading.Some? ==>
                  exists i: nat :: FirstExtreme(scan, nearest, i, reading.value.range, reading.value.angle))
  {
    var n := |scan.ranges|;
    FirstBestIsFirstBest(m, scan, AllSectors, nearest, n);
    var best := FirstBest(m, scan, AllSectors, nearest, n);
    forall i: nat, r: real | InRange(scan, i, r)
      ensures best.Some? && (if nearest then RangeAt(scan, best.value) <= r else r <= RangeAt(scan, best.value))
      ensures i < best.value ==> if nearest then RangeAt(scan, best.value) < r else r < RangeAt(scan, best.value)
    {
      assert Selected(m, scan, AllSectors, i);
    }
    if best.Some? {
      assert FirstExtreme(scan, nearest, best.value, RangeAt(scan, best.value), Angle(scan, best.value));
    }
  }

  /** NaN, or below the least range. */
  predicate IsInvalid(scan: Scan, r: Range) {
    r == NaN || r == NegInf || (r.Finite? && r.value < scan.rangeMin)
  }

  function InvalidBeams(scan: Scan, n: nat): set<nat>
    requires n <= |scan.ranges|
  {
    set i: nat | i < n && IsInvalid(scan, scan.ranges[i])
  }

  /** The invalid count of `AnalyzeLaserScan`. */
  lemma {:induction false} InvalidCounted(scan: Scan, n: nat)
    requires n <= |scan.ranges|
    ensures n - CountKind(scan, NoReturn, n) - CountKind(scan, Valid, n) == |InvalidBeams(scan, n)|
  {
    if n == 0 {
      assert InvalidBeams(scan, 0) == {};
    } else {
      InvalidCounted(scan, n - 1);
      var before := InvalidBeams(scan, n - 1);
      assert InvalidBeams(scan, n) == if IsInvalid(scan, scan.ranges[n - 1]) then before + {n - 1} else before;
    }
  }
}
