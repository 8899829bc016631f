/**
 The real-number functions the controller borrows from Python's `math` module.

 Floats are modelled by `real`. `sin`, `cos` and `hypot` cannot be defined over `real` in
 Dafny, so they travel in a `Math` record, and every theorem that needs one of their laws
 asks for `Sound()`: the textbook identities, nothing else.
 */
module RealMath {

  datatype Option<+T> = None | Some(value: T)

  /** `atan2SinCos(a)` stands for `math.atan2(math.sin(a), math.cos(a))`. */
  datatype Math = Math(
    pi: real, sin: real -> real, cos: real -> real,
    atan2SinCos: real -> real, hypot: (real, real) -> real) {

    ghost predicate OnUnitCircle(a: real) {
      sin(a) * sin(a) + cos(a) * cos(a) == 1.0
    }

    ghost predicate QuarterTurn(a: real) {
      sin(a + pi / 2.0) == cos(a) && cos(a + pi / 2.0) == -sin(a)
    }

    ghost predicate FullTurn(a: real) {
      sin(a + 2.0 * pi) == sin(a) && cos(a + 2.0 * pi) == cos(a)
    }

    ghost predicate PrincipalValue(a: real) {
      && -pi < atan2SinCos(a) <= pi
      && exists k: int :: TurnsApart(pi, atan2SinCos(a), a, k)
    }

    ghost predicate HypotIsNorm(x: real, y: real) {
      hypot(x, y) >= 0.0 && hypot(x, y) * hypot(x, y) == x * x + y * y
    }

    ghost predicate Sound() {
      && 3.0 < pi < 4.0
      && (forall a: real :: OnUnitCircle(a))
      && (forall a: real :: QuarterTurn(a))
      && (forall a: real :: FullTurn(a))
      && (forall a: real :: PrincipalValue(a))
      && (forall x: real, y: real :: HypotIsNorm(x, y))
    }
  }

  /** `r` and `a` differ by `k` whole turns. */
  predicate TurnsApart(pi: real, r: real, a: real, k: int) {
    r == a + 2.0 * pi * (k as real)
  }

  function Abs(x: real): real { if x < 0.0 then -x else x }

  function Min(x: real, y: real): real { if x <= y then x else y }

  function Max(x: real, y: real): real { if x >= y then x else y }

  // ----- facts about non-negative reals and their squares

  lemma ProductPositive(x: real, y: real)
    requires x > 0.0 && y > 0.0
    ensures x * y > 0.0
  {}

  lemma ProductMonotone(x: real, y: real, c: real)
    requires x <= y && c >= 0.0
    ensures x * c <= y * c && c * x <= c * y
  {}

  lemma ScaledWithin(x: real, q: real, k: real, t: real)
    requires t > 0.0 && k <= q < k + 1.0 && q * t == x
    ensures 0.0 <= x - t * k < t
  {
    var d, e := q - k, 1.0 - (q - k);
    ProductMonotone(0.0, d, t);
    ProductPositive(e, t);
    var dt, et := d * t, e * t;
    assert dt == x - t * k;
    assert et == t - dt;
  }

  /** A quotient's floor, scaled back. */
  lemma FloorScaled(x: real, t: real, k: int)
    requires t > 0.0 && k == (x / t).Floor
    ensures 0.0 <= x - t * (k as real) < t
  {
    var q := x / t;
    assert q * t == x;
    ScaledWithin(x, q, k as real, t);
  }

  lemma QuotientStep(x: real, t: real)
    requires t > 0.0
    ensures (x - t) / t == x / t - 1.0
  {
    var q := x / t;
    assert q * t == x;
    assert (q - 1.0) * t == x - t;
    QuotientUnique(x - t, t, q - 1.0);
  }

  lemma QuotientUnique(x: real, t: real, q: real)
    requires t > 0.0 && q * t == x
    ensures x / t == q
  {
    var p := x / t;
    assert (p - q) * t == p * t - q * t == 0.0;
    assert (q - p) * t == q * t - p * t == 0.0;
    if p > q { ProductPositive(p - q, t); }
    if p < q { ProductPositive(q - p, t); }
  }

  lemma SquareMonotone(x: real, y: real)
    requires 0.0 <= x && 0.0 <= y && x * x <= y * y
    ensures x <= y
  {
    assert (x - y) * (x + y) == x * x - y * y;
    if y < x {
      ProductPositive(x - y, x + y);
    }
  }

  lemma SquareInjective(x: real, y: real)
    requires 0.0 <= x && 0.0 <= y && x * x == y * y
    ensures x == y
  {
    SquareMonotone(x, y);
    SquareMonotone(y, x);
  }

  lemma CauchySchwarz(a: real, b: real, c: real, d: real)
    ensures (a * c + b * d) * (a * c + b * d) <= (a * a + b * b) * (c * c + d * d)
  {
    var cross := a * d - b * c;
    assert cross * cross >= 0.0;
    assert (a * a + b * b) * (c * c + d * d) - (a * c + b * d) * (a * c + b * d) == cross * cross;
  }

  /** The Euclidean norm is subadditive. */
  lemma Triangle(m: Math, a: real, b: real, c: real, d: real)
    requires m.Sound()
    ensures m.hypot(a + c, b + d) <= m.hypot(a, b) + m.hypot(c, d)
  {
    var h, p, q := m.hypot(a + c, b + d), m.hypot(a, b), m.hypot(c, d);
    assert m.HypotIsNorm(a + c, b + d) && m.HypotIsNorm(a, b) && m.HypotIsNorm(c, d);
    var dot := a * c + b * d;
    DotBound(a, b, c, d, p, q);
    assert h * h == (a + c) * (a + c) + (b + d) * (b + d) == p * p + q * q + 2.0 * dot;
    assert (p + q) * (p + q) == p * p + q * q + 2.0 * (p * q);
    SquareMonotone(h, p + q);
  }

  lemma DotBound(a: real, b: real, c: real, d: real, p: real, q: real)
    requires p >= 0.0 && q >= 0.0
    requires p * p == a * a + b * b && q * q == c * c + d * d
    ensures a * c + b * d <= p * q
  {
    var dot := a * c + b * d;
    CauchySchwarz(a, b, c, d);
    assert (p * q) * (p * q) == (p * p) * (q * q);
    if dot > 0.0 {
      assert p * q >= 0.0;
      SquareMonotone(dot, p * q);
    } else {
      assert p * q >= 0.0;
    }
  }

  lemma HypotZero(m: Math)
    requires m.Sound()
    ensures m.hypot(0.0, 0.0) == 0.0
  {
    assert m.HypotIsNorm(0.0, 0.0);
    SquareInjective(m.hypot(0.0, 0.0), 0.0);
  }

  /** A displacement of signed length `s` along heading `a` has length |s|. */
  lemma HypotAlongHeading(m: Math, s: real, a: real)
    requires m.Sound()
    ensures m.hypot(s * m.cos(a), s * m.sin(a)) == Abs(s)
  {
    var x, y := s * m.cos(a), s * m.sin(a);
    assert m.HypotIsNorm(x, y) && m.OnUnitCircle(a);
    assert x * x + y * y == (s * s) * (m.sin(a) * m.sin(a) + m.cos(a) * m.cos(a)) by {
      assert x * x == (s * s) * (m.cos(a) * m.cos(a));
      assert y * y == (s * s) * (m.sin(a) * m.sin(a));
    }
    assert Abs(s) * Abs(s) == s * s;
    SquareInjective(m.hypot(x, y), Abs(s));
  }
}
