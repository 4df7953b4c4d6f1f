/**
 * Plane vectors, the scalar helpers the game takes from glm, and the
 * transcendental functions the simulation calls.
 *
 * Floats are modelled as reals without rounding. Square root, sine,
 * cosine, atan2, pow and fmod have no definition in Dafny's reals, so they
 * are the fields of a `Libm` record that every operation needing them
 * receives as a parameter; the laws those functions obey are ghost
 * predicates that only the lemmas needing them require.
 */
module Vectors {

  datatype Vec2 = Vec2(x: real, y: real)

  const Zero := Vec2(0.0, 0.0)

  function Add(a: Vec2, b: Vec2): Vec2 { Vec2(a.x + b.x, a.y + b.y) }
  function Sub(a: Vec2, b: Vec2): Vec2 { Vec2(a.x - b.x, a.y - b.y) }
  function Neg(a: Vec2): Vec2 { Vec2(-a.x, -a.y) }
  function Scale(a: Vec2, k: real): Vec2 { Vec2(a.x * k, a.y * k) }
  function Mul(a: Vec2, b: Vec2): Vec2 { Vec2(a.x * b.x, a.y * b.y) }
  function Dot(a: Vec2, b: Vec2): real { a.x * b.x + a.y * b.y }
  /** The z component of the 3-D cross product of `a` and `b`. */
  function Cross(a: Vec2, b: Vec2): real { a.x * b.y - a.y * b.x }
  /** Squared Euclidean length. */
  function Norm2(a: Vec2): real { a.x * a.x + a.y * a.y }

  function Abs(x: real): real { if x < 0.0 then -x else x }
  /** glm::sign: -1, 0 or 1. */
  function Sign(x: real): real { if x > 0.0 then 1.0 else if x < 0.0 then -1.0 else 0.0 }
  function Min(a: real, b: real): real { if a <= b then a else b }
  function Max(a: real, b: real): real { if a >= b then a else b }

  /** The C library functions the game calls, as an explicit parameter. */
  datatype Libm = Libm(
    sqrt: real -> real,
    sin: real -> real,
    cos: real -> real,
    atan2: (real, real) -> real,
    pow: (real, real) -> real,
    fmod: (real, real) -> real)

  /** `sqrt` is the non-negative square root on non-negative arguments. */
  ghost predicate SqrtLaw(m: Libm) {
    forall x: real {:trigger Root(m, x)} :: 0.0 <= x ==> 0.0 <= Root(m, x) && Root(m, x) * Root(m, x) == x
  }

  /**
   * `m.sqrt(x)` under a name of its own, so that the law is instantiated
   * only where a proof asks for it (through `SqrtOf`).
   */
  ghost function Root(m: Libm, x: real): real { m.sqrt(x) }

  /** `sin` and `cos` lie on the unit circle. */
  ghost predicate TrigLaw(m: Libm) {
    forall a: real :: m.sin(a) * m.sin(a) + m.cos(a) * m.cos(a) == 1.0
  }

  /**
   * C `fmod(a, b)` for `b > 0`: magnitude below `b`, and `a` itself when
   * `a` is already inside `(-b, b)`.
   */
  ghost predicate FmodLaw(m: Libm) {
    forall a: real, b: real {:trigger m.fmod(a, b)} :: 0.0 < b ==>
      -b < m.fmod(a, b) < b && (-b < a < b ==> m.fmod(a, b) == a)
  }

  /** glm::length. */
  function Length(m: Libm, a: Vec2): real { m.sqrt(Norm2(a)) }

  /**
   * glm::normalize. glm divides by the length and yields NaN components for
   * the zero vector; the model yields the zero vector there.
   */
  function Normalize(m: Libm, a: Vec2): (r: Vec2)
    ensures Length(m, a) == 0.0 ==> r == Zero
    ensures Length(m, a) != 0.0 ==> Scale(r, Length(m, a)) == a
  {
    var l := Length(m, a);
    if l == 0.0 then Zero else Vec2(a.x / l, a.y / l)
  }

  lemma SqrtOf(m: Libm, x: real)
    requires SqrtLaw(m) && 0.0 <= x
    ensures 0.0 <= m.sqrt(x) && m.sqrt(x) * m.sqrt(x) == x
  {
    assert Root(m, x) == m.sqrt(x);
  }

  /** The square root of zero is zero. */
  lemma SqrtZero(m: Libm)
    requires SqrtLaw(m)
    ensures m.sqrt(0.0) == 0.0
  {
    SqrtOf(m, 0.0);
    var s := m.sqrt(0.0);
    if s != 0.0 {
      MulStrict(s, 0.0);
    }
  }

  /** With `sqrt(0) == 0`, the zero vector normalises to itself. */
  lemma NormalizeZero(m: Libm)
    requires m.sqrt(0.0) == 0.0
    ensures Normalize(m, Zero) == Zero
  {
    assert Norm2(Zero) == 0.0;
  }

  /** Only the zero vector has zero squared length. */
  lemma PositiveNorm(v: Vec2)
    requires v != Zero
    ensures Norm2(v) > 0.0
  {
    var a := Square(v.x);
    var b := Square(v.y);
    assert Norm2(v) == a + b;
  }

  /** The square of `x`, named so that its sign facts reach the caller. */
  lemma Square(x: real) returns (s: real)
    ensures s == x * x && s >= 0.0
    ensures x != 0.0 ==> s > 0.0
  {
    s := x * x;
    if x > 0.0 {
      MulStrict(x, 0.0);
    } else if x < 0.0 {
      MulStrict(-x, 0.0);
    }
  }

  lemma ScaledNorm(v: Vec2, k: real)
    ensures Norm2(Scale(v, k)) == k * k * Norm2(v)
  {
  }

  /** Under the square-root law, a non-zero vector normalises to unit length. */
  lemma NormalizeIsUnit(m: Libm, a: Vec2)
    requires SqrtLaw(m) && Norm2(a) > 0.0
    ensures Norm2(Normalize(m, a)) == 1.0
  {
    var l := Length(m, a);
    SqrtOf(m, Norm2(a));
    assert l * l > 0.0;
    UnitQuotient(a.x, a.y, l);
  }

  lemma UnitQuotient(ax: real, ay: real, l: real)
    requires l != 0.0 && ax * ax + ay * ay == l * l
    ensures (ax / l) * (ax / l) + (ay / l) * (ay / l) == 1.0
  {
    UnitProduct(ax, ay, l, 1.0 / l);
    assert ax / l == ax * (1.0 / l);
    assert ay / l == ay * (1.0 / l);
  }

  lemma UnitProduct(ax: real, ay: real, l: real, inv: real)
    requires inv * l == 1.0 && ax * ax + ay * ay == l * l
    ensures (ax * inv) * (ax * inv) + (ay * inv) * (ay * inv) == 1.0
  {
    assert (ax * inv) * (ax * inv) + (ay * inv) * (ay * inv) == (ax * ax + ay * ay) * (inv * inv);
    assert (l * l) * (inv * inv) == (inv * l) * (inv * l);
  }

  /** Under the square-root law, comparing a length with a bound is comparing squares. */
  lemma LengthCompare(m: Libm, a: Vec2, bound: real)
    requires SqrtLaw(m) && 0.0 <= bound
    ensures Length(m, a) > bound <==> Norm2(a) > bound * bound
    ensures Length(m, a) < bound <==> Norm2(a) < bound * bound
  {
    var l := Length(m, a);
    SqrtOf(m, Norm2(a));
    if l > bound {
      assert l * l > bound * bound by { MulStrict(l, bound); }
    }
    if l < bound {
      assert bound * bound > l * l by { MulStrict(bound, l); }
    }
    if l == bound {
      assert l * l == bound * bound;
    }
  }

  lemma MulStrict(a: real, b: real)
    requires a > b >= 0.0
    ensures a * a > b * b
  {
    var d := a - b;
    assert d > 0.0 && a + b > 0.0;
    assert d * (a + b) > 0.0;
    assert a * a - b * b == d * (a + b);
  }

  /**
   * Scale `v` down to magnitude `limit` when its length exceeds `limit`,
   * as both the physics step and the player controls do.
   */
  function ClampSpeed(m: Libm, v: Vec2, limit: real): (r: Vec2)
    ensures Length(m, v) <= limit || Length(m, v) == 0.0 ==> r == v
    ensures 0.0 <= limit ==> exists k: real :: 0.0 <= k <= 1.0 && r == Scale(v, k)
    ensures Length(m, v) > limit && Length(m, v) != 0.0 ==> r.x * Length(m, v) == v.x * limit && r.y * Length(m, v) == v.y * limit
  {
    var mag := Length(m, v);
    if mag > limit && mag != 0.0 then
      var k := limit / mag;
      assert k * mag == limit;
      assert 0.0 <= limit ==> 0.0 <= k <= 1.0;
      Scale(v, k)
    else
      assert v == Scale(v, 1.0);
      v
  }

  /**
   * Clamping never leaves a vector faster than the limit, and keeps the
   * direction: the result is a non-negative multiple of the input.
   */
  lemma ClampSpeedBound(m: Libm, v: Vec2, limit: real)
    requires SqrtLaw(m) && 0.0 <= limit
    ensures Norm2(ClampSpeed(m, v, limit)) <= limit * limit
    ensures exists k: real :: 0.0 <= k && ClampSpeed(m, v, limit) == Scale(v, k)
    ensures Norm2(v) <= limit * limit ==> ClampSpeed(m, v, limit) == v
  {
    var mag := Length(m, v);
    SqrtOf(m, Norm2(v));
    LengthCompare(m, v, limit);
    if mag > limit {
      var k := limit / mag;
      assert mag > 0.0;
      var r := Scale(v, k);
      assert Norm2(r) == Norm2(v) * (k * k) by {
        assert r.x * r.x == (v.x * v.x) * (k * k);
        assert r.y * r.y == (v.y * v.y) * (k * k);
      }
      assert k * mag == limit;
      assert Norm2(v) * (k * k) == (k * mag) * (k * mag);
      assert 0.0 <= k;
    } else {
      assert v == Scale(v, 1.0);
      assert Norm2(v) == mag * mag;
      if mag < 0.0 {
      } else {
        assert mag * mag <= limit * limit by {
          if mag < limit { MulStrict(limit, mag); }
        }
      }
    }
  }

  /** `Sign(x) * Abs(x)` gives `x` back. */
  lemma SignAbs(x: real)
    ensures Sign(x) * Abs(x) == x
    ensures Abs(Sign(x)) <= 1.0
  {
  }
}
