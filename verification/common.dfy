/**
 * Game-wide constants and the affine `Transformation` matrix.
 *
 * A `Transformation` is a 3x3 matrix whose bottom row stays (0, 0, 1), so
 * it is stored as its 2x2 linear block and its translation column, in the
 * column-major layout glm uses: column 0 is (a, b), column 1 is (c, d) and
 * column 2 is (tx, ty). Scaling, rotating and translating multiply the
 * matrix on the right.
 */
module Common {
  import opened Vectors

  const PI: real := 3.14159265358979323846
  const CONTENT_WIDTH_PX: real := 1920.0
  const CONTENT_HEIGHT_PX: real := 1080.0
  const NUM_REGIONS: nat := 6
  const MAP_RADIUS: real := 10000.0
  const PLAYER_ATTACK_DELAY: real := 300.0
  const PLAYER_SWORD_ATTACK_DELAY: real := 500.0
  const PLAYER_DASH_DELAY: real := 800.0
  const BOSS_MAX_VELOCITY: real := 250.0
  const ANGLE_PRECISION: real := 0.01

  /** Half the screen diagonal, `hypot(1920, 1080) / 2`. */
  function ScreenRadius(m: Libm): real
  {
    m.sqrt(CONTENT_WIDTH_PX * CONTENT_WIDTH_PX + CONTENT_HEIGHT_PX * CONTENT_HEIGHT_PX) / 2.0
  }

  /** The square of the screen radius, for comparisons without a root. */
  const SCREEN_RADIUS_SQ: real := 1213200.0

  lemma ScreenRadiusSquared(m: Libm)
    requires SqrtLaw(m)
    ensures ScreenRadius(m) > 0.0
    ensures ScreenRadius(m) * ScreenRadius(m) == SCREEN_RADIUS_SQ
  {
    var h := m.sqrt(4852800.0);
    SqrtOf(m, 4852800.0);
    assert h != 0.0;
    assert ScreenRadius(m) == h / 2.0;
    assert (h / 2.0) * (h / 2.0) == (h * h) / 4.0;
  }

  datatype Mat3 = Mat3(a: real, b: real, c: real, d: real, tx: real, ty: real)

  const Identity := Mat3(1.0, 0.0, 0.0, 1.0, 0.0, 0.0)

  /** Matrix product `m * n` of two affine matrices. */
  function Mul(m: Mat3, n: Mat3): Mat3
  {
    Mat3(m.a * n.a + m.c * n.b, m.b * n.a + m.d * n.b,
         m.a * n.c + m.c * n.d, m.b * n.c + m.d * n.d,
         m.a * n.tx + m.c * n.ty + m.tx, m.b * n.tx + m.d * n.ty + m.ty)
  }

  /** `m * (p, 1)`, dropping the homogeneous coordinate. */
  function Apply(m: Mat3, p: Vec2): Vec2
  {
    Vec2(m.a * p.x + m.c * p.y + m.tx, m.b * p.x + m.d * p.y + m.ty)
  }

  /** The translation column, `mat[2]`. */
  function Origin(m: Mat3): Vec2 { Vec2(m.tx, m.ty) }

  /** Determinant of the 2x2 linear block, `determinant(mat2(mat))`. */
  function Det(m: Mat3): real { m.a * m.d - m.c * m.b }

  function TranslationMatrix(v: Vec2): Mat3 { Mat3(1.0, 0.0, 0.0, 1.0, v.x, v.y) }
  function RotationMatrix(lib: Libm, radians: real): Mat3
  {
    Mat3(lib.cos(radians), lib.sin(radians), -lib.sin(radians), lib.cos(radians), 0.0, 0.0)
  }
  function ScaleMatrix(s: Vec2): Mat3 { Mat3(s.x, 0.0, 0.0, s.y, 0.0, 0.0) }

  /** `Transformation::translate`. */
  function Translate(m: Mat3, offset: Vec2): (r: Mat3)
    ensures Origin(r) == Apply(m, offset)
    ensures Det(r) == Det(m)
  {
    Mul(m, TranslationMatrix(offset))
  }

  /** `Transformation::rotate`. */
  function Rotate(lib: Libm, m: Mat3, radians: real): (r: Mat3)
    ensures Origin(r) == Origin(m)
  {
    Mul(m, RotationMatrix(lib, radians))
  }

  /** `Transformation::scale`. */
  function ScaleBy(m: Mat3, s: Vec2): (r: Mat3)
    ensures Origin(r) == Origin(m)
    ensures Det(r) == Det(m) * (s.x * s.y)
  {
    DetMul(m, ScaleMatrix(s));
    Mul(m, ScaleMatrix(s))
  }

  /** Determinants multiply. */
  lemma DetMul(m: Mat3, n: Mat3)
    ensures Det(Mul(m, n)) == Det(m) * Det(n)
  {
    DetProduct(m.a, m.b, m.c, m.d, n.a, n.b, n.c, n.d);
  }

  lemma DetProduct(a: real, b: real, c: real, d: real, e: real, f: real, g: real, h: real)
    ensures (a * e + c * f) * (b * g + d * h) - (a * g + c * h) * (b * e + d * f)
         == (a * d - c * b) * (e * h - g * f)
  {
  }

  /** Under the unit-circle law a rotation has determinant one. */
  lemma RotationDet(lib: Libm, radians: real)
    requires TrigLaw(lib)
    ensures Det(RotationMatrix(lib, radians)) == 1.0
  {
    assert lib.sin(radians) * lib.sin(radians) + lib.cos(radians) * lib.cos(radians) == 1.0;
  }

  /** Applying a product applies its factors right to left. */
  lemma ApplyMul(m: Mat3, n: Mat3, p: Vec2)
    ensures Apply(Mul(m, n), p) == Apply(m, Apply(n, p))
  {
    ApplyRow(m.a, m.c, m.tx, n.a, n.b, n.c, n.d, n.tx, n.ty, p.x, p.y);
    ApplyRow(m.b, m.d, m.ty, n.a, n.b, n.c, n.d, n.tx, n.ty, p.x, p.y);
    var l := Apply(Mul(m, n), p);
    var r := Apply(m, Apply(n, p));
    assert l.x == r.x;
    assert l.y == r.y;
  }

  lemma ApplyRow(r: real, s: real, t: real, na: real, nb: real, nc: real, nd: real,
                 ntx: real, nty: real, x: real, y: real)
    ensures (r * na + s * nb) * x + (r * nc + s * nd) * y + (r * ntx + s * nty + t)
         == r * (na * x + nc * y + ntx) + s * (nb * x + nd * y + nty) + t
  {
  }

  /** `m` with `v` added to its translation column. */
  function Shift(m: Mat3, v: Vec2): (r: Mat3)
    ensures Origin(r) == Add(Origin(m), v)
    ensures Det(r) == Det(m)
  {
    m.(tx := m.tx + v.x, ty := m.ty + v.y)
  }

  /**
   * Moving the left factor moves the product by the same amount: a chain
   * of transformations hung from a parent follows the parent rigidly.
   */
  lemma MulShift(m: Mat3, n: Mat3, v: Vec2)
    ensures Mul(Shift(m, v), n) == Shift(Mul(m, n), v)
  {
  }

  /** Translating the identity yields a pure translation. */
  lemma TranslateIdentity(v: Vec2)
    ensures Translate(Identity, v) == TranslationMatrix(v)
    ensures forall p: Vec2 {:trigger Apply(TranslationMatrix(v), p)} :: Apply(TranslationMatrix(v), p) == Add(p, v)
  {
  }
}
