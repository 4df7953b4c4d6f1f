/**
 * The collision geometry of the physics system: the circles that stand in
 * for a sprite's rectangle, the intersection predicates built on them and
 * on meshes, and the reflection off the boss-fight wedge.
 */
module Geometry {
  import opened Vectors
  import opened Common
  import opened Components
  import opened Meshes

  datatype Circle = Circle(center: Vec2, radius: real)

  /** `get_bounding_box`: the scale with its signs dropped (a facing flip negates it). */
  function BoundingBox(t: Transform): (r: Vec2)
    ensures r.x >= 0.0 && r.y >= 0.0
    ensures r.x * r.x == t.scale.x * t.scale.x && r.y * r.y == t.scale.y * t.scale.y
  {
    Vec2(Abs(t.scale.x), Abs(t.scale.y))
  }

  const SQUARE_TOLERANCE: real := 0.0001

  predicate IsSquare(box: Vec2) { Abs(box.x - box.y) < SQUARE_TOLERANCE }

  function ShortEdge(t: Transform): real { Min(BoundingBox(t).x, BoundingBox(t).y) }
  function LongEdge(t: Transform): real { Max(BoundingBox(t).x, BoundingBox(t).y) }

  /**
   * The circle loop advances by a quarter of the short edge, so it only
   * ends when that edge is positive or the rectangle is a square.
   */
  predicate Partitionable(t: Transform)
  {
    IsSquare(BoundingBox(t)) || ShortEdge(t) > 0.0
  }

  /** Distance from the rectangle's centre to the centre of either end circle. */
  function HalfSpan(t: Transform): real { LongEdge(t) / 2.0 - ShortEdge(t) / 2.0 }
  function Step(t: Transform): real { ShortEdge(t) / 4.0 }

  /** Rotation taking the x axis onto the rectangle's long axis. */
  function AxisRotation(lib: Libm, t: Transform): Mat3
  {
    var b := BoundingBox(t);
    Rotate(lib, Identity, if b.x < b.y then PI / 2.0 + t.angle else t.angle)
  }

  /** The `k`-th value of `circle_pos`. */
  function Offset(h: real, q: real, k: nat): real { -h + (k as real) * q }

  /** A circle of the short edge's diameter, `offset` along the long axis. */
  function Along(lib: Libm, t: Transform, offset: real): Circle
  {
    Circle(Add(t.position, Apply(AxisRotation(lib, t), Vec2(offset, 0.0))), ShortEdge(t) / 2.0)
  }

  function RowSteps(h: real, q: real, k: nat): int
    requires q > 0.0
  {
    ((2.0 * h) / q).Floor + 1 - k
  }

  lemma StepBound(h: real, q: real, k: nat)
    requires q > 0.0 && Offset(h, q, k) < h
    ensures RowSteps(h, q, k) > 0
  {
    var x := (2.0 * h) / q;
    BelowQuotient(k as real, 2.0 * h, q);
    assert (k as real) < x;
    assert k <= x.Floor;
  }

  lemma BelowQuotient(a: real, b: real, q: real)
    requires q > 0.0 && a * q < b
    ensures a < b / q
  {
    var y := b / q;
    assert y * q == b;
    assert (a - y) * q < 0.0;
  }

  /** The circles the loop emits from its `k`-th iteration on. */
  function Row(lib: Libm, t: Transform, k: nat): (cs: seq<Circle>)
    requires ShortEdge(t) > 0.0
    ensures forall i :: 0 <= i < |cs| ==>
      cs[i] == Along(lib, t, Offset(HalfSpan(t), Step(t), k + i)) && Offset(HalfSpan(t), Step(t), k + i) < HalfSpan(t)
    ensures Offset(HalfSpan(t), Step(t), k + |cs|) >= HalfSpan(t)
    decreases RowSteps(HalfSpan(t), Step(t), k)
  {
    var h := HalfSpan(t);
    var q := Step(t);
    if Offset(h, q, k) < h then
      StepBound(h, q, k);
      var rest := Row(lib, t, k + 1);
      var cs := [Along(lib, t, Offset(h, q, k))] + rest;
      assert forall i :: 1 <= i < |cs| ==> cs[i] == rest[i - 1] && k + i == (k + 1) + (i - 1);
      cs
    else
      []
  }

  /**
   * `get_collision_circles`. A square box gives one circle of half its
   * width at the position. Otherwise there are at least two circles, with
   * the short edge as diameter, the first and last at either end of the
   * long axis (see `CirclesLayout` for the ones between).
   */
  function CollisionCircles(lib: Libm, t: Transform): (cs: seq<Circle>)
    requires Partitionable(t)
    ensures IsSquare(BoundingBox(t)) ==> cs == [Circle(t.position, BoundingBox(t).x / 2.0)]
    ensures !IsSquare(BoundingBox(t)) ==>
      && |cs| >= 2
      && cs[0] == Along(lib, t, -HalfSpan(t))
      && cs[|cs| - 1] == Along(lib, t, HalfSpan(t))
    ensures forall i :: 0 <= i < |cs| ==> 0.0 <= cs[i].radius
    ensures !IsSquare(BoundingBox(t)) ==> forall i :: 0 <= i < |cs| ==> cs[i].radius == ShortEdge(t) / 2.0
  {
    var b := BoundingBox(t);
    if IsSquare(b) then
      [Circle(t.position, b.x / 2.0)]
    else
      var row := Row(lib, t, 0);
      assert Offset(HalfSpan(t), Step(t), 0) == -HalfSpan(t);
      row + [Along(lib, t, HalfSpan(t))]
  }

  /**
   * The layout of a long box's circles: the offsets along the long axis
   * start at -HalfSpan and grow by a quarter of the short edge while below
   * +HalfSpan; one more circle sits at exactly +HalfSpan.
   */
  lemma CirclesLayout(lib: Libm, t: Transform)
    requires Partitionable(t) && !IsSquare(BoundingBox(t))
    ensures var cs := CollisionCircles(lib, t);
      && (forall i :: 0 <= i < |cs| - 1 ==>
            cs[i] == Along(lib, t, Offset(HalfSpan(t), Step(t), i)) && Offset(HalfSpan(t), Step(t), i) < HalfSpan(t))
      && Offset(HalfSpan(t), Step(t), |cs| - 1) >= HalfSpan(t)
  {
  }

  /** A default transform is square, so it is one circle of radius 5 at the origin. */
  lemma DefaultTransformOneCircle(lib: Libm)
    ensures Partitionable(DefaultTransform())
    ensures CollisionCircles(lib, DefaultTransform()) == [Circle(Zero, 5.0)]
  {
  }

  lemma RotatedOffset(c: real, s: real, o: real)
    requires s * s + c * c == 1.0
    ensures (c * o) * (c * o) + (s * o) * (s * o) == o * o
  {
    assert (c * o) * (c * o) + (s * o) * (s * o) == (s * s + c * c) * (o * o);
  }

  /** The offset of circle `i` along the long axis. */
  lemma CircleOffset(lib: Libm, t: Transform, i: nat) returns (o: real)
    requires Partitionable(t) && !IsSquare(BoundingBox(t))
    requires i < |CollisionCircles(lib, t)|
    ensures CollisionCircles(lib, t)[i] == Along(lib, t, o)
    ensures -HalfSpan(t) <= o <= HalfSpan(t)
  {
    var cs := CollisionCircles(lib, t);
    var h := HalfSpan(t);
    CirclesLayout(lib, t);
    if i == |cs| - 1 {
      o := h;
      assert -h < h by { assert Offset(h, Step(t), 0) < h; }
    } else {
      o := Offset(h, Step(t), i);
      assert Step(t) > 0.0;
      assert (i as real) * Step(t) >= 0.0;
    }
  }

  /** A rotated offset keeps its length. */
  lemma AlongDistance(lib: Libm, t: Transform, o: real)
    requires TrigLaw(lib)
    ensures Norm2(Sub(Along(lib, t, o).center, t.position)) == o * o
  {
    var b := BoundingBox(t);
    var a := if b.x < b.y then PI / 2.0 + t.angle else t.angle;
    var rot := AxisRotation(lib, t);
    assert rot == Mat3(lib.cos(a), lib.sin(a), -lib.sin(a), lib.cos(a), 0.0, 0.0);
    var d := Sub(Along(lib, t, o).center, t.position);
    assert d == Vec2(lib.cos(a) * o, lib.sin(a) * o);
    assert lib.sin(a) * lib.sin(a) + lib.cos(a) * lib.cos(a) == 1.0;
    RotatedOffset(lib.cos(a), lib.sin(a), o);
  }

  /**
   * Every circle's centre lies within HalfSpan of the position, on the
   * long axis: rotation preserves the offset's length.
   */
  lemma CirclesOnAxis(lib: Libm, t: Transform, i: nat)
    requires TrigLaw(lib) && Partitionable(t) && !IsSquare(BoundingBox(t))
    requires i < |CollisionCircles(lib, t)|
    ensures Norm2(Sub(CollisionCircles(lib, t)[i].center, t.position)) <= HalfSpan(t) * HalfSpan(t)
  {
    var o := CircleOffset(lib, t, i);
    AlongDistance(lib, t, o);
    SquareWithin(o, HalfSpan(t));
  }

  lemma SquareWithin(o: real, h: real)
    requires -h <= o <= h
    ensures o * o <= h * h
  {
    if o >= 0.0 { MulMono(o, h); } else { MulMono(-o, h); }
  }

  lemma MulMono(a: real, b: real)
    requires 0.0 <= a <= b
    ensures a * a <= b * b
  {
    assert a * a <= a * b <= b * b;
  }

  /** Two circles overlap when their centres are closer than the sum of the radii. */
  predicate Overlap(lib: Libm, c1: Circle, c2: Circle)
  {
    Length(lib, Sub(c1.center, c2.center)) < c1.radius + c2.radius
  }

  /** `collides`: some circle of one transform overlaps some circle of the other. */
  predicate Collides(lib: Libm, t1: Transform, t2: Transform)
    requires Partitionable(t1) && Partitionable(t2)
  {
    var cs1 := CollisionCircles(lib, t1);
    var cs2 := CollisionCircles(lib, t2);
    exists i, j :: 0 <= i < |cs1| && 0 <= j < |cs2| && Overlap(lib, cs1[i], cs2[j])
  }

  /** Overlap, and therefore `collides`, does not depend on the order of its arguments. */
  lemma CollidesSymmetric(lib: Libm, t1: Transform, t2: Transform)
    requires Partitionable(t1) && Partitionable(t2)
    ensures Collides(lib, t1, t2) <==> Collides(lib, t2, t1)
  {
    var cs1 := CollisionCircles(lib, t1);
    var cs2 := CollisionCircles(lib, t2);
    forall i, j | 0 <= i < |cs1| && 0 <= j < |cs2|
      ensures Overlap(lib, cs1[i], cs2[j]) <==> Overlap(lib, cs2[j], cs1[i])
    {
      assert Norm2(Sub(cs1[i].center, cs2[j].center)) == Norm2(Sub(cs2[j].center, cs1[i].center));
    }
  }

  /** Squared form of the overlap test, free of the square root. */
  lemma OverlapSquared(lib: Libm, c1: Circle, c2: Circle)
    requires SqrtLaw(lib) && 0.0 <= c1.radius + c2.radius
    ensures Overlap(lib, c1, c2) <==>
      Norm2(Sub(c1.center, c2.center)) < (c1.radius + c2.radius) * (c1.radius + c2.radius)
  {
    LengthCompare(lib, Sub(c1.center, c2.center), c1.radius + c2.radius);
  }

  /**
   * `collides_bounding_box`: axis-aligned squares centred on the positions,
   * with the scale's diagonal as side, touch or overlap.
   */
  predicate BoxesMeet(lib: Libm, t1: Transform, t2: Transform)
  {
    var d1 := Abs(Length(lib, t1.scale));
    var d2 := Abs(Length(lib, t2.scale));
    && t1.position.x - d1 / 2.0 <= t2.position.x + d2 / 2.0
    && t1.position.x + d1 / 2.0 >= t2.position.x - d2 / 2.0
    && t1.position.y - d1 / 2.0 <= t2.position.y + d2 / 2.0
    && t1.position.y + d1 / 2.0 >= t2.position.y - d2 / 2.0
  }

  lemma BoxesMeetSymmetric(lib: Libm, t1: Transform, t2: Transform)
    ensures BoxesMeet(lib, t1, t2) <==> BoxesMeet(lib, t2, t1)
  {
  }

  /** A circle reaches past the map's edge. */
  predicate OutsideMap(lib: Libm, c: Circle)
  {
    Length(lib, c.center) > MAP_RADIUS - c.radius
  }

  /** `collides_with_boundary`: some collision circle reaches past the map's edge. */
  predicate CollidesWithBoundary(lib: Libm, t: Transform)
    requires Partitionable(t)
  {
    var cs := CollisionCircles(lib, t);
    exists i :: 0 <= i < |cs| && OutsideMap(lib, cs[i])
  }

  /** Squared form of the boundary test for circles no larger than the map. */
  lemma OutsideMapSquared(lib: Libm, c: Circle)
    requires SqrtLaw(lib) && c.radius <= MAP_RADIUS
    ensures OutsideMap(lib, c) <==> Norm2(c.center) > (MAP_RADIUS - c.radius) * (MAP_RADIUS - c.radius)
  {
    LengthCompare(lib, c.center, MAP_RADIUS - c.radius);
  }

  /** `pow(x, 2)` is the square. */
  ghost predicate SquareLaw(m: Libm)
  {
    forall x: real :: m.pow(x, 2.0) == x * x
  }

  /** Coefficients of |p1 + s (p2 - p1) - centre|^2 - r^2 as a polynomial in s. */
  datatype Quadratic = Quadratic(a: real, b: real, c: real)

  function SegmentQuadratic(lib: Libm, p1: Vec2, p2: Vec2, circle: Circle): Quadratic
  {
    var q1 := Sub(p1, circle.center);
    var q2 := Sub(p2, circle.center);
    Quadratic(
      lib.pow(q2.x - q1.x, 2.0) + lib.pow(q2.y - q1.y, 2.0),
      2.0 * (q1.x * (q2.x - q1.x) + q1.y * (q2.y - q1.y)),
      q1.x * q1.x + q1.y * q1.y - circle.radius * circle.radius)
  }

  function Discriminant(q: Quadratic): real { q.b * q.b - 4.0 * q.a * q.c }

  predicate InOpenUnit(s: real) { 0.0 < s < 1.0 }

  /**
   * `line_interesect_with_circle`: the discriminant is positive and one of
   * the two roots lies strictly between the segment's ends. A zero leading
   * coefficient makes both roots infinite or undefined in floating point,
   * neither of which lies in (0, 1).
   */
  predicate LineHitsCircle(lib: Libm, p1: Vec2, p2: Vec2, circle: Circle)
  {
    var q := SegmentQuadratic(lib, p1, p2, circle);
    var d := Discriminant(q);
    d > 0.0 && q.a != 0.0
    && (InOpenUnit((-q.b + lib.sqrt(d)) / (2.0 * q.a)) || InOpenUnit((-q.b - lib.sqrt(d)) / (2.0 * q.a)))
  }

  /** A segment of zero length never hits. */
  lemma PointNeverHits(lib: Libm, p: Vec2, circle: Circle)
    requires SquareLaw(lib)
    ensures !LineHitsCircle(lib, p, p, circle)
  {
    assert lib.pow(0.0, 2.0) == 0.0;
  }

  lemma Quotients(x: real, y: real)
    requires y > 0.0
    ensures x > y ==> x / y > 1.0
    ensures x < 0.0 ==> x / y < 0.0
  {
    assert (x / y) * y == x;
  }

  lemma UpperRoot(a: real, b: real, c: real, s: real)
    requires a > 0.0 && a + b + c < 0.0
    requires s >= 0.0 && s * s == b * b - 4.0 * a * c
    ensures -b + s > 2.0 * a
  {
    if 2.0 * a + b > 0.0 {
      assert s * s - (2.0 * a + b) * (2.0 * a + b) == -4.0 * a * (a + b + c);
      if s <= 2.0 * a + b {
        MulMono(s, 2.0 * a + b);
      }
    }
  }

  lemma LowerRoot(a: real, b: real, c: real, s: real)
    requires a > 0.0 && c < 0.0
    requires s >= 0.0 && s * s == b * b - 4.0 * a * c
    ensures -b - s < 0.0
  {
    assert s * s > b * b;
    assert s != 0.0;
    if -b > 0.0 {
      assert s * s - b * b == -4.0 * a * c;
      if s <= -b {
        MulMono(s, -b);
      }
    }
  }

  lemma RootAboveOne(a: real, b: real, c: real, s: real)
    requires a > 0.0 && c < 0.0 && a + b + c < 0.0
    requires s >= 0.0 && s * s == b * b - 4.0 * a * c
    ensures (-b + s) / (2.0 * a) > 1.0
    ensures (-b - s) / (2.0 * a) < 0.0
  {
    UpperRoot(a, b, c, s);
    LowerRoot(a, b, c, s);
    Quotients(-b + s, 2.0 * a);
    Quotients(-b - s, 2.0 * a);
  }

  /**
   * A segment whose two ends are strictly inside the circle does not count
   * as a hit: both roots lie outside [0, 1].
   */
  lemma InsideSegmentMisses(lib: Libm, p1: Vec2, p2: Vec2, circle: Circle)
    requires SqrtLaw(lib) && SquareLaw(lib)
    requires Norm2(Sub(p1, circle.center)) < circle.radius * circle.radius
    requires Norm2(Sub(p2, circle.center)) < circle.radius * circle.radius
    ensures !LineHitsCircle(lib, p1, p2, circle)
  {
    var q := SegmentQuadratic(lib, p1, p2, circle);
    var d := Discriminant(q);
    if d > 0.0 && q.a != 0.0 {
      var q1 := Sub(p1, circle.center);
      var q2 := Sub(p2, circle.center);
      assert q.a == (q2.x - q1.x) * (q2.x - q1.x) + (q2.y - q1.y) * (q2.y - q1.y);
      assert q.a + q.b + q.c == q2.x * q2.x + q2.y * q2.y - circle.radius * circle.radius;
      SqrtOf(lib, d);
      RootAboveOne(q.a, q.b, q.c, lib.sqrt(d));
    }
  }

  lemma RootIsZero(a: real, b: real, c: real, s: real, t: real)
    requires a != 0.0 && s * s == b * b - 4.0 * a * c
    requires t == (-b + s) / (2.0 * a) || t == (-b - s) / (2.0 * a)
    ensures a * t * t + b * t + c == 0.0
  {
    var u := 2.0 * a * t;
    assert u == -b + s || u == -b - s;
    assert u * u + 2.0 * b * u + 4.0 * a * c == 0.0;
    assert 4.0 * a * (a * t * t + b * t + c) == u * u + 2.0 * b * u + 4.0 * a * c;
  }

  lemma PointOnSegment(p1x: real, p1y: real, dx: real, dy: real, t: real, r: real, a: real, b: real, c: real)
    requires a == dx * dx + dy * dy && b == 2.0 * (p1x * dx + p1y * dy) && c == p1x * p1x + p1y * p1y - r * r
    ensures (p1x + t * dx) * (p1x + t * dx) + (p1y + t * dy) * (p1y + t * dy) == a * t * t + b * t + c + r * r
  {
  }

  /** The root `LineHitsCircle` found in (0, 1). */
  lemma HitRoot(lib: Libm, p1: Vec2, p2: Vec2, circle: Circle) returns (t: real)
    requires SqrtLaw(lib)
    requires LineHitsCircle(lib, p1, p2, circle)
    ensures 0.0 < t < 1.0
    ensures var q := SegmentQuadratic(lib, p1, p2, circle); q.a * t * t + q.b * t + q.c == 0.0
  {
    var q := SegmentQuadratic(lib, p1, p2, circle);
    var d := Discriminant(q);
    var s := lib.sqrt(d);
    SqrtOf(lib, d);
    t := if InOpenUnit((-q.b + s) / (2.0 * q.a)) then (-q.b + s) / (2.0 * q.a) else (-q.b - s) / (2.0 * q.a);
    RootIsZero(q.a, q.b, q.c, s, t);
  }

  /** The quadratic measures the squared distance from the centre, less r^2. */
  lemma QuadraticMeaning(lib: Libm, p1: Vec2, p2: Vec2, circle: Circle, t: real)
    requires SquareLaw(lib)
    ensures var q := SegmentQuadratic(lib, p1, p2, circle);
      Norm2(Sub(Add(p1, Scale(Sub(p2, p1), t)), circle.center))
        == q.a * t * t + q.b * t + q.c + circle.radius * circle.radius
  {
    var q := SegmentQuadratic(lib, p1, p2, circle);
    var q1 := Sub(p1, circle.center);
    var q2 := Sub(p2, circle.center);
    var d := Sub(p2, p1);
    assert q2.x - q1.x == d.x && q2.y - q1.y == d.y;
    assert lib.pow(d.x, 2.0) == d.x * d.x && lib.pow(d.y, 2.0) == d.y * d.y;
    PointOnSegment(q1.x, q1.y, d.x, d.y, t, circle.radius, q.a, q.b, q.c);
    var w := Sub(Add(p1, Scale(d, t)), circle.center);
    Norm2Of(w, q1.x + t * d.x, q1.y + t * d.y);
  }

  lemma Norm2Of(w: Vec2, x: real, y: real)
    requires w.x == x && w.y == y
    ensures Norm2(w) == x * x + y * y
  {
  }

  /**
   * A hit is sound: some point strictly inside the segment lies exactly
   * on the circle.
   */
  lemma HitMeetsCircle(lib: Libm, p1: Vec2, p2: Vec2, circle: Circle)
    requires SqrtLaw(lib) && SquareLaw(lib)
    requires LineHitsCircle(lib, p1, p2, circle)
    ensures exists t :: (0.0 < t < 1.0
      && Norm2(Sub(Add(p1, Scale(Sub(p2, p1), t)), circle.center)) == circle.radius * circle.radius)
  {
    var t := HitRoot(lib, p1, p2, circle);
    QuadraticMeaning(lib, p1, p2, circle, t);
  }

  /** Twice the signed area of the triangle (a, b, c): positive when counter-clockwise. */
  function Orient(a: Vec2, b: Vec2, c: Vec2): real { Cross(Sub(b, a), Sub(c, a)) }

  /** `get_side_of_line`: `target` is strictly to the left of the line from `p1` to `p2`. */
  predicate SideOfLine(p1: Vec2, p2: Vec2, target: Vec2) { Orient(p1, p2, target) > 0.0 }

  lemma OrientSymmetries(a: Vec2, b: Vec2, c: Vec2)
    ensures Orient(a, b, c) == Orient(b, c, a) == Orient(c, a, b)
    ensures Orient(b, a, c) == -Orient(a, b, c)
  {
  }

  lemma OrientTranslated(a: Vec2, b: Vec2, c: Vec2, v: Vec2)
    ensures Orient(Add(a, v), Add(b, v), Add(c, v)) == Orient(a, b, c)
  {
  }

  /**
   * `line_line_intersection_t_u`: each segment's ends lie on different
   * sides of the other segment's line (counting "on the line" with the
   * right side).
   */
  predicate SegmentsCross(a: Vec2, b: Vec2, c: Vec2, d: Vec2)
  {
    SideOfLine(a, c, d) != SideOfLine(b, c, d) && SideOfLine(a, b, c) != SideOfLine(a, b, d)
  }

  /** The crossing test treats its two segments alike. */
  lemma SegmentsCrossSymmetric(a: Vec2, b: Vec2, c: Vec2, d: Vec2)
    ensures SegmentsCross(a, b, c, d) <==> SegmentsCross(c, d, a, b)
  {
    OrientSymmetries(a, c, d);
    OrientSymmetries(b, c, d);
    OrientSymmetries(a, b, c);
    OrientSymmetries(a, b, d);
  }

  /** `line_line_intersect`: some edge of one triangle crosses some edge of the other. */
  predicate TrianglesCross(a: Vec2, b: Vec2, c: Vec2, p1: Vec2, p2: Vec2, p3: Vec2)
  {
    || SegmentsCross(b, a, p1, p2) || SegmentsCross(b, a, p1, p3) || SegmentsCross(b, a, p2, p3)
    || SegmentsCross(c, a, p1, p2) || SegmentsCross(c, a, p2, p3) || SegmentsCross(c, a, p1, p3)
    || SegmentsCross(b, c, p1, p2) || SegmentsCross(b, c, p1, p3) || SegmentsCross(b, c, p2, p3)
  }

  lemma SegmentsCrossTranslated(a: Vec2, b: Vec2, c: Vec2, d: Vec2, v: Vec2)
    ensures SegmentsCross(Add(a, v), Add(b, v), Add(c, v), Add(d, v)) <==> SegmentsCross(a, b, c, d)
  {
    OrientTranslated(a, c, d, v);
    OrientTranslated(b, c, d, v);
    OrientTranslated(a, b, c, v);
    OrientTranslated(a, b, d, v);
  }

  /** Moving both triangles by the same vector changes nothing. */
  lemma TrianglesCrossTranslated(a: Vec2, b: Vec2, c: Vec2, p1: Vec2, p2: Vec2, p3: Vec2, v: Vec2)
    ensures TrianglesCross(Add(a, v), Add(b, v), Add(c, v), Add(p1, v), Add(p2, v), Add(p3, v))
        <==> TrianglesCross(a, b, c, p1, p2, p3)
  {
    SegmentsCrossTranslated(b, a, p1, p2, v);
    SegmentsCrossTranslated(b, a, p1, p3, v);
    SegmentsCrossTranslated(b, a, p2, p3, v);
    SegmentsCrossTranslated(c, a, p1, p2, v);
    SegmentsCrossTranslated(c, a, p2, p3, v);
    SegmentsCrossTranslated(c, a, p1, p3, v);
    SegmentsCrossTranslated(b, c, p1, p2, v);
    SegmentsCrossTranslated(b, c, p1, p3, v);
    SegmentsCrossTranslated(b, c, p2, p3, v);
  }

  /** A mesh whose index buffer holds whole triangles of existing vertices. */
  predicate WellFormed(m: Mesh)
  {
    |m.indices| % 3 == 0 && forall k :: 0 <= k < |m.indices| ==> m.indices[k] < |m.vertices|
  }

  /** Model-to-world matrix of a mesh: translate, then rotate, then scale. */
  function MeshMatrix(lib: Libm, t: Transform): Mat3
  {
    ScaleBy(Rotate(lib, Translate(Identity, t.position), t.angle), t.scale)
  }

  /** A mesh vertex in world coordinates (its z is dropped). */
  function WorldVertex(lib: Libm, m: Mesh, t: Transform, i: nat): Vec2
    requires i < |m.vertices|
  {
    Apply(MeshMatrix(lib, t), Vec2(m.vertices[i].x, m.vertices[i].y))
  }

  /** Corner `j` (0, 1 or 2) of triangle `k` in world coordinates. */
  function Corner(lib: Libm, m: Mesh, t: Transform, k: nat, j: nat): Vec2
    requires WellFormed(m) && k < |m.indices| / 3 && j < 3
  {
    WorldVertex(lib, m, t, m.indices[3 * k + j])
  }

  /** `collides_mesh_with_mesh`: some triangle of one crosses some triangle of the other. */
  predicate MeshesCollide(lib: Libm, m1: Mesh, t1: Transform, m2: Mesh, t2: Transform)
    requires WellFormed(m1) && WellFormed(m2)
  {
    exists k1, k2 :: 0 <= k1 < |m1.indices| / 3 && 0 <= k2 < |m2.indices| / 3 &&
      TrianglesCross(Corner(lib, m1, t1, k1, 0), Corner(lib, m1, t1, k1, 1), Corner(lib, m1, t1, k1, 2),
                     Corner(lib, m2, t2, k2, 0), Corner(lib, m2, t2, k2, 1), Corner(lib, m2, t2, k2, 2))
  }

  /**
   * One triangle against one circle: an edge cuts the circle, or the
   * centre is on the same side of all three edges.
   */
  predicate TriangleHitsCircle(lib: Libm, p1: Vec2, p2: Vec2, p3: Vec2, circle: Circle)
  {
    || LineHitsCircle(lib, p1, p2, circle)
    || LineHitsCircle(lib, p2, p3, circle)
    || LineHitsCircle(lib, p3, p1, circle)
    || Enclosed(p1, p2, p3, circle.center)
  }

  /** `c` is on the same side of all three edges. */
  predicate Enclosed(p1: Vec2, p2: Vec2, p3: Vec2, c: Vec2)
  {
    SideOfLine(p1, p2, c) == SideOfLine(p2, p3, c) && SideOfLine(p2, p3, c) == SideOfLine(p3, p1, c)
  }

  /** `collides_with_mesh`: some triangle of the mesh meets some circle of the other transform. */
  predicate MeshHitsCircles(lib: Libm, m: Mesh, t1: Transform, t2: Transform)
    requires WellFormed(m) && Partitionable(t2)
  {
    var cs := CollisionCircles(lib, t2);
    exists k, i :: 0 <= k < |m.indices| / 3 && 0 <= i < |cs| &&
      TriangleHitsCircle(lib, Corner(lib, m, t1, k, 0), Corner(lib, m, t1, k, 1), Corner(lib, m, t1, k, 2), cs[i])
  }

  lemma OrientOfInterior(x1: real, y1: real, x2: real, y2: real, x3: real, y3: real,
                         u: real, v: real, px: real, py: real)
    requires px == x1 + ((x2 - x1) * u + (x3 - x1) * v)
    requires py == y1 + ((y2 - y1) * u + (y3 - y1) * v)
    ensures (x2 - x1) * (py - y1) - (y2 - y1) * (px - x1) == v * ((x2 - x1) * (y3 - y1) - (y2 - y1) * (x3 - x1))
    ensures (x3 - x2) * (py - y2) - (y3 - y2) * (px - x2) == (1.0 - u - v) * ((x2 - x1) * (y3 - y1) - (y2 - y1) * (x3 - x1))
    ensures (x1 - x3) * (py - y3) - (y1 - y3) * (px - x3) == u * ((x2 - x1) * (y3 - y1) - (y2 - y1) * (x3 - x1))
  {
  }

  /** A point strictly inside a non-degenerate triangle is on the same side of all three edges. */
  lemma InteriorEnclosed(p1: Vec2, p2: Vec2, p3: Vec2, c: Vec2, u: real, v: real)
    requires Orient(p1, p2, p3) != 0.0
    requires 0.0 < u && 0.0 < v && u + v < 1.0
    requires c == Add(p1, Add(Scale(Sub(p2, p1), u), Scale(Sub(p3, p1), v)))
    ensures Enclosed(p1, p2, p3, c)
  {
    OrientOfInterior(p1.x, p1.y, p2.x, p2.y, p3.x, p3.y, u, v, c.x, c.y);
    var o := Orient(p1, p2, p3);
    SideFollows(Orient(p1, p2, c), v, o);
    SideFollows(Orient(p2, p3, c), 1.0 - u - v, o);
    SideFollows(Orient(p3, p1, c), u, o);
  }

  /** A positive multiple of `o` is positive exactly when `o` is. */
  lemma SideFollows(x: real, k: real, o: real)
    requires x == k * o && k > 0.0 && o != 0.0
    ensures x > 0.0 <==> o > 0.0
  {
    SameSign(k, o);
  }

  /**
   * A circle whose centre is strictly inside a non-degenerate triangle is
   * reported by the triangle-circle test, whichever way the triangle winds.
   */
  lemma CentreInsideHits(lib: Libm, p1: Vec2, p2: Vec2, p3: Vec2, circle: Circle, u: real, v: real)
    requires Orient(p1, p2, p3) != 0.0
    requires 0.0 < u && 0.0 < v && u + v < 1.0
    requires circle.center == Add(p1, Add(Scale(Sub(p2, p1), u), Scale(Sub(p3, p1), v)))
    ensures TriangleHitsCircle(lib, p1, p2, p3, circle)
  {
    InteriorEnclosed(p1, p2, p3, circle.center, u, v);
  }

  lemma SameSign(k: real, o: real)
    requires k > 0.0 && o != 0.0
    ensures k * o > 0.0 <==> o > 0.0
  {
    if o < 0.0 {
      assert k * -o > 0.0;
    }
  }

  /** `v - 2 (v . n) n`: `v` mirrored in the line orthogonal to `n`. */
  function Reflect(v: Vec2, n: Vec2): Vec2
  {
    Sub(v, Scale(n, 2.0 * Dot(v, n)))
  }

  lemma ReflectScalars(vx: real, vy: real, nx: real, ny: real)
    requires nx * nx + ny * ny == 1.0
    ensures var k := 2.0 * (vx * nx + vy * ny);
      && (vx - nx * k) * (vx - nx * k) + (vy - ny * k) * (vy - ny * k) == vx * vx + vy * vy
      && (vx - nx * k) * nx + (vy - ny * k) * ny == -(vx * nx + vy * ny)
  {
    var p := vx * nx + vy * ny;
    assert (vx - nx * (2.0 * p)) * nx + (vy - ny * (2.0 * p)) * ny == p - 2.0 * p * (nx * nx + ny * ny);
    assert (vx - nx * (2.0 * p)) * (vx - nx * (2.0 * p)) + (vy - ny * (2.0 * p)) * (vy - ny * (2.0 * p))
        == vx * vx + vy * vy - 4.0 * p * p + 4.0 * p * p * (nx * nx + ny * ny);
  }

  /** Mirroring in a unit normal keeps the speed and negates the normal component. */
  lemma ReflectUnit(v: Vec2, n: Vec2)
    requires Norm2(n) == 1.0
    ensures Norm2(Reflect(v, n)) == Norm2(v)
    ensures Dot(Reflect(v, n), n) == -Dot(v, n)
  {
    ReflectScalars(v.x, v.y, n.x, n.y);
  }

  /** Angle each region spans. */
  const REGION_SPREAD: real := PI * 2.0 / (NUM_REGIONS as real)

  /** A region angle in [0, 2 pi] moved into (-pi, pi]. */
  function Centred(angle: real): real { if angle > PI then angle - 2.0 * PI else angle }

  predicate InRegion(start: real, target: real) { start < target < start + REGION_SPREAD }

  /**
   * The region search of `collides_with_region_boundary`: the start angle
   * of the first region whose open wedge holds `target`; with no such
   * region, the last region's start; with no regions, 0.
   */
  function RegionStart(angles: seq<real>, target: real): (r: real)
    ensures |angles| == 0 ==> r == 0.0
    ensures (exists i :: 0 <= i < |angles| && InRegion(Centred(angles[i]), target)) ==>
      exists i :: 0 <= i < |angles| && r == Centred(angles[i]) && InRegion(r, target)
        && forall j :: 0 <= j < i ==> !InRegion(Centred(angles[j]), target)
    ensures |angles| > 0 && (forall i :: 0 <= i < |angles| ==> !InRegion(Centred(angles[i]), target)) ==>
      r == Centred(angles[|angles| - 1])
  {
    if |angles| == 0 then 0.0
    else if InRegion(Centred(angles[0]), target) || |angles| == 1 then Centred(angles[0])
    else
      var r := RegionStart(angles[1..], target);
      assert forall i :: 1 <= i < |angles| ==> angles[i] == angles[1..][i - 1];
      r
  }

  function EdgeEnd(lib: Libm, angle: real): Vec2
  {
    Vec2(lib.cos(angle) * MAP_RADIUS, lib.sin(angle) * MAP_RADIUS)
  }

  /** Normal of the wedge's lower edge, pointing into the wedge. */
  function LowerNormal(lib: Libm, lo: real): Vec2
  {
    Normalize(lib, Vec2(lib.cos(lo + PI / 2.0), lib.sin(lo + PI / 2.0)))
  }

  /** Normal of the wedge's upper edge, pointing into the wedge. */
  function UpperNormal(lib: Libm, hi: real): Vec2
  {
    Normalize(lib, Vec2(lib.cos(hi - PI / 2.0), lib.sin(hi - PI / 2.0)))
  }

  /**
   * The circle loop of `collides_with_region_boundary`: at the first
   * circle cut by the lower edge while moving against its normal, or cut
   * by the upper edge likewise, the velocity reflected in that normal;
   * zero when there is none.
   */
  function KnockbackScan(lib: Libm, cs: seq<Circle>, lo: real, hi: real, v: Vec2): (r: Vec2)
    ensures || r == Zero
            || (r == Reflect(v, LowerNormal(lib, lo)) && Dot(v, LowerNormal(lib, lo)) < 0.0)
            || (r == Reflect(v, UpperNormal(lib, hi)) && Dot(v, UpperNormal(lib, hi)) < 0.0)
    ensures r != Zero ==> exists i :: (0 <= i < |cs|
      && (LineHitsCircle(lib, Zero, EdgeEnd(lib, lo), cs[i]) || LineHitsCircle(lib, Zero, EdgeEnd(lib, hi), cs[i])))
  {
    if |cs| == 0 then Zero
    else
      var n1 := LowerNormal(lib, lo);
      var n2 := UpperNormal(lib, hi);
      if LineHitsCircle(lib, Zero, EdgeEnd(lib, lo), cs[0]) && Dot(v, n1) < 0.0 then Reflect(v, n1)
      else if LineHitsCircle(lib, Zero, EdgeEnd(lib, hi), cs[0]) && Dot(v, n2) < 0.0 then Reflect(v, n2)
      else
        var r := KnockbackScan(lib, cs[1..], lo, hi, v);
        assert forall i :: 1 <= i < |cs| ==> cs[i] == cs[1..][i - 1];
        r
  }

  /**
   * The upper edge of the wedge found by the region search: one spread
   * above its start, or, with no regions, the initial 0 like the start.
   */
  function RegionEnd(angles: seq<real>, lo: real): real
  {
    if |angles| == 0 then 0.0 else lo + REGION_SPREAD
  }

  /**
   * `collides_with_region_boundary` for a transform moving with velocity
   * `v`: zero, or the velocity reflected in the normal of the found wedge's
   * lower or upper edge that it was moving against. With no regions both
   * edges lie along angle 0.
   */
  function RegionKnockback(lib: Libm, regionAngles: seq<real>, t: Transform, v: Vec2): (r: Vec2)
    requires Partitionable(t)
    ensures var lo := RegionStart(regionAngles, lib.atan2(t.position.y, t.position.x));
            var hi := if |regionAngles| == 0 then lo else lo + REGION_SPREAD;
            || r == Zero
            || (r == Reflect(v, LowerNormal(lib, lo)) && Dot(v, LowerNormal(lib, lo)) < 0.0)
            || (r == Reflect(v, UpperNormal(lib, hi)) && Dot(v, UpperNormal(lib, hi)) < 0.0)
    ensures |regionAngles| == 0 ==>
            || r == Zero
            || (r == Reflect(v, LowerNormal(lib, 0.0)) && Dot(v, LowerNormal(lib, 0.0)) < 0.0)
            || (r == Reflect(v, UpperNormal(lib, 0.0)) && Dot(v, UpperNormal(lib, 0.0)) < 0.0)
  {
    var lo := RegionStart(regionAngles, lib.atan2(t.position.y, t.position.x));
    KnockbackScan(lib, CollisionCircles(lib, t), lo, RegionEnd(regionAngles, lo), v)
  }

  lemma EdgeNormalUnit(lib: Libm, a: real)
    requires SqrtLaw(lib) && TrigLaw(lib)
    ensures Norm2(Normalize(lib, Vec2(lib.cos(a), lib.sin(a)))) == 1.0
  {
    assert Norm2(Vec2(lib.cos(a), lib.sin(a))) == 1.0;
    NormalizeIsUnit(lib, Vec2(lib.cos(a), lib.sin(a)));
  }

  /**
   * A region-boundary knockback is a bounce: it keeps the speed and points
   * back into the wedge across the edge it was moving through.
   */
  lemma KnockbackIsBounce(lib: Libm, regionAngles: seq<real>, t: Transform, v: Vec2)
    requires SqrtLaw(lib) && TrigLaw(lib) && Partitionable(t)
    requires RegionKnockback(lib, regionAngles, t, v) != Zero
    ensures Norm2(RegionKnockback(lib, regionAngles, t, v)) == Norm2(v)
    ensures exists n :: Norm2(n) == 1.0 && Dot(v, n) < 0.0
                        && Dot(RegionKnockback(lib, regionAngles, t, v), n) == -Dot(v, n) > 0.0
  {
    var lo := RegionStart(regionAngles, lib.atan2(t.position.y, t.position.x));
    var hi := RegionEnd(regionAngles, lo);
    EdgeNormalUnit(lib, lo + PI / 2.0);
    EdgeNormalUnit(lib, hi - PI / 2.0);
    BounceOff(v, RegionKnockback(lib, regionAngles, t, v), LowerNormal(lib, lo), UpperNormal(lib, hi));
  }

  /** A reflection in either of two unit normals the velocity was heading against is a bounce off it. */
  lemma BounceOff(v: Vec2, k: Vec2, n1: Vec2, n2: Vec2)
    requires Norm2(n1) == 1.0 && Norm2(n2) == 1.0
    requires (k == Reflect(v, n1) && Dot(v, n1) < 0.0) || (k == Reflect(v, n2) && Dot(v, n2) < 0.0)
    ensures Norm2(k) == Norm2(v)
    ensures exists n :: Norm2(n) == 1.0 && Dot(v, n) < 0.0 && Dot(k, n) == -Dot(v, n) > 0.0
  {
    if k == Reflect(v, n1) && Dot(v, n1) < 0.0 {
      ReflectUnit(v, n1);
      assert Norm2(n1) == 1.0 && Dot(v, n1) < 0.0 && Dot(k, n1) == -Dot(v, n1) > 0.0;
    } else {
      ReflectUnit(v, n2);
      assert Norm2(n2) == 1.0 && Dot(v, n2) < 0.0 && Dot(k, n2) == -Dot(v, n2) > 0.0;
    }
  }
}
