/**
 * The placement of a waypoint icon in `step_waypoints`: an interest point
 * off the screen is shown where the ray from the screen centre towards it
 * leaves a padded screen rectangle; an interest point on the screen (or
 * one whose ray leaves through a corner) is shown where it is. Screen
 * coordinates have the camera at the origin and y growing downwards.
 */
module Waypoints {
  import opened Vectors
  import opened Common
  import opened Wrappers

  /** Margin between the screen border and the icon's centre. */
  const PADDING: real := 23.0
  /** The padded rectangle's edges; the top and bottom ones sit four pixels further in. */
  const TOP: real := -(CONTENT_HEIGHT_PX / 2.0) + PADDING + 4.0
  const BOTTOM: real := CONTENT_HEIGHT_PX / 2.0 - PADDING - 4.0
  const LEFT: real := -(CONTENT_WIDTH_PX / 2.0) + PADDING
  const RIGHT: real := CONTENT_WIDTH_PX / 2.0 - PADDING

  /** `p` lies on an edge of the padded rectangle, strictly between that edge's ends. */
  predicate OnEdge(p: Vec2)
  {
    || ((p.y == TOP || p.y == BOTTOM) && LEFT < p.x < RIGHT)
    || ((p.x == LEFT || p.x == RIGHT) && TOP < p.y < BOTTOM)
  }

  /** `p` lies inside the closed padded rectangle. */
  predicate OnScreen(p: Vec2)
  {
    LEFT <= p.x <= RIGHT && TOP <= p.y <= BOTTOM
  }

  /**
   * Where the ray from the origin to `ip` crosses the line y = `y`, when it
   * does so strictly between the two and strictly inside the horizontal
   * span. The ray's parameter there is `y / ip.y`.
   */
  function RowCross(ip: Vec2, y: real): (r: Option<Vec2>)
    ensures r.Some? ==> ip.y != 0.0 && 0.0 < y / ip.y < 1.0 && r.value == Vec2(y / ip.y * ip.x, y)
    ensures r.Some? ==> r.value == Scale(ip, y / ip.y) && r.value.y == y && LEFT < r.value.x < RIGHT
  {
    if ip.y == 0.0 then None
    else
      var p := Vec2(y / ip.y * ip.x, y);
      if 0.0 < y / ip.y < 1.0 && LEFT < p.x < RIGHT then Some(p) else None
  }

  /** The same for the line x = `x`, crossed strictly inside the vertical span. */
  function ColumnCross(ip: Vec2, x: real): (r: Option<Vec2>)
    ensures r.Some? ==> ip.x != 0.0 && 0.0 < x / ip.x < 1.0 && r.value == Vec2(x, x / ip.x * ip.y)
    ensures r.Some? ==> r.value == Scale(ip, x / ip.x) && r.value.x == x && TOP < r.value.y < BOTTOM
  {
    if ip.x == 0.0 then None
    else
      var p := Vec2(x, x / ip.x * ip.y);
      if 0.0 < x / ip.x < 1.0 && TOP < p.y < BOTTOM then Some(p) else None
  }

  /** The first crossing found, trying the top, bottom, left and right edges in turn; `ip` when there is none. */
  function FirstCrossing(ip: Vec2, top: Option<Vec2>, bottom: Option<Vec2>, left: Option<Vec2>, right: Option<Vec2>): Vec2
  {
    if top.Some? then top.value
    else if bottom.Some? then bottom.value
    else if left.Some? then left.value
    else if right.Some? then right.value
    else ip
  }

  /**
   * `findIntersectionPoint`, with the ray parameter taken from the
   * coordinate the edge fixes. The source takes it from the other
   * coordinate instead; `IntersectionPointAsWritten` models that.
   */
  function IntersectionPoint(ip: Vec2): (p: Vec2)
    ensures p == ip || OnEdge(p)
  {
    FirstCrossing(ip, RowCross(ip, TOP), RowCross(ip, BOTTOM), ColumnCross(ip, LEFT), ColumnCross(ip, RIGHT))
  }

  /**
   * `findIntersectionPoint` as written: the top and bottom tests compute
   * the parameter as `p.x / ip.x`, and the left and right tests as
   * `p.y / ip.y`. Where that divisor is zero the parameter is 0/0 or
   * infinite in floating point, never strictly between 0 and 1, so the
   * test fails even when the ray does cross the edge.
   */
  function IntersectionPointAsWritten(ip: Vec2): (p: Vec2)
    ensures p == ip || OnEdge(p)
  {
    if ip.x == 0.0 || ip.y == 0.0 then ip
    else IntersectionPoint(ip)
  }

  /** A ray parameter strictly between 0 and 1 puts the edge strictly between the origin and `v`. */
  lemma UnitQuotientBetween(e: real, v: real)
    requires v != 0.0 && 0.0 < e / v < 1.0
    ensures (0.0 < e < v) || (v < e < 0.0)
  {
    var t := e / v;
    assert e == t * v;
    if v > 0.0 {
      assert t * v < v;
    } else {
      assert t * v > v;
    }
  }

  /**
   * The icon is either at the interest point itself, or on an edge of the
   * padded rectangle, strictly inside it, where the ray from the origin
   * towards the interest point crosses it strictly before reaching it.
   */
  lemma IntersectionOnEdge(ip: Vec2)
    ensures var p := IntersectionPoint(ip);
      p == ip || (OnEdge(p) && exists t :: 0.0 < t < 1.0 && p == Scale(ip, t))
  {
    var p := IntersectionPoint(ip);
    if RowCross(ip, TOP).Some? {
      assert 0.0 < TOP / ip.y < 1.0 && p == Scale(ip, TOP / ip.y);
    } else if RowCross(ip, BOTTOM).Some? {
      assert 0.0 < BOTTOM / ip.y < 1.0 && p == Scale(ip, BOTTOM / ip.y);
    } else if ColumnCross(ip, LEFT).Some? {
      assert 0.0 < LEFT / ip.x < 1.0 && p == Scale(ip, LEFT / ip.x);
    } else if ColumnCross(ip, RIGHT).Some? {
      assert 0.0 < RIGHT / ip.x < 1.0 && p == Scale(ip, RIGHT / ip.x);
    }
  }

  /** An interest point on the screen keeps its icon where it is: no edge lies strictly between it and the origin. */
  lemma OnScreenStays(ip: Vec2)
    requires OnScreen(ip)
    ensures IntersectionPoint(ip) == ip
  {
    if RowCross(ip, TOP).Some? {
      UnitQuotientBetween(TOP, ip.y);
      assert false;
    }
    if RowCross(ip, BOTTOM).Some? {
      UnitQuotientBetween(BOTTOM, ip.y);
      assert false;
    }
    if ColumnCross(ip, LEFT).Some? {
      UnitQuotientBetween(LEFT, ip.x);
      assert false;
    }
    if ColumnCross(ip, RIGHT).Some? {
      UnitQuotientBetween(RIGHT, ip.x);
      assert false;
    }
  }

  /** An icon placed away from its interest point is always placed on the screen's padded border. */
  lemma MovedIconsOnScreen(ip: Vec2)
    requires IntersectionPoint(ip) != ip
    ensures OnScreen(IntersectionPoint(ip)) && !OnScreen(ip)
  {
    IntersectionOnEdge(ip);
    if OnScreen(ip) {
      OnScreenStays(ip);
      assert false;
    }
  }

  /** Off the axes, the source's placement is the intended one. */
  lemma AsWrittenAgreesOffAxes(ip: Vec2)
    requires ip.x != 0.0 && ip.y != 0.0
    ensures IntersectionPointAsWritten(ip) == IntersectionPoint(ip)
  {
  }

  /**
   * An interest point straight above or below the camera, beyond the
   * padded rectangle, gets its icon on the top or bottom edge, above or
   * below the camera.
   */
  lemma StraightUpOrDown(y: real)
    requires y < TOP || BOTTOM < y
    ensures IntersectionPoint(Vec2(0.0, y)) == Vec2(0.0, if y < TOP then TOP else BOTTOM)
  {
    var ip := Vec2(0.0, y);
    if y < TOP {
      assert 0.0 < TOP / y < 1.0 by { QuotientInUnit(TOP, y); }
    } else {
      assert RowCross(ip, TOP) == None by {
        assert TOP / y < 0.0 by { NegativeQuotient(TOP, y); }
      }
      assert 0.0 < BOTTOM / y < 1.0 by { QuotientInUnit(BOTTOM, y); }
    }
  }

  /** An edge strictly between the origin and `v` gives a ray parameter strictly between 0 and 1. */
  lemma QuotientInUnit(e: real, v: real)
    requires (0.0 < e < v) || (v < e < 0.0)
    ensures 0.0 < e / v < 1.0
  {
    var w := 1.0 / v;
    assert e / v == e * w;
    assert 1.0 - e / v == (v - e) * w;
    if v > 0.0 {
      assert w > 0.0;
      assert e * w > 0.0 && (v - e) * w > 0.0;
    } else {
      assert w < 0.0;
      assert e * w > 0.0 && (v - e) * w > 0.0;
    }
  }

  lemma NegativeQuotient(e: real, v: real)
    requires e < 0.0 < v
    ensures e / v < 0.0
  {
    var w := 1.0 / v;
    assert w > 0.0;
    assert e / v == e * w;
  }

  /**
   * The source leaves the icon of such a point at the point itself, off
   * the screen: its parameter test divides by the zero x coordinate.
   */
  lemma StraightUpOrDownAsWritten(y: real)
    requires y < TOP || BOTTOM < y
    ensures IntersectionPointAsWritten(Vec2(0.0, y)) == Vec2(0.0, y)
    ensures IntersectionPointAsWritten(Vec2(0.0, y)) != IntersectionPoint(Vec2(0.0, y))
  {
    StraightUpOrDown(y);
  }
}
