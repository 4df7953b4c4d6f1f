/**
 * `control_movement`: the player's velocity under the keyboard and the
 * analogue stick. Each axis is pushed by its two keys and by the stick,
 * then left to coast (decay) when no single key pushes it and the stick
 * rests near its centre; finally the speed is capped unless a dash is
 * running.
 */
module Controls {
  import opened Vectors
  import opened Components
  import opened Wrappers

  /** The movement keys held this frame. */
  datatype Keys = Keys(w: bool, a: bool, s: bool, d: bool)

  /** How far from its centre the stick may rest and still let an axis coast. */
  const STICK_DEAD_ZONE: real := 0.3

  /** `pow(b, e)` for a base in (0, 1) and a non-negative exponent lies in (0, 1]. */
  ghost predicate PowLaw(m: Libm) {
    forall b: real, e: real {:trigger m.pow(b, e)} :: 0.0 < b < 1.0 && 0.0 <= e ==> 0.0 < m.pow(b, e) <= 1.0
  }

  /**
   * No single key pushes the axis (neither or both are held) and the stick
   * is within the dead zone.
   */
  predicate Coasting(plus: bool, minus: bool, stick: real)
  {
    (!(plus || minus) || (plus && minus)) && -STICK_DEAD_ZONE <= stick <= STICK_DEAD_ZONE
  }

  /**
   * One axis of the update. `plus` and `minus` are the keys pushing the
   * axis up and down, `stick` the stick's push along it; each key adds or
   * removes `dt * acc`, the stick `dt * acc * stick`, and a coasting axis
   * is multiplied by `pow(dec, dt)`.
   */
  function AxisVelocity(lib: Libm, v: real, plus: bool, minus: bool, stick: real, dt: real, acc: real, dec: real): (r: real)
    ensures !Coasting(plus, minus, stick) ==>
      r == v + dt * acc * ((if plus then 1.0 else 0.0) - (if minus then 1.0 else 0.0) + stick)
    ensures Coasting(plus, minus, stick) ==> r == (v + dt * acc * stick) * lib.pow(dec, dt)
  {
    var u1 := if plus then v + dt * acc else v;
    var u2 := if minus then u1 - dt * acc else u1;
    var u3 := u2 + dt * acc * stick;
    if Coasting(plus, minus, stick) then u3 * lib.pow(dec, dt) else u3
  }

  /** Holding both keys of an axis is the same as holding neither. */
  lemma BothKeysCancel(lib: Libm, v: real, stick: real, dt: real, acc: real, dec: real)
    ensures AxisVelocity(lib, v, true, true, stick, dt, acc, dec) == AxisVelocity(lib, v, false, false, stick, dt, acc, dec)
  {
  }

  /** The axis update is mirror-symmetric: swapping the keys and negating the stick negates the result. */
  lemma AxisMirror(lib: Libm, v: real, plus: bool, minus: bool, stick: real, dt: real, acc: real, dec: real)
    ensures AxisVelocity(lib, -v, minus, plus, -stick, dt, acc, dec) == -AxisVelocity(lib, v, plus, minus, stick, dt, acc, dec)
  {
  }

  /**
   * A coasting axis never speeds up beyond where the stick leaves it:
   * with a deceleration unit in (0, 1) the decay factor is in (0, 1].
   */
  lemma CoastingSlows(lib: Libm, v: real, plus: bool, minus: bool, stick: real, dt: real, acc: real, dec: real)
    requires PowLaw(lib) && 0.0 < dec < 1.0 && 0.0 <= dt
    requires Coasting(plus, minus, stick)
    ensures Abs(AxisVelocity(lib, v, plus, minus, stick, dt, acc, dec)) <= Abs(v + dt * acc * stick)
    ensures AxisVelocity(lib, v, plus, minus, stick, dt, acc, dec) * (v + dt * acc * stick) >= 0.0
  {
    DecayFactor(v + dt * acc * stick, lib.pow(dec, dt));
  }

  lemma DecayFactor(u: real, p: real)
    requires 0.0 < p <= 1.0
    ensures Abs(u * p) <= Abs(u)
    ensures u * p * u >= 0.0
  {
    ScaleShrinks(u, p);
    assert u * p * u == p * (u * u);
    if u != 0.0 {
      MulStrict(Abs(u), 0.0);
    }
  }

  /** The player's dash is running. */
  predicate DashActive(dash: Option<Dash>) { dash.Some? && IsDashing(dash.value) }

  /**
   * `control_movement` on the player's motion. W and S push y up and down
   * and the stick's second axis pushes it down; D and A push x right and
   * left and the stick's first axis pushes it right. Unless a dash is
   * running the velocity is then capped at `maxVelocity`. Only the velocity
   * changes.
   */
  function ControlMovement(lib: Libm, m: Motion, keys: Keys, axes: Vec2, dash: Option<Dash>, elapsedMs: real): (r: Motion)
    ensures r == m.(velocity := r.velocity)
    ensures var pushed := Vec2(
        AxisVelocity(lib, m.velocity.x, keys.d, keys.a, axes.x, elapsedMs, m.accelerationUnit, m.decelerationUnit),
        AxisVelocity(lib, m.velocity.y, keys.w, keys.s, -axes.y, elapsedMs, m.accelerationUnit, m.decelerationUnit));
      r.velocity == if DashActive(dash) then pushed else ClampSpeed(lib, pushed, m.maxVelocity)
  {
    var vx := AxisVelocity(lib, m.velocity.x, keys.d, keys.a, axes.x, elapsedMs, m.accelerationUnit, m.decelerationUnit);
    var vy := AxisVelocity(lib, m.velocity.y, keys.w, keys.s, -axes.y, elapsedMs, m.accelerationUnit, m.decelerationUnit);
    var v := Vec2(vx, vy);
    m.(velocity := if !DashActive(dash) then ClampSpeed(lib, v, m.maxVelocity) else v)
  }

  /** Unless dashing, the player ends the update no faster than the cap. */
  lemma ControlSpeedBound(lib: Libm, m: Motion, keys: Keys, axes: Vec2, dash: Option<Dash>, elapsedMs: real)
    requires SqrtLaw(lib) && 0.0 <= m.maxVelocity && !DashActive(dash)
    ensures Norm2(ControlMovement(lib, m, keys, axes, dash, elapsedMs).velocity) <= m.maxVelocity * m.maxVelocity
  {
    var vx := AxisVelocity(lib, m.velocity.x, keys.d, keys.a, axes.x, elapsedMs, m.accelerationUnit, m.decelerationUnit);
    var vy := AxisVelocity(lib, m.velocity.y, keys.w, keys.s, -axes.y, elapsedMs, m.accelerationUnit, m.decelerationUnit);
    ClampSpeedBound(lib, Vec2(vx, vy), m.maxVelocity);
  }

  /**
   * With nothing held, the stick centred and a deceleration unit in (0, 1),
   * the player slows down on both axes without changing direction, dashing
   * or not.
   */
  lemma IdlePlayerSlows(lib: Libm, m: Motion, dash: Option<Dash>, elapsedMs: real)
    requires PowLaw(lib) && SqrtLaw(lib) && 0.0 < m.decelerationUnit < 1.0 && 0.0 <= elapsedMs && 0.0 <= m.maxVelocity
    ensures var v := ControlMovement(lib, m, Keys(false, false, false, false), Zero, dash, elapsedMs).velocity;
      Abs(v.x) <= Abs(m.velocity.x) && Abs(v.y) <= Abs(m.velocity.y)
  {
    var acc, dec := m.accelerationUnit, m.decelerationUnit;
    CoastingSlows(lib, m.velocity.x, false, false, 0.0, elapsedMs, acc, dec);
    CoastingSlows(lib, m.velocity.y, false, false, -0.0, elapsedMs, acc, dec);
    var vx := AxisVelocity(lib, m.velocity.x, false, false, 0.0, elapsedMs, acc, dec);
    var vy := AxisVelocity(lib, m.velocity.y, false, false, -0.0, elapsedMs, acc, dec);
    if !DashActive(dash) {
      ClampShrinks(lib, Vec2(vx, vy), m.maxVelocity);
    }
  }

  /** Clamping scales both components by the same factor in [0, 1]. */
  lemma ClampShrinks(lib: Libm, v: Vec2, limit: real)
    requires SqrtLaw(lib) && 0.0 <= limit
    ensures Abs(ClampSpeed(lib, v, limit).x) <= Abs(v.x) && Abs(ClampSpeed(lib, v, limit).y) <= Abs(v.y)
  {
    var mag := Length(lib, v);
    SqrtOf(lib, Norm2(v));
    if mag > limit && mag != 0.0 {
      var k := limit / mag;
      assert 0.0 <= k <= 1.0;
      ScaleShrinks(v.x, k);
      ScaleShrinks(v.y, k);
    }
  }

  lemma ScaleShrinks(x: real, k: real)
    requires 0.0 <= k <= 1.0
    ensures Abs(x * k) <= Abs(x)
  {
    if x >= 0.0 {
      assert x * k <= x * 1.0;
    } else {
      assert x * k >= x * 1.0;
    }
  }
}
