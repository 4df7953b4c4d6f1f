/**
 * Motion integration of the physics step: the turn-rate law that steers an
 * entity towards the direction of the force acting on it, and
 * `step_movement`, which accelerates, caps and moves every moving entity
 * that is not an attachment.
 */
module Motions {
  import opened Vectors
  import opened Common
  import opened Components
  import opened Registry

  /** Angle still to turn to face the force, before wrapping. */
  function Remaining(lib: Libm, t: Transform, m: Motion): real
  {
    lib.atan2(m.force.y, m.force.x) - t.angle + t.angleOffset
  }

  /**
   * A remainder beyond half a turn is taken the other way round: it moves
   * by a full turn towards zero, which brings any remainder below one and
   * a half turns within half a turn.
   */
  function Rewrap(rem: real): (r: real)
    ensures Abs(rem) <= PI ==> r == rem
    ensures Abs(rem) > PI ==> r == rem - 2.0 * PI * Sign(rem)
    ensures Abs(rem) <= 3.0 * PI ==> Abs(r) <= PI
  {
    if Abs(rem) > PI then (2.0 * PI - Abs(rem)) * -Sign(rem) else rem
  }

  /**
   * The angular speed that finishes the turn in one step of `dt` seconds,
   * capped. A zero `dt` makes the source's quotient infinite, so the cap.
   */
  function TurnSpeed(rem: real, dt: real, cap: real): (r: real)
    ensures dt > 0.0 ==> r <= cap && r * dt <= Abs(rem)
    ensures dt > 0.0 && 0.0 <= cap ==> 0.0 <= r && (r == cap || r * dt == Abs(rem))
  {
    if dt == 0.0 then cap
    else
      var q := Abs(rem) / dt;
      assert dt > 0.0 ==> q * dt == Abs(rem);
      Min(q, cap)
  }

  /**
   * `get_angle_velocity`: no turn once within ANGLE_PRECISION of the target
   * (tested before wrapping); otherwise turn towards the wrapped remainder
   * at the capped speed. The rate never exceeds the cap and one step of it
   * never overshoots the remainder.
   */
  function TurnRate(lib: Libm, t: Transform, m: Motion, dt: real): (w: real)
    ensures Abs(Remaining(lib, t, m)) < ANGLE_PRECISION ==> w == 0.0
    ensures dt > 0.0 && 0.0 <= m.maxAngularVelocity ==>
      var rem := Rewrap(Remaining(lib, t, m));
      && Abs(w) <= m.maxAngularVelocity
      && Abs(w) * dt <= Abs(rem)
      && w * rem >= 0.0
    ensures dt > 0.0 && 0.0 <= m.maxAngularVelocity && Abs(Remaining(lib, t, m)) >= ANGLE_PRECISION ==>
      var rem := Rewrap(Remaining(lib, t, m));
      rem != 0.0 ==> Abs(w) == m.maxAngularVelocity || Abs(w) * dt == Abs(rem)
  {
    var rem := Remaining(lib, t, m);
    if Abs(rem) < ANGLE_PRECISION then 0.0
    else
      var r := Rewrap(rem);
      var speed := TurnSpeed(r, dt, m.maxAngularVelocity);
      SignedSpeed(speed, r);
      speed * Sign(r)
  }

  lemma SignedSpeed(speed: real, r: real)
    ensures 0.0 <= speed ==> Abs(speed * Sign(r)) <= speed && speed * Sign(r) * r >= 0.0
    ensures 0.0 <= speed && r != 0.0 ==> Abs(speed * Sign(r)) == speed
  {
  }

  /** An entity's transform and motion, the state `step_movement` updates. */
  datatype Body = Body(transform: Transform, motion: Motion)

  /** The velocity after applying the force for `elapsedMs`, capped unless dashing. */
  function Accelerated(lib: Libm, m: Motion, dashing: bool, elapsedMs: real): Vec2
  {
    if dashing then Pushed(m, elapsedMs) else ClampSpeed(lib, Pushed(m, elapsedMs), m.maxVelocity)
  }

  /** The velocity plus the force applied for `elapsedMs`, before any cap. */
  function Pushed(m: Motion, elapsedMs: real): Vec2
  {
    Add(m.velocity, Scale(m.force, elapsedMs * m.accelerationUnit))
  }

  /** The velocity after one step: only a force that is present changes it. */
  function StepVelocity(lib: Libm, m: Motion, dashing: bool, elapsedMs: real): Vec2
  {
    if Length(lib, m.force) > 0.0 then Accelerated(lib, m, dashing, elapsedMs) else m.velocity
  }

  /**
   * The angular velocity after one step: the turn rate under a force (which
   * reads the force, not the new velocity), unchanged otherwise.
   */
  function StepSpin(lib: Libm, t: Transform, m: Motion, elapsedMs: real): real
  {
    if Length(lib, m.force) > 0.0 then TurnRate(lib, t, m, elapsedMs / 1000.0) else m.angularVelocity
  }

  /**
   * The move itself: the position advances by the velocity and the angle by
   * the angular velocity, reduced by `fmod` to within one turn.
   */
  function Moved(lib: Libm, t: Transform, velocity: Vec2, spin: real, secs: real): Transform
  {
    t.(position := Add(t.position, Scale(velocity, secs)),
       angle := lib.fmod(t.angle + spin * secs, 2.0 * PI))
  }

  /**
   * One body's share of `step_movement`. Without force nothing decays; the
   * body still drifts by its velocity and turns by its angular velocity.
   */
  function StepBody(lib: Libm, b: Body, dashing: bool, elapsedMs: real): Body
  {
    var v := StepVelocity(lib, b.motion, dashing, elapsedMs);
    var w := StepSpin(lib, b.transform, b.motion, elapsedMs);
    Body(Moved(lib, b.transform, v, w, elapsedMs / 1000.0), b.motion.(velocity := v, angularVelocity := w))
  }

  /**
   * A step changes only the velocity and angular velocity of the motion,
   * and nothing of it without a force; of the transform it changes only
   * the position and the angle, and the position moves by exactly the new
   * velocity times the step.
   */
  lemma StepBodyFrame(lib: Libm, b: Body, dashing: bool, elapsedMs: real)
    ensures var r := StepBody(lib, b, dashing, elapsedMs);
      && r.motion == b.motion.(velocity := r.motion.velocity, angularVelocity := r.motion.angularVelocity)
      && (!(Length(lib, b.motion.force) > 0.0) ==> r.motion == b.motion)
      && r.transform == b.transform.(position := r.transform.position, angle := r.transform.angle)
      && Sub(r.transform.position, b.transform.position) == Scale(r.motion.velocity, elapsedMs / 1000.0)
  {
  }

  /** Unless dashing, a body pushed by a force ends the step no faster than its cap. */
  lemma StepBodySpeed(lib: Libm, b: Body, dashing: bool, elapsedMs: real)
    requires SqrtLaw(lib) && 0.0 <= b.motion.maxVelocity
    requires Length(lib, b.motion.force) > 0.0 && !dashing
    ensures Norm2(StepBody(lib, b, dashing, elapsedMs).motion.velocity) <= b.motion.maxVelocity * b.motion.maxVelocity
  {
    PushedVelocity(lib, b, elapsedMs);
    ClampSpeedBound(lib, Pushed(b.motion, elapsedMs), b.motion.maxVelocity);
  }

  /** Under a force and without a dash, the new velocity is the pushed one, capped. */
  lemma PushedVelocity(lib: Libm, b: Body, elapsedMs: real)
    requires Length(lib, b.motion.force) > 0.0
    ensures StepBody(lib, b, false, elapsedMs).motion.velocity == ClampSpeed(lib, Pushed(b.motion, elapsedMs), b.motion.maxVelocity)
  {
  }

  /** The angle after a step is within one turn either way. */
  lemma StepBodyAngle(lib: Libm, b: Body, dashing: bool, elapsedMs: real)
    requires FmodLaw(lib)
    ensures -2.0 * PI < StepBody(lib, b, dashing, elapsedMs).transform.angle < 2.0 * PI
  {
    var w := StepSpin(lib, b.transform, b.motion, elapsedMs);
    var v := StepVelocity(lib, b.motion, dashing, elapsedMs);
    MovedAngle(lib, b.transform, v, w, elapsedMs / 1000.0);
  }

  lemma MovedAngle(lib: Libm, t: Transform, velocity: Vec2, spin: real, secs: real)
    requires FmodLaw(lib)
    ensures -2.0 * PI < Moved(lib, t, velocity, spin, secs).angle < 2.0 * PI
  {
    FmodBound(lib, t.angle + spin * secs, 2.0 * PI);
  }

  lemma FmodBound(lib: Libm, a: real, b: real)
    requires FmodLaw(lib) && 0.0 < b
    ensures -b < lib.fmod(a, b) < b
  {
  }

  /** A pushed body's new angular velocity is within its cap. */
  lemma StepBodyTurn(lib: Libm, b: Body, dashing: bool, elapsedMs: real)
    requires elapsedMs > 0.0 && 0.0 <= b.motion.maxAngularVelocity && Length(lib, b.motion.force) > 0.0
    ensures Abs(StepBody(lib, b, dashing, elapsedMs).motion.angularVelocity) <= b.motion.maxAngularVelocity
  {
    assert StepBody(lib, b, dashing, elapsedMs).motion.angularVelocity == TurnRate(lib, b.transform, b.motion, elapsedMs / 1000.0);
  }

  /** A dash component with a running active timer. */
  predicate Dashing(dashes: map<Entity, Dash>, e: Entity)
  {
    e in dashes && dashes[e].activeTimerMs > 0.0
  }

  /** Every moving entity has a transform (the source asserts it) and a motion. */
  predicate Movable(r: Registry, bodies: map<Entity, Body>)
  {
    Motions in r.members && forall e :: e in r.members[Motions] ==> e in bodies
  }

  /** Entity `e`'s state after `step_movement`: attachments are left alone. */
  function Stepped(lib: Libm, r: Registry, bodies: map<Entity, Body>, dashes: map<Entity, Dash>, e: Entity, elapsedMs: real): Body
    requires e in bodies
  {
    if Has(r, Attachments, e) then bodies[e] else StepBody(lib, bodies[e], Dashing(dashes, e), elapsedMs)
  }

  /**
   * `step_movement` over the motion container. Each moving entity that is
   * not an attachment takes one step of its own; attachments and entities
   * without motion keep their state. Since a body's step reads no other
   * entity, the order of the container does not matter.
   */
  method StepMovement(lib: Libm, r: Registry, bodies: map<Entity, Body>, dashes: map<Entity, Dash>, elapsedMs: real)
    returns (bodies': map<Entity, Body>)
    requires Movable(r, bodies) && Distinct(r.members[Motions])
    ensures bodies'.Keys == bodies.Keys
    ensures forall e :: e in r.members[Motions] ==> bodies'[e] == Stepped(lib, r, bodies, dashes, e, elapsedMs)
    ensures forall e :: e in bodies && e !in r.members[Motions] ==> bodies'[e] == bodies[e]
  {
    var movers := r.members[Motions];
    bodies' := bodies;
    for i := 0 to |movers|
      invariant bodies'.Keys == bodies.Keys
      invariant forall k :: 0 <= k < i ==> bodies'[movers[k]] == Stepped(lib, r, bodies, dashes, movers[k], elapsedMs)
      invariant forall e :: e in bodies && e !in movers[..i] ==> bodies'[e] == bodies[e]
    {
      var e := movers[i];
      if Has(r, Attachments, e) {
        continue;
      }
      bodies' := bodies'[e := StepBody(lib, bodies'[e], Dashing(dashes, e), elapsedMs)];
    }
    assert movers[..|movers|] == movers;
  }

  /** After `step_movement` no pushed, non-dashing, non-attached entity is faster than its cap. */
  lemma StepMovementSpeed(lib: Libm, r: Registry, bodies: map<Entity, Body>, dashes: map<Entity, Dash>,
                          elapsedMs: real, e: Entity)
    requires SqrtLaw(lib) && Movable(r, bodies) && e in r.members[Motions]
    requires !Has(r, Attachments, e) && !Dashing(dashes, e)
    requires Length(lib, bodies[e].motion.force) > 0.0 && 0.0 <= bodies[e].motion.maxVelocity
    ensures var m := Stepped(lib, r, bodies, dashes, e, elapsedMs).motion;
      Norm2(m.velocity) <= m.maxVelocity * m.maxVelocity
  {
    StepBodySpeed(lib, bodies[e], false, elapsedMs);
  }
}
