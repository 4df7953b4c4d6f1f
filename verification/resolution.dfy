/**
 * The movement part of `resolve_collisions` for a record's owner: a body
 * that hits the map's round wall is mirrored back inside, losing five
 * percent of its speed; a player hitting a region's edge during a boss
 * fight is pushed back along the knockback the physics step computed; a
 * player touching an enemy or a cyst is knocked away from it. Each of
 * these switches off the world's acceleration flag for the frame.
 */
module Resolution {
  import opened Vectors
  import opened Components
  import opened Geometry

  /** The share of speed a bounce keeps. */
  const RESTITUTION: real := 0.95

  /** A body's velocity and the world's acceleration flag after resolving one collision. */
  datatype Resolved = Resolved(velocity: Vec2, allowAccel: bool)

  /** The wall's inward normal at `position`: towards the map centre. */
  function InwardNormal(lib: Libm, position: Vec2): Vec2
  {
    Neg(Normalize(lib, position))
  }

  /**
   * A bounce off a wall with inward normal `n`: only a velocity heading
   * out (against `n`) is reflected, scaled by the restitution, and clears
   * the flag; a body already heading inwards is left alone so that it
   * cannot stick to the wall.
   */
  function WallBounce(n: Vec2, velocity: Vec2, allowAccel: bool): (r: Resolved)
    ensures Dot(velocity, n) >= 0.0 ==> r == Resolved(velocity, allowAccel)
    ensures Dot(velocity, n) < 0.0 ==> !r.allowAccel
  {
    if Dot(velocity, n) < 0.0 then
      var reflection := Sub(velocity, Scale(n, 2.0 * Dot(velocity, n)));
      Resolved(Scale(reflection, RESTITUTION), false)
    else Resolved(velocity, allowAccel)
  }

  /** The WITH_BOUNDARY branch, at the body's position on the map. */
  function BounceOffWall(lib: Libm, position: Vec2, velocity: Vec2, allowAccel: bool): Resolved
  {
    WallBounce(InwardNormal(lib, position), velocity, allowAccel)
  }

  /**
   * A bounce sends the body inwards at 95 percent of its speed: the new
   * velocity has a positive inward component and squared speed 0.9025
   * times the old one. A body at the exact centre has no normal and never
   * bounces.
   */
  lemma BounceTurnsInward(lib: Libm, position: Vec2, velocity: Vec2, allowAccel: bool)
    requires SqrtLaw(lib)
    requires Dot(velocity, InwardNormal(lib, position)) < 0.0
    ensures position != Zero
    ensures var r := BounceOffWall(lib, position, velocity, allowAccel);
      && Dot(r.velocity, InwardNormal(lib, position)) > 0.0
      && Norm2(r.velocity) == RESTITUTION * RESTITUTION * Norm2(velocity)
  {
    NormalOffCentre(lib, position, velocity);
    WallBounceUnit(InwardNormal(lib, position), velocity, allowAccel);
  }

  /** A body moving against the normal is off centre, where the normal is a unit vector. */
  lemma NormalOffCentre(lib: Libm, position: Vec2, velocity: Vec2)
    requires SqrtLaw(lib)
    requires Dot(velocity, InwardNormal(lib, position)) < 0.0
    ensures position != Zero && Norm2(InwardNormal(lib, position)) == 1.0
  {
    assert position != Zero by {
      SqrtZero(lib);
      OffCentre(lib, position, velocity);
    }
    InwardUnit(lib, position);
  }

  /** At the centre the normal is zero, so no velocity moves against it. */
  lemma OffCentre(lib: Libm, position: Vec2, velocity: Vec2)
    requires lib.sqrt(0.0) == 0.0
    requires Dot(velocity, InwardNormal(lib, position)) < 0.0
    ensures position != Zero
  {
    NormalAtCentre(lib, position);
  }

  /** For a unit normal, a bounce flips the normal component and keeps 95 percent of the speed. */
  lemma WallBounceUnit(n: Vec2, velocity: Vec2, allowAccel: bool)
    requires Norm2(n) == 1.0 && Dot(velocity, n) < 0.0
    ensures Dot(WallBounce(n, velocity, allowAccel).velocity, n) > 0.0
    ensures Norm2(WallBounce(n, velocity, allowAccel).velocity) == RESTITUTION * RESTITUTION * Norm2(velocity)
  {
    ReflectScaled(velocity, n);
  }

  /** At the map centre the normal is the zero vector. */
  lemma NormalAtCentre(lib: Libm, position: Vec2)
    requires lib.sqrt(0.0) == 0.0
    ensures position == Zero ==> InwardNormal(lib, position) == Zero
  {
    if position == Zero {
      NormalizeZero(lib);
    }
  }

  /** Anywhere else the normal is a unit vector. */
  lemma InwardUnit(lib: Libm, position: Vec2)
    requires SqrtLaw(lib)
    ensures position != Zero ==> Norm2(InwardNormal(lib, position)) == 1.0
  {
    if position != Zero {
      PositiveNorm(position);
      NormalizeIsUnit(lib, position);
      var u := Normalize(lib, position);
      assert Norm2(Neg(u)) == Norm2(u);
    }
  }

  /** A reflection in a unit normal, scaled by the restitution, keeps 95 percent of the speed and flips the normal component. */
  lemma ReflectScaled(v: Vec2, n: Vec2)
    requires Norm2(n) == 1.0
    ensures Dot(Scale(Reflect(v, n), RESTITUTION), n) == -RESTITUTION * Dot(v, n)
    ensures Norm2(Scale(Reflect(v, n), RESTITUTION)) == RESTITUTION * RESTITUTION * Norm2(v)
  {
    ReflectUnit(v, n);
    ScaledNorm(Reflect(v, n), RESTITUTION);
  }

  /**
   * The PLAYER_WITH_REGION_BOUNDARY branch: the velocity becomes 95
   * percent of the knockback and the flag is cleared.
   */
  function BounceOffRegionEdge(knockback: Vec2): (r: Resolved)
    ensures !r.allowAccel
    ensures Norm2(r.velocity) == RESTITUTION * RESTITUTION * Norm2(knockback)
  {
    ScaledNorm(knockback, RESTITUTION);
    Resolved(Scale(knockback, RESTITUTION), false)
  }

  /** A player touching an enemy is knocked away at the enemy's top speed plus this much. */
  const ENEMY_KNOCKBACK_BONUS: real := 1000.0

  /** A player touching a cyst is knocked away at this speed. */
  const CYST_KNOCKBACK_SPEED: real := 150.0

  /**
   * What resolving a record reads besides the record and the owner's own
   * motion: the other entity's position and top speed, whether the owner
   * and the player are invincible, and whether the player collides with
   * enemies (it does not while dashing).
   */
  datatype Contact = Contact(
    otherPosition: Vec2, otherMaxVelocity: real,
    ownerInvincible: bool, playerInvincible: bool, playerCollidesEnemies: bool)

  /** A velocity of `speed` along the normalized direction from `from` to `position`. */
  function KnockAway(lib: Libm, position: Vec2, from: Vec2, speed: real): Vec2
  {
    Scale(Normalize(lib, Sub(position, from)), speed)
  }

  /**
   * Away from the other entity's centre, a knock-back has exactly the
   * given speed and points away from that entity.
   */
  lemma KnockAwayMeets(lib: Libm, position: Vec2, from: Vec2, speed: real)
    requires SqrtLaw(lib) && position != from && speed > 0.0
    ensures Norm2(KnockAway(lib, position, from, speed)) == speed * speed
    ensures Dot(KnockAway(lib, position, from, speed), Sub(position, from)) > 0.0
  {
    var d := Sub(position, from);
    assert d != Zero;
    PositiveNorm(d);
    NormalizeIsUnit(lib, d);
    var u := Normalize(lib, d);
    ScaledNorm(u, speed);
    var len := Length(lib, d);
    SqrtOf(lib, Norm2(d));
    assert len > 0.0 by {
      assert len * len == Norm2(d) > 0.0;
    }
    assert d == Scale(u, len);
    assert Dot(u, d) == len * Norm2(u) by {
      assert u.x * d.x == len * (u.x * u.x);
      assert u.y * d.y == len * (u.y * u.y);
    }
    assert Dot(Scale(u, speed), d) == speed * Dot(u, d) by {
      assert (u.x * speed) * d.x == speed * (u.x * d.x);
      assert (u.y * speed) * d.y == speed * (u.y * d.y);
    }
    assert speed * len > 0.0;
  }

  /**
   * The movement outcome of one collision record for the record's owner
   * and the world's acceleration flag. The two boundary kinds bounce; a
   * player that is not invincible is knocked away from an enemy (when it
   * collides with enemies) or from a cyst; a bullet reaching a vulnerable
   * player clears the flag, the push itself landing on the player. Every
   * other kind leaves both alone.
   */
  function ResolveMovement(lib: Libm, c: Collision, k: Contact, position: Vec2, velocity: Vec2, allowAccel: bool): (r: Resolved)
    ensures r.allowAccel ==> allowAccel
    ensures r.velocity != velocity ==> !r.allowAccel
    ensures c.kind !in {WithBoundary, PlayerWithRegionBoundary, PlayerWithEnemy, PlayerWithCyst, BulletWithPlayer}
      ==> r == Resolved(velocity, allowAccel)
    ensures c.kind == PlayerWithEnemy ==>
      if !k.ownerInvincible && k.playerCollidesEnemies
      then r == Resolved(KnockAway(lib, position, k.otherPosition, k.otherMaxVelocity + ENEMY_KNOCKBACK_BONUS), false)
      else r == Resolved(velocity, allowAccel)
    ensures c.kind == PlayerWithCyst ==>
      if !k.ownerInvincible
      then r == Resolved(KnockAway(lib, position, k.otherPosition, CYST_KNOCKBACK_SPEED), false)
      else r == Resolved(velocity, allowAccel)
    ensures c.kind == BulletWithPlayer ==>
      r.velocity == velocity && (r.allowAccel <==> allowAccel && (k.playerInvincible || !k.playerCollidesEnemies))
  {
    match c.kind
    case WithBoundary => BounceOffWall(lib, position, velocity, allowAccel)
    case PlayerWithRegionBoundary => BounceOffRegionEdge(c.knockback)
    case PlayerWithEnemy =>
      if !k.ownerInvincible && k.playerCollidesEnemies
      then Resolved(KnockAway(lib, position, k.otherPosition, k.otherMaxVelocity + ENEMY_KNOCKBACK_BONUS), false)
      else Resolved(velocity, allowAccel)
    case PlayerWithCyst =>
      if !k.ownerInvincible then Resolved(KnockAway(lib, position, k.otherPosition, CYST_KNOCKBACK_SPEED), false)
      else Resolved(velocity, allowAccel)
    case BulletWithPlayer =>
      if !k.playerInvincible && k.playerCollidesEnemies then Resolved(velocity, false)
      else Resolved(velocity, allowAccel)
    case _ => Resolved(velocity, allowAccel)
  }

  /**
   * A vulnerable player touching an enemy flies straight away from it at
   * the enemy's top speed plus 1000, and touching a cyst at 150; either
   * way acceleration is off for the frame.
   */
  lemma PlayerKnockedAway(lib: Libm, c: Collision, k: Contact, position: Vec2, velocity: Vec2, allowAccel: bool)
    requires SqrtLaw(lib) && position != k.otherPosition && 0.0 <= k.otherMaxVelocity && !k.ownerInvincible
    requires c.kind == PlayerWithCyst || (c.kind == PlayerWithEnemy && k.playerCollidesEnemies)
    ensures var r := ResolveMovement(lib, c, k, position, velocity, allowAccel);
      var speed := if c.kind == PlayerWithEnemy then k.otherMaxVelocity + ENEMY_KNOCKBACK_BONUS else CYST_KNOCKBACK_SPEED;
      && !r.allowAccel
      && Norm2(r.velocity) == speed * speed
      && Dot(r.velocity, Sub(position, k.otherPosition)) > 0.0
  {
    var speed := if c.kind == PlayerWithEnemy then k.otherMaxVelocity + ENEMY_KNOCKBACK_BONUS else CYST_KNOCKBACK_SPEED;
    KnockAwayMeets(lib, position, k.otherPosition, speed);
  }
}
