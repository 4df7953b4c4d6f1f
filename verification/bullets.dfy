/**
 * Firing: the fan of bullets one shot spawns, and each bullet's starting
 * position, velocity, damage and collision flags, all taken from the
 * shooter.
 *
 * The shooter's transform, motion and gun are passed in; which containers
 * hold the shooter is read from the registry. New bullet ids are handed
 * out consecutively from `next`, above every id in use.
 */
module Bullets {
  import opened Vectors
  import opened Common
  import opened Components
  import opened Registry
  import opened WorldInit

  // ---------------------------------------------------------------- the fan

  /** What one bullet of a fan has of its own: its size and its angle off the aim. */
  datatype Shot = Shot(scale: Vec2, offset: real)

  /** The two side bullets of a triple shot are this much off the aim, and this much smaller. */
  const TRIPLE_SPREAD: real := 0.21
  const TRIPLE_SIDE_SCALE: real := 0.8

  /**
   * The shots `createBullet` fires: ten in steps of a fifth of a half turn
   * with lots of bullets, which wins over the triple shot; three with the
   * triple shot, the side ones smaller; otherwise one straight ahead.
   */
  function Fan(lots: bool, triple: bool, scale: Vec2): (shots: seq<Shot>)
    ensures |shots| == (if lots then 10 else if triple then 3 else 1)
    ensures forall i :: 0 <= i < |shots| ==> -PI <= shots[i].offset <= PI
  {
    if lots then
      [Shot(scale, -PI / 5.0), Shot(scale, -2.0 * PI / 5.0), Shot(scale, -3.0 * PI / 5.0), Shot(scale, -4.0 * PI / 5.0),
       Shot(scale, PI / 5.0), Shot(scale, 2.0 * PI / 5.0), Shot(scale, 3.0 * PI / 5.0), Shot(scale, 4.0 * PI / 5.0),
       Shot(scale, 0.0), Shot(scale, PI)]
    else if triple then
      [Shot(Scale(scale, TRIPLE_SIDE_SCALE), -TRIPLE_SPREAD), Shot(scale, 0.0), Shot(Scale(scale, TRIPLE_SIDE_SCALE), TRIPLE_SPREAD)]
    else
      [Shot(scale, 0.0)]
  }

  /** No two bullets of a fan leave at the same angle. */
  lemma FanSpread(lots: bool, triple: bool, scale: Vec2)
    ensures var shots := Fan(lots, triple, scale);
      forall i, j :: 0 <= i < j < |shots| ==> shots[i].offset != shots[j].offset
  {
  }

  /**
   * A fan is symmetric about the aim: every bullet but the one fired
   * straight back has a twin of the same size mirrored across the aim.
   */
  lemma FanSymmetric(lots: bool, triple: bool, scale: Vec2, i: nat)
    requires i < |Fan(lots, triple, scale)| && Fan(lots, triple, scale)[i].offset != PI
    ensures var shots := Fan(lots, triple, scale);
      exists j :: 0 <= j < |shots| && shots[j] == Shot(shots[i].scale, -shots[i].offset)
  {
    var shots := Fan(lots, triple, scale);
    if lots {
      var twin := if i == 8 then 8 else if i < 4 then i + 4 else i - 4;
      assert shots[twin] == Shot(shots[i].scale, -shots[i].offset);
    } else if triple {
      assert shots[2 - i] == Shot(shots[i].scale, -shots[i].offset);
    } else {
      assert shots[0] == Shot(shots[i].scale, -shots[i].offset);
    }
  }

  // ---------------------------------------------------------------- one bullet

  /** The shooter's components a shot reads. */
  datatype Armed = Armed(transform: Transform, motion: Motion, gun: Gun)

  /** A new bullet's components, and the damage its projectile carries. */
  datatype Bullet = Bullet(transform: Transform, motion: Motion, color: Color, damage: real)

  /** `v` turned by `a` radians counter-clockwise. */
  function Rotated(lib: Libm, v: Vec2, a: real): Vec2
  {
    Vec2(lib.cos(a) * v.x - lib.sin(a) * v.y, lib.sin(a) * v.x + lib.cos(a) * v.y)
  }

  /**
   * Where a bullet starts: the shooter's transform, turned by its angle
   * and angle offset, then moved by the gun's offset, read at its origin.
   */
  function Muzzle(lib: Libm, t: Transform, g: Gun): Vec2
  {
    Origin(Translate(Rotate(lib, Translate(Identity, t.position), t.angle + t.angleOffset), g.offset))
  }

  /** The muzzle in closed form: the gun's offset, turned with the shooter, from the shooter's position. */
  function MuzzlePoint(lib: Libm, t: Transform, g: Gun): Vec2
  {
    Add(t.position, Rotated(lib, g.offset, t.angle + t.angleOffset))
  }

  /** The transform chain puts the muzzle at the closed-form point. */
  lemma MuzzleTurnsOffset(lib: Libm, t: Transform, g: Gun)
    ensures Muzzle(lib, t, g) == MuzzlePoint(lib, t, g)
  {
  }

  lemma RotatedSquares(c: real, s: real, x: real, y: real)
    ensures (c * x - s * y) * (c * x - s * y) + (s * x + c * y) * (s * x + c * y)
         == (s * s + c * c) * (x * x + y * y)
  {
  }

  /** Under the unit-circle law a turn keeps lengths. */
  lemma RotatedNorm(lib: Libm, v: Vec2, a: real)
    requires TrigLaw(lib)
    ensures Norm2(Rotated(lib, v, a)) == Norm2(v)
  {
    RotatedSquares(lib.cos(a), lib.sin(a), v.x, v.y);
    assert lib.sin(a) * lib.sin(a) + lib.cos(a) * lib.cos(a) == 1.0;
  }

  /** However the shooter is turned, its bullets start as far from it as the gun's offset is long. */
  lemma MuzzleDistance(lib: Libm, t: Transform, g: Gun)
    requires TrigLaw(lib)
    ensures Norm2(Sub(Muzzle(lib, t, g), t.position)) == Norm2(g.offset)
  {
    var a := t.angle + t.angleOffset;
    MuzzleTurnsOffset(lib, t, g);
    assert Sub(MuzzlePoint(lib, t, g), t.position) == Rotated(lib, g.offset, a);
    RotatedNorm(lib, g.offset, a);
  }

  /** The unit vector at angle `a`. */
  function Heading(lib: Libm, a: real): Vec2
  {
    Vec2(lib.cos(a), lib.sin(a))
  }

  /**
   * An enemy's bullet flies along the shooter's facing less the gun's
   * angle offset, at the gun's bullet speed. The fan offset plays no part.
   */
  function EnemyVelocity(lib: Libm, t: Transform, g: Gun): Vec2
  {
    Scale(Heading(lib, t.angle - g.angleOffset), g.bulletSpeed)
  }

  /** The direction a non-enemy's bullet flies: the facing, turned by the fan offset less the gun's. */
  function Aim(lib: Libm, t: Transform, g: Gun, offset: real): Vec2
  {
    Normalize(lib, Heading(lib, t.angle + offset - g.angleOffset))
  }

  /**
   * The part of the shooter's velocity a bullet keeps: the sideways part
   * across `dir`, cut down to the shooter's speed cap.
   */
  function Drift(lib: Libm, m: Motion, dir: Vec2): Vec2
  {
    ClampSpeed(lib, Sub(m.velocity, Scale(dir, Dot(m.velocity, dir))), m.maxVelocity)
  }

  /** A non-enemy's bullet: the gun's speed along the aim, plus the drift. */
  function ShooterVelocity(lib: Libm, t: Transform, m: Motion, g: Gun, offset: real): Vec2
  {
    var dir := Aim(lib, t, g, offset);
    Add(Scale(dir, g.bulletSpeed), Drift(lib, m, dir))
  }

  /**
   * `createBulletHelper` for one shot: the bullet starts at the muzzle with
   * the shot's size, unrotated, carries the gun's damage and the colour
   * given, and flies as an enemy's or a non-enemy's bullet does.
   */
  function NewBullet(lib: Libm, fromEnemy: bool, s: Armed, shot: Shot, color: Color): (b: Bullet)
    ensures b.transform.position == MuzzlePoint(lib, s.transform, s.gun)
    ensures b.transform.scale == shot.scale && b.transform.angle == 0.0
    ensures b.damage == s.gun.damage && b.color == color
    ensures fromEnemy ==> b.motion.velocity == EnemyVelocity(lib, s.transform, s.gun)
    ensures !fromEnemy ==> b.motion.velocity == ShooterVelocity(lib, s.transform, s.motion, s.gun, shot.offset)
  {
    var t := s.transform;
    var v := if fromEnemy then EnemyVelocity(lib, t, s.gun) else ShooterVelocity(lib, t, s.motion, s.gun, shot.offset);
    Bullet(DefaultTransform().(position := MuzzlePoint(lib, t, s.gun), scale := shot.scale, angle := 0.0),
           DefaultMotion().(velocity := v), color, s.gun.damage)
  }

  /** Under the unit-circle law an enemy's bullet flies exactly at the gun's bullet speed. */
  lemma EnemyBulletSpeed(lib: Libm, t: Transform, g: Gun)
    requires TrigLaw(lib)
    ensures Norm2(EnemyVelocity(lib, t, g)) == g.bulletSpeed * g.bulletSpeed
  {
    var h := Heading(lib, t.angle - g.angleOffset);
    ScaledNorm(h, g.bulletSpeed);
    assert lib.sin(t.angle - g.angleOffset) * lib.sin(t.angle - g.angleOffset)
      + lib.cos(t.angle - g.angleOffset) * lib.cos(t.angle - g.angleOffset) == 1.0;
    assert Norm2(h) == 1.0;
  }

  /** Every bullet of an enemy's fan flies the same way: the fan offset is ignored. */
  lemma EnemyFanParallel(lib: Libm, s: Armed, shot1: Shot, shot2: Shot, color: Color)
    ensures NewBullet(lib, true, s, shot1, color).motion.velocity == NewBullet(lib, true, s, shot2, color).motion.velocity
  {
  }

  /** Under both laws the aim is a unit vector. */
  lemma AimIsUnit(lib: Libm, t: Transform, g: Gun, offset: real)
    requires SqrtLaw(lib) && TrigLaw(lib)
    ensures Norm2(Aim(lib, t, g, offset)) == 1.0
  {
    var a := t.angle + offset - g.angleOffset;
    assert lib.sin(a) * lib.sin(a) + lib.cos(a) * lib.cos(a) == 1.0;
    assert Norm2(Heading(lib, a)) == 1.0;
    NormalizeIsUnit(lib, Heading(lib, a));
  }

  /** Taking away the part along a unit vector leaves a vector across it. */
  lemma RejectionAcross(v: Vec2, dir: Vec2)
    requires Norm2(dir) == 1.0
    ensures Dot(Sub(v, Scale(dir, Dot(v, dir))), dir) == 0.0
  {
    var p := Dot(v, dir);
    assert Dot(Sub(v, Scale(dir, p)), dir) == p - p * Norm2(dir);
  }

  /** Scaling a vector scales its dot product. */
  lemma DotScale(v: Vec2, k: real, w: Vec2)
    ensures Dot(Scale(v, k), w) == k * Dot(v, w)
  {
  }

  /** Clamping a vector across `dir` leaves it across `dir`. */
  lemma ClampAcross(lib: Libm, side: Vec2, dir: Vec2, limit: real)
    requires SqrtLaw(lib) && 0.0 <= limit && Dot(side, dir) == 0.0
    ensures Dot(ClampSpeed(lib, side, limit), dir) == 0.0
  {
    ClampSpeedBound(lib, side, limit);
    var k: real :| 0.0 <= k && ClampSpeed(lib, side, limit) == Scale(side, k);
    DotScale(side, k, dir);
  }

  /**
   * Against a unit direction the drift runs straight across it and is no
   * faster than the shooter's cap.
   */
  lemma DriftAcross(lib: Libm, m: Motion, dir: Vec2)
    requires SqrtLaw(lib) && Norm2(dir) == 1.0 && 0.0 <= m.maxVelocity
    ensures Dot(Drift(lib, m, dir), dir) == 0.0
    ensures Norm2(Drift(lib, m, dir)) <= m.maxVelocity * m.maxVelocity
  {
    var side := Sub(m.velocity, Scale(dir, Dot(m.velocity, dir)));
    RejectionAcross(m.velocity, dir);
    ClampAcross(lib, side, dir, m.maxVelocity);
    ClampSpeedBound(lib, side, m.maxVelocity);
  }

  /** The dot product with `dir` of a multiple of `dir` plus `d`. */
  lemma DotAlong(dir: Vec2, k: real, d: Vec2)
    ensures Dot(Add(Scale(dir, k), d), dir) == k * Norm2(dir) + Dot(d, dir)
  {
  }

  /**
   * A non-enemy's bullet moves along its aim at exactly the gun's bullet
   * speed; what else it has is the shooter's sideways drift, no faster
   * than the shooter's cap.
   */
  lemma ShooterBulletSpeed(lib: Libm, t: Transform, m: Motion, g: Gun, offset: real)
    requires SqrtLaw(lib) && TrigLaw(lib) && 0.0 <= m.maxVelocity
    ensures var dir := Aim(lib, t, g, offset);
      var v := ShooterVelocity(lib, t, m, g, offset);
      && Dot(v, dir) == g.bulletSpeed
      && Norm2(Sub(v, Scale(dir, g.bulletSpeed))) <= m.maxVelocity * m.maxVelocity
  {
    var dir := Aim(lib, t, g, offset);
    var d := Drift(lib, m, dir);
    AimIsUnit(lib, t, g, offset);
    DriftAcross(lib, m, dir);
    DotAlong(dir, g.bulletSpeed, d);
    assert Sub(Add(Scale(dir, g.bulletSpeed), d), Scale(dir, g.bulletSpeed)) == d;
  }

  /** A shooter standing still gives its bullets no drift: they fly at the gun's speed along the aim. */
  lemma StillShooterNoDrift(lib: Libm, t: Transform, m: Motion, g: Gun, offset: real)
    requires m.velocity == Zero
    ensures ShooterVelocity(lib, t, m, g, offset) == Scale(Aim(lib, t, g, offset), g.bulletSpeed)
  {
    var dir := Aim(lib, t, g, offset);
    assert Drift(lib, m, dir) == Zero by {
      assert Sub(m.velocity, Scale(dir, Dot(m.velocity, dir))) == Zero;
      ClampStill(lib, m.maxVelocity);
    }
  }

  /** A vector at rest stays at rest under the clamp. */
  lemma ClampStill(lib: Libm, limit: real)
    ensures ClampSpeed(lib, Zero, limit) == Zero
  {
    var c := ClampSpeed(lib, Zero, limit);
    var len := Length(lib, Zero);
    if len > limit && len != 0.0 {
      assert c.x * len == 0.0 && c.y * len == 0.0;
    }
  }

  // ---------------------------------------------------------------- the registry

  /** The containers every bullet joins, whoever fires it. */
  const BULLET_CONTAINERS: set<ContainerId> := {Transforms, Motions, Colors, Projectiles, RenderRequests}

  /** A bullet's containers: the common ones, and the collision flags its shooter has. */
  function BulletContainers(r: Registry, shooter: Entity): (cs: set<ContainerId>)
    ensures BULLET_CONTAINERS <= cs && Attachments !in cs
    ensures CollideEnemies in cs <==> Has(r, CollideEnemies, shooter)
    ensures CollidePlayers in cs <==> Has(r, CollidePlayers, shooter)
  {
    BULLET_CONTAINERS
      + (if Has(r, CollideEnemies, shooter) then {CollideEnemies} else {})
      + (if Has(r, CollidePlayers, shooter) then {CollidePlayers} else {})
  }

  /** Enrolling `e` puts it in exactly the existing containers of `cs` and touches no other id. */
  lemma EnrolHas(r: Registry, e: Entity, cs: set<ContainerId>, c: ContainerId, f: Entity)
    ensures Has(Enrol(r, e, cs), c, f) <==> Has(r, c, f) || (f == e && c in cs && c in r.members)
  {
  }

  /** Enrolling a new id outside the attachments keeps the registry well formed and the ids below the counter. */
  lemma EnrolValid(r: Registry, e: Entity, cs: set<ContainerId>)
    requires Valid(r) && IdsBelow(r, e) && Attachments !in cs
    ensures Valid(Enrol(r, e, cs)) && IdsBelow(Enrol(r, e, cs), e + 1)
  {
    assert Enrol(r, e, cs).members[Attachments] == r.members[Attachments];
  }

  /** The ids `next` to `next + n - 1`, in that order. */
  function Ids(next: Entity, n: nat): (ids: seq<Entity>)
    ensures |ids| == n && forall k :: 0 <= k < n ==> ids[k] == next + k
  {
    seq(n, k => next + k)
  }

  /** Enrol the ids `next` to `next + n - 1`, in that order, each in the containers `cs`. */
  function EnrolRange(r: Registry, next: Entity, n: nat, cs: set<ContainerId>): (r': Registry)
    ensures r'.attachments == r.attachments && r'.members.Keys == r.members.Keys
  {
    r.(members := map c | c in r.members :: if c in cs then r.members[c] + Ids(next, n) else r.members[c])
  }

  /** An empty range enrols nothing. */
  lemma EnrolRangeNone(r: Registry, next: Entity, cs: set<ContainerId>)
    ensures EnrolRange(r, next, 0, cs) == r
  {
    assert Ids(next, 0) == [];
    forall c | c in r.members
      ensures EnrolRange(r, next, 0, cs).members[c] == r.members[c]
    {
      assert r.members[c] + [] == r.members[c];
    }
    assert EnrolRange(r, next, 0, cs).members == r.members;
  }

  /** Enrolling a range one at a time: the range extended by one id is that id enrolled after the range. */
  lemma EnrolRangeStep(r: Registry, next: Entity, n: nat, cs: set<ContainerId>)
    ensures EnrolRange(r, next, n + 1, cs) == Enrol(EnrolRange(r, next, n, cs), next + n, cs)
  {
    var a := EnrolRange(r, next, n + 1, cs);
    var b := Enrol(EnrolRange(r, next, n, cs), next + n, cs);
    assert Ids(next, n + 1) == Ids(next, n) + [next + n];
    forall c | c in r.members
      ensures a.members[c] == b.members[c]
    {
      if c in cs {
        assert r.members[c] + Ids(next, n + 1) == (r.members[c] + Ids(next, n)) + [next + n];
      }
    }
    assert a.members == b.members;
  }

  /** After enrolling a range, an id is in a container iff it was, or it is new and the container is one of `cs`. */
  lemma EnrolRangeHas(r: Registry, next: Entity, n: nat, cs: set<ContainerId>, c: ContainerId, f: Entity)
    ensures Has(EnrolRange(r, next, n, cs), c, f)
        <==> Has(r, c, f) || (next <= f < next + n && c in cs && c in r.members)
  {
    if c in r.members && c in cs && next <= f < next + n {
      assert Ids(next, n)[f - next] == f;
      assert EnrolRange(r, next, n, cs).members[c][|r.members[c]| + (f - next)] == f;
    }
  }

  /** Enrolling a range of new ids keeps the registry well formed, with the counter past the range. */
  lemma {:induction false} EnrolRangeValid(r: Registry, next: Entity, n: nat, cs: set<ContainerId>)
    requires Valid(r) && IdsBelow(r, next) && Attachments !in cs
    ensures Valid(EnrolRange(r, next, n, cs)) && IdsBelow(EnrolRange(r, next, n, cs), next + n)
  {
    if n > 0 {
      EnrolRangeValid(r, next, n - 1, cs);
      EnrolValid(EnrolRange(r, next, n - 1, cs), next + n - 1, cs);
      EnrolRangeStep(r, next, n - 1, cs);
    }
  }

  /** Enrolling ids from `next` up leaves a shooter below `next` as it was. */
  lemma ShooterKept(r: Registry, next: Entity, n: nat, cs: set<ContainerId>, shooter: Entity)
    requires IdsBelow(r, next) && Has(r, Transforms, shooter) && Has(r, Guns, shooter)
    ensures var r' := EnrolRange(r, next, n, cs);
      && Has(r', Transforms, shooter) && Has(r', Guns, shooter)
      && Has(r', Enemies, shooter) == Has(r, Enemies, shooter)
      && Has(r', CollideEnemies, shooter) == Has(r, CollideEnemies, shooter)
      && Has(r', CollidePlayers, shooter) == Has(r, CollidePlayers, shooter)
  {
    assert shooter < next;
    EnrolRangeHas(r, next, n, cs, Transforms, shooter);
    EnrolRangeHas(r, next, n, cs, Guns, shooter);
    EnrolRangeHas(r, next, n, cs, Enemies, shooter);
    EnrolRangeHas(r, next, n, cs, CollideEnemies, shooter);
    EnrolRangeHas(r, next, n, cs, CollidePlayers, shooter);
  }

  /**
   * One step of a shot: against the registry the earlier bullets left, the
   * shooter still has its gun, and the next bullet enrols in the same
   * containers as the first one did.
   */
  lemma BulletStep(r: Registry, next: Entity, n: nat, shooter: Entity)
    requires IdsBelow(r, next) && Has(r, Transforms, shooter) && Has(r, Guns, shooter)
    ensures var cs := BulletContainers(r, shooter);
      var r' := EnrolRange(r, next, n, cs);
      && Has(r', Transforms, shooter) && Has(r', Guns, shooter)
      && Has(r', Enemies, shooter) == Has(r, Enemies, shooter)
      && Enrol(r', next + n, BulletContainers(r', shooter)) == EnrolRange(r, next, n + 1, cs)
  {
    var cs := BulletContainers(r, shooter);
    ShooterKept(r, next, n, cs, shooter);
    assert BulletContainers(EnrolRange(r, next, n, cs), shooter) == cs;
    EnrolRangeStep(r, next, n, cs);
  }

  /**
   * The loop of `createBullet`: one bullet per shot, with ids from `next`
   * up, each enrolled the way `createBulletHelper` enrols it, against the
   * registry as the bullets before it left it. A bullet's components
   * depend on the registry only through the shooter's enemy flag, which
   * no earlier bullet changes (`BulletStep`), so they are built from `r`.
   */
  method FireShots(lib: Libm, r: Registry, shooter: Entity, s: Armed, next: Entity, shots: seq<Shot>, color: Color)
    returns (r': Registry, bullets: seq<Bullet>)
    requires IdsBelow(r, next)
    requires Has(r, Transforms, shooter) && Has(r, Guns, shooter)
    ensures |bullets| == |shots|
    ensures forall i :: 0 <= i < |shots| ==> bullets[i] == NewBullet(lib, Has(r, Enemies, shooter), s, shots[i], color)
    ensures r' == EnrolRange(r, next, |shots|, BulletContainers(r, shooter))
  {
    ghost var cs := BulletContainers(r, shooter);
    var enemy := Has(r, Enemies, shooter);
    bullets := seq(|shots|, k requires 0 <= k < |shots| => NewBullet(lib, enemy, s, shots[k], color));
    r' := r;
    var i := 0;
    EnrolRangeNone(r, next, cs);
    while i < |shots|
      invariant 0 <= i <= |shots|
      invariant r' == EnrolRange(r, next, i, cs)
    {
      BulletStep(r, next, i, shooter);
      r' := Enrol(r', next + i, BulletContainers(r', shooter));
      i := i + 1;
    }
  }

  /**
   * `createBullet`: the shooter's fan of shots, fired with ids from `next` up.
   */
  method CreateBullet(lib: Libm, r: Registry, shooter: Entity, s: Armed, next: Entity, scale: Vec2, color: Color)
    returns (r': Registry, bullets: seq<Bullet>)
    requires IdsBelow(r, next)
    requires Has(r, Transforms, shooter) && Has(r, Guns, shooter)
    ensures |bullets| == (if Has(r, LotsOfBullets, shooter) then 10 else if Has(r, TripleBullets, shooter) then 3 else 1)
    ensures forall i :: 0 <= i < |bullets| ==>
      bullets[i] == NewBullet(lib, Has(r, Enemies, shooter), s,
                              Fan(Has(r, LotsOfBullets, shooter), Has(r, TripleBullets, shooter), scale)[i], color)
    ensures forall i :: 0 <= i < |bullets| ==> bullets[i].damage == s.gun.damage
    ensures r' == EnrolRange(r, next, |bullets|, BulletContainers(r, shooter))
  {
    var shots := Fan(Has(r, LotsOfBullets, shooter), Has(r, TripleBullets, shooter), scale);
    r', bullets := FireShots(lib, r, shooter, s, next, shots, color);
  }

  /**
   * What a shot leaves in the registry: it stays well formed, every new
   * bullet is a projectile with a transform and a motion, and collides
   * with enemies or players exactly when its shooter does; no id below
   * `next` changes containers.
   */
  lemma BulletsInherit(r: Registry, shooter: Entity, next: Entity, n: nat)
    requires Valid(r) && IdsBelow(r, next)
    ensures var r' := EnrolRange(r, next, n, BulletContainers(r, shooter));
      && Valid(r') && IdsBelow(r', next + n)
      && (forall f: Entity :: next <= f < next + n ==>
            && Has(r', Projectiles, f) && Has(r', Transforms, f) && Has(r', Motions, f)
            && (Has(r', CollideEnemies, f) <==> Has(r, CollideEnemies, shooter))
            && (Has(r', CollidePlayers, f) <==> Has(r, CollidePlayers, shooter)))
      && (forall c, f: Entity :: f < next ==> (Has(r', c, f) <==> Has(r, c, f)))
  {
    var cs := BulletContainers(r, shooter);
    EnrolRangeValid(r, next, n, cs);
    forall c, f: Entity
      ensures Has(EnrolRange(r, next, n, cs), c, f) <==> Has(r, c, f) || (next <= f < next + n && c in cs)
    {
      EnrolRangeHas(r, next, n, cs, c, f);
    }
  }
}
