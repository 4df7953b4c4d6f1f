/**
 * The entity-component data model: identifiers, the enumerations the
 * simulation branches on, and one record per component, each with the
 * default values a freshly emplaced component starts from.
 */
module Components {
  import opened Vectors
  import opened Common
  import opened Wrappers

  /** An entity is a bare identifier; its data lives in the containers. */
  type Entity = nat

  datatype CollisionType =
    | WithBoundary | PlayerWithEnemy | PlayerWithCyst | PlayerWithChest | PlayerWithCure
    | PlayerWithRegionBoundary | EnemyWithEnemy | BulletWithEnemy | BulletWithPlayer
    | BulletWithBullet | BulletWithBoundary | BulletWithCyst | SwordWithEnemy | SwordWithCyst

  /** The enumerator's integer value. */
  function CollisionCode(t: CollisionType): (r: nat)
    ensures r < 14
    ensures t == WithBoundary <==> r == 0
    ensures t == SwordWithCyst <==> r == 13
  {
    match t
    case WithBoundary => 0
    case PlayerWithEnemy => 1
    case PlayerWithCyst => 2
    case PlayerWithChest => 3
    case PlayerWithCure => 4
    case PlayerWithRegionBoundary => 5
    case EnemyWithEnemy => 6
    case BulletWithEnemy => 7
    case BulletWithPlayer => 8
    case BulletWithBullet => 9
    case BulletWithBoundary => 10
    case BulletWithCyst => 11
    case SwordWithEnemy => 12
    case SwordWithCyst => 13
  }

  const CollisionTypes: seq<CollisionType> :=
    [WithBoundary, PlayerWithEnemy, PlayerWithCyst, PlayerWithChest, PlayerWithCure,
     PlayerWithRegionBoundary, EnemyWithEnemy, BulletWithEnemy, BulletWithPlayer,
     BulletWithBullet, BulletWithBoundary, BulletWithCyst, SwordWithEnemy, SwordWithCyst]

  /** The fourteen kinds are exactly the codes 0 to 13, each used once. */
  lemma CollisionCodesEnumerate()
    ensures |CollisionTypes| == 14
    ensures forall i :: 0 <= i < |CollisionTypes| ==> CollisionCode(CollisionTypes[i]) == i
    ensures forall t: CollisionType :: CollisionTypes[CollisionCode(t)] == t
    ensures forall s: CollisionType, t: CollisionType :: CollisionCode(s) == CollisionCode(t) ==> s == t
  {
    forall t: CollisionType ensures CollisionTypes[CollisionCode(t)] == t {
      match t
      case WithBoundary =>
      case PlayerWithEnemy =>
      case PlayerWithCyst =>
      case PlayerWithChest =>
      case PlayerWithCure =>
      case PlayerWithRegionBoundary =>
      case EnemyWithEnemy =>
      case BulletWithEnemy =>
      case BulletWithPlayer =>
      case BulletWithBullet =>
      case BulletWithBoundary =>
      case BulletWithCyst =>
      case SwordWithEnemy =>
      case SwordWithCyst =>
    }
    forall s: CollisionType, t: CollisionType | CollisionCode(s) == CollisionCode(t) ensures s == t {
      assert CollisionTypes[CollisionCode(s)] == s;
      assert CollisionTypes[CollisionCode(t)] == t;
    }
  }

  /** ATTACHMENT_ID: DASHING, SWORD, GUN and BACTERIOPHAGE_ARM. */
  datatype AttachmentId = DashingPart | SwordPart | GunPart | ArmPart

  datatype CystEffectId = Damage | Heal | ClearScreen | Triple | Lots | Slow | Fov | Direction | NoAttack

  const CYST_EFFECT_COUNT: nat := 9
  /** Codes below this are the positive effects, the rest the negative ones. */
  const CYST_NEG_START: nat := 5

  function EffectCode(e: CystEffectId): (r: nat)
    ensures r < CYST_EFFECT_COUNT
  {
    match e
    case Damage => 0
    case Heal => 1
    case ClearScreen => 2
    case Triple => 3
    case Lots => 4
    case Slow => 5
    case Fov => 6
    case Direction => 7
    case NoAttack => 8
  }

  /** `static_cast<CYST_EFFECT_ID>(n)` for the codes that name an effect. */
  function EffectOfCode(n: nat): (r: Option<CystEffectId>)
    ensures r.Some? <==> n < CYST_EFFECT_COUNT
    ensures r.Some? ==> EffectCode(r.value) == n
  {
    if n == 0 then Some(Damage)
    else if n == 1 then Some(Heal)
    else if n == 2 then Some(ClearScreen)
    else if n == 3 then Some(Triple)
    else if n == 4 then Some(Lots)
    else if n == 5 then Some(Slow)
    else if n == 6 then Some(Fov)
    else if n == 7 then Some(Direction)
    else if n == 8 then Some(NoAttack)
    else None
  }

  /** Decoding an effect's code gives the effect back. */
  lemma EffectCodeRoundTrip(e: CystEffectId)
    ensures EffectOfCode(EffectCode(e)) == Some(e)
  {
  }

  predicate IsPositive(e: CystEffectId) { EffectCode(e) < CYST_NEG_START }

  datatype EnemyId = Boss | BossArm | FriendBoss | FriendBossClone | Green | Red | Yellow
  /** BOSS_ID; `NoBoss` is BOSS_COUNT, which a region without a boss holds. */
  datatype BossId = Bacteriophage | Friend | NoBoss

  datatype RegionTheme = Nervous | Respiratory | Urinary | Muscular | Skeletal | Cutaneous
  datatype RegionGoal = Cure | CancerCell | SwordAttack | MultipleBullets | HealthBoost | DashGoal

  const REGION_THEME_COUNT: nat := 6
  const REGION_GOAL_COUNT: nat := 6

  datatype Transform = Transform(
    position: Vec2, scale: Vec2, angle: real, isScreenCoord: bool, angleOffset: real)

  /** A default `Transform`: at the origin, square 10 by 10, unrotated. */
  function DefaultTransform(): (r: Transform)
    ensures r.scale.x == r.scale.y > 0.0
    ensures r.position == Zero && r.angle == 0.0 && r.angleOffset == 0.0
  {
    Transform(Zero, Vec2(10.0, 10.0), 0.0, false, 0.0)
  }

  datatype Motion = Motion(
    velocity: Vec2, angularVelocity: real, force: Vec2,
    maxVelocity: real, maxAngularVelocity: real,
    accelerationUnit: real, decelerationUnit: real, allowAccel: bool)

  /** A default `Motion`: at rest, 400 px/s and 2 pi rad/s caps, decaying by 0.995. */
  function DefaultMotion(): (r: Motion)
    ensures r.velocity == Zero && r.force == Zero && r.angularVelocity == 0.0
    ensures r.maxVelocity == 400.0 && r.maxAngularVelocity == 2.0 * PI
    ensures 0.0 < r.decelerationUnit < 1.0 && r.accelerationUnit == 1.0
    ensures r.allowAccel
  {
    Motion(Zero, 0.0, Zero, 400.0, 2.0 * PI, 1.0, 0.995, true)
  }

  /**
   * An attachment hangs from `parent` through `relative1`, a rotation by
   * `movedAngle`, then `relative2`.
   */
  datatype Attachment = Attachment(
    kind: AttachmentId, parent: Entity,
    relative1: Mat3, movedAngle: real, relative2: Mat3,
    angleOffset: real, angleFreedom: real)

  /** A freshly emplaced attachment: identity transforms and no freedom to move. */
  function NewAttachment(kind: AttachmentId, parent: Entity): (r: Attachment)
    ensures r.kind == kind && r.parent == parent
    ensures r.relative1 == Identity && r.relative2 == Identity
    ensures r.movedAngle == 0.0 && r.angleOffset == 0.0 && r.angleFreedom == 0.0
  {
    Attachment(kind, parent, Identity, 0.0, Identity, 0.0, 0.0)
  }

  /**
   * A collision event stored under its first entity. `knockback` is only
   * set by the region-boundary constructor; elsewhere it is zero.
   */
  datatype Collision = Collision(kind: CollisionType, other: Option<Entity>, knockback: Vec2)

  function CollisionWith(kind: CollisionType, other: Entity): (r: Collision)
    ensures r.kind == kind && r.other == Some(other)
  {
    Collision(kind, Some(other), Zero)
  }

  /**
   * The constructor without a second entity; the source asserts that the
   * kind is one of the two boundary kinds, and the model yields `None`
   * where that assertion would fail.
   */
  function CollisionAlone(kind: CollisionType): (r: Option<Collision>)
    ensures r.Some? <==> kind == WithBoundary || kind == BulletWithBoundary
    ensures r.Some? ==> r.value.kind == kind && r.value.other == None
  {
    if kind == WithBoundary || kind == BulletWithBoundary then Some(Collision(kind, None, Zero)) else None
  }

  function CollisionKnockback(kind: CollisionType, dir: Vec2): (r: Collision)
    ensures r.kind == kind && r.knockback == dir && r.other == None
  {
    Collision(kind, None, dir)
  }

  datatype Dash = Dash(
    delayDurationMs: real, delayTimerMs: real,
    activeDurationMs: real, activeTimerMs: real, maxDashVelocity: real)

  /** A default `Dash`: both timers at zero, so not dashing and ready to dash. */
  function DefaultDash(): (r: Dash)
    ensures !IsDashing(r) && r.delayTimerMs == 0.0
    ensures r.delayDurationMs == PLAYER_DASH_DELAY && r.activeDurationMs == 100.0
  {
    Dash(PLAYER_DASH_DELAY, 0.0, 100.0, 0.0, 2000.0)
  }

  /** A dash is in progress while its active timer is positive. */
  predicate IsDashing(d: Dash) { d.activeTimerMs > 0.0 }

  datatype Color = Color(r: real, g: real, b: real, a: real)

  datatype Gun = Gun(
    damage: real, attackTimer: real, attackDelay: real, angleOffset: real,
    bulletSpeed: real, bulletColor: Color, bulletSize: Vec2, offset: Vec2)

  function DefaultGun(): (r: Gun)
    ensures r.attackTimer == 0.0 && r.attackDelay == PLAYER_ATTACK_DELAY
    ensures r.damage == 10.0 && r.bulletSpeed == 500.0
  {
    Gun(10.0, 0.0, PLAYER_ATTACK_DELAY, 0.0, 500.0, Color(1.0, 1.2, 0.2, 1.0), Vec2(10.0, 10.0), Zero)
  }

  datatype Melee = Melee(
    meleeEntity: Entity, damage: real, attackTimer: real, animationTimer: real, attackDelay: real)

  datatype Animation = Animation(
    totalFrame: int, currFrame: int, timerMs: real, updatePeriodMs: int,
    paused: bool, loopInterval: real)

  datatype Health = Health(health: real, maxHealth: real)

  datatype Enemy = Enemy(kind: EnemyId, swordAttackCd: real)

  datatype Region = Region(
    theme: RegionTheme, goal: RegionGoal, boss: BossId, isCleared: bool, interestPoint: Vec2)

  /** A timer and what happens when it runs out; callbacks are data of type `C`. */
  datatype TimedEvent<C> = TimedEvent(timerMs: real, callback: C)

  const DEFAULT_EVENT_TIMER_MS: real := 10000.0
}
