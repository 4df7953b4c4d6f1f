/**
 * Construction of attachments: the gun, the sword and the dash trail hung
 * from one holder, and the six three-part arms of the bacteriophage boss.
 *
 * A new entity is a fresh id: in no container and no attachment's key.
 * The arm ids are consecutive from `next`, above every id already in use,
 * as the source's id counter hands them out.
 */
module WorldInit {
  import opened Vectors
  import opened Common
  import opened Components
  import opened Registry
  import opened Forest
  import opened Articulation

  /** `e` is a new id: no container holds it and it has no attachment. */
  predicate Fresh(r: Registry, e: Entity)
  {
    (forall c :: c in r.members ==> e !in r.members[c]) && e !in r.attachments
  }

  /** Add `e` to container `c` unless it is already there (`emplace` on a holder). */
  function Ensure(r: Registry, c: ContainerId, e: Entity): (r': Registry)
    ensures r'.attachments == r.attachments
    ensures c in r.members ==> Has(r', c, e)
  {
    if c in r.members && e !in r.members[c] then r.(members := r.members[c := r.members[c] + [e]]) else r
  }

  /**
   * Emplace the new entity `e` in every container of `cs`: each of them
   * that exists gets `e` at its end, and the rest are untouched.
   */
  function Enrol(r: Registry, e: Entity, cs: set<ContainerId>): (r': Registry)
    ensures r'.attachments == r.attachments && r'.members.Keys == r.members.Keys
  {
    r.(members := map c | c in r.members :: if c in cs then r.members[c] + [e] else r.members[c])
  }

  /**
   * Emplace the new entity `e` as attachment `a`: it joins the attachment
   * container and every container in `cs`, in that order of entities.
   */
  function Hang(r: Registry, e: Entity, a: Attachment, cs: set<ContainerId>): (r': Registry)
    ensures r'.attachments == r.attachments[e := a]
  {
    Enrol(r, e, cs + {Attachments}).(attachments := r.attachments[e := a])
  }

  /** Hanging a fresh entity keeps the registry well formed. */
  lemma HangValid(r: Registry, e: Entity, a: Attachment, cs: set<ContainerId>)
    requires Valid(r) && Fresh(r, e)
    ensures Valid(Hang(r, e, a, cs))
  {
    var r' := Hang(r, e, a, cs);
    var xs := r.members[Attachments];
    assert r'.members[Attachments] == xs + [e];
    assert Distinct(xs + [e]) by {
      forall i, j | 0 <= i < j < |xs| + 1 ensures (xs + [e])[i] != (xs + [e])[j] {
        if j == |xs| {
          assert (xs + [e])[i] == xs[i];
        } else {
          assert (xs + [e])[i] == xs[i] && (xs + [e])[j] == xs[j];
        }
      }
    }
  }

  /**
   * Hanging `e` below `parent` with a rank under the parent's keeps the
   * forest ranked, and puts `e` in the parent's subtree: removing the
   * parent removes the new attachment too.
   */
  lemma HangRanked(r: Registry, rank: Entity -> nat, e: Entity, a: Attachment, cs: set<ContainerId>)
    requires Ranked(r, rank) && rank(e) < rank(a.parent)
    ensures Ranked(Hang(r, e, a, cs), rank)
    ensures Below(Hang(r, e, a, cs), rank, e, a.parent)
    ensures e in Subtree(Hang(r, e, a, cs), rank, a.parent)
  {
    var r' := Hang(r, e, a, cs);
    assert Below(r', rank, a.parent, a.parent);
  }

  /** One call on a `Transformation`: each post-multiplies the matrix. */
  datatype TransformStep = TranslateBy(offset: Vec2) | RotateBy(radians: real) | ScaleTo(factors: Vec2)

  /** The matrix a default `Transformation` holds after the given calls, in order. */
  function Compose(lib: Libm, steps: seq<TransformStep>): Mat3
    decreases |steps|
  {
    if steps == [] then Identity
    else
      var m := Compose(lib, steps[..|steps| - 1]);
      match steps[|steps| - 1]
      case TranslateBy(v) => Translate(m, v)
      case RotateBy(a) => Rotate(lib, m, a)
      case ScaleTo(f) => ScaleBy(m, f)
  }

  /** The determinant each call multiplies in: one for translations and rotations. */
  function StepDet(step: TransformStep): real
  {
    match step
    case ScaleTo(f) => f.x * f.y
    case _ => 1.0
  }

  function DetOf(steps: seq<TransformStep>): real
    decreases |steps|
  {
    if steps == [] then 1.0 else DetOf(steps[..|steps| - 1]) * StepDet(steps[|steps| - 1])
  }

  /**
   * With sine and cosine on the unit circle, the composed matrix's
   * determinant is the product of the scale factors: only a scale with
   * factors of opposite sign can mirror an attachment.
   */
  lemma {:induction false} ComposeDet(lib: Libm, steps: seq<TransformStep>)
    requires TrigLaw(lib)
    ensures Det(Compose(lib, steps)) == DetOf(steps)
    decreases |steps|
  {
    if steps != [] {
      var m := Compose(lib, steps[..|steps| - 1]);
      ComposeDet(lib, steps[..|steps| - 1]);
      match steps[|steps| - 1]
      case TranslateBy(v) =>
      case RotateBy(a) =>
        RotationDet(lib, a);
        DetMul(m, RotationMatrix(lib, a));
      case ScaleTo(f) =>
    }
  }

  // ---------------------------------------------------------------------
  // Single-level attachments
  // ---------------------------------------------------------------------

  const IMMUNITY_TEXTURE_ANGLE: real := -PI / 4.0
  const GUN_TEXTURE_SIZE := Vec2(128.0, 24.0)
  const DASHING_TEXTURE_SIZE := Vec2(1024.0, 128.0)
  const SWORD_SIZE := Vec2(200.0, 200.0)

  /** The containers each new attachment joins besides the attachment container. */
  const GUN_CONTAINERS: set<ContainerId> := {Transforms, Motions, Colors, RenderRequests}
  const SWORD_CONTAINERS: set<ContainerId> := {MeshPtrs, CollideEnemies, Transforms, Motions, Colors, RenderRequests}
  const DASHING_CONTAINERS: set<ContainerId> := {Animations, Transforms, Motions, Colors, RenderRequests}

  /** The holder's gun: damage 10, 1400 px/s bullets of 15 by 15, muzzle at (40, 50). */
  function HolderGun(): (g: Gun)
    ensures g.attackTimer == 0.0 && g.attackDelay == PLAYER_ATTACK_DELAY
    ensures g.angleOffset == IMMUNITY_TEXTURE_ANGLE && g.bulletSpeed == 1400.0 && g.damage == 10.0
  {
    DefaultGun().(angleOffset := IMMUNITY_TEXTURE_ANGLE, offset := Vec2(40.0, 50.0),
                  bulletSpeed := 1400.0, bulletSize := Vec2(15.0, 15.0), damage := 10.0)
  }

  /** The calls that place the gun: to the hand, then a quarter turn past the sprite's angle. */
  const GUN_PLACEMENT: seq<TransformStep> := [TranslateBy(Vec2(40.0, -15.0)), RotateBy(IMMUNITY_TEXTURE_ANGLE + PI / 2.0)]
  const GUN_SPRITE: seq<TransformStep> := [ScaleTo(Vec2(GUN_TEXTURE_SIZE.x * 0.5, GUN_TEXTURE_SIZE.y * 1.0))]
  /** The sword faces forward, sits in the hand, and leans towards the body. */
  const SWORD_PLACEMENT: seq<TransformStep> := [RotateBy(PI - PI / 4.0), TranslateBy(Vec2(15.0, -20.0)), RotateBy(-PI / 12.0)]
  /** The sword's pivot moves to its handle. */
  const SWORD_SPRITE: seq<TransformStep> := [ScaleTo(SWORD_SIZE), TranslateBy(Vec2(-0.29, -0.39))]
  /** One frame of the eight-frame dash sheet. */
  const DASHING_SPRITE: seq<TransformStep> := [ScaleTo(Vec2(DASHING_TEXTURE_SIZE.x / 8.0, DASHING_TEXTURE_SIZE.y / 1.0))]

  function GunAttachment(lib: Libm, holder: Entity): (a: Attachment)
    ensures a.parent == holder && a.kind == GunPart && a.angleFreedom == 0.0 && a.angleOffset == 0.0
    ensures a.relative1 == Compose(lib, GUN_PLACEMENT) && a.relative2 == Compose(lib, GUN_SPRITE)
  {
    NewAttachment(GunPart, holder).(relative1 := Compose(lib, GUN_PLACEMENT), relative2 := Compose(lib, GUN_SPRITE))
  }

  function SwordAttachment(lib: Libm, holder: Entity): (a: Attachment)
    ensures a.parent == holder && a.kind == SwordPart && a.angleFreedom == PI / 2.0 && a.angleOffset == 0.0
    ensures a.relative1 == Compose(lib, SWORD_PLACEMENT) && a.relative2 == Compose(lib, SWORD_SPRITE)
  {
    NewAttachment(SwordPart, holder).(relative1 := Compose(lib, SWORD_PLACEMENT),
                                      relative2 := Compose(lib, SWORD_SPRITE), angleFreedom := PI / 2.0)
  }

  function DashingAttachment(lib: Libm, dasher: Entity): (a: Attachment)
    ensures a.parent == dasher && a.kind == DashingPart && a.angleFreedom == 0.0 && a.angleOffset == 0.0
    ensures a.relative1 == Identity && a.relative2 == Compose(lib, DASHING_SPRITE)
  {
    NewAttachment(DashingPart, dasher).(relative2 := Compose(lib, DASHING_SPRITE))
  }

  /** The sword's motion turns at most 5 pi rad/s; the others keep the default motion. */
  function SwordMotion(): (m: Motion)
    ensures m.maxAngularVelocity == 5.0 * PI && m.velocity == Zero
  {
    DefaultMotion().(maxAngularVelocity := 5.0 * PI)
  }

  /** The dash trail's eight-frame sprite sheet, advanced every 50 ms. */
  function DashingAnimation(): (a: Animation)
    ensures a.totalFrame == 8 && a.updatePeriodMs == 50 && a.currFrame == 0 && !a.paused
  {
    Animation(8, 0, 0.0, 50, false, 0.0)
  }

  /**
   * `createGun`: the holder gets a gun; the new entity `gun` hangs from
   * it, rotated a quarter turn past the sprite's angle and not articulated.
   */
  function CreateGun(lib: Libm, r: Registry, holder: Entity, gun: Entity): (r': Registry)
    ensures Has(r', Guns, holder) || Guns !in r.members
    ensures gun in r'.attachments && r'.attachments[gun].parent == holder && r'.attachments[gun].kind == GunPart
    ensures r'.attachments[gun].angleFreedom == 0.0 && r'.attachments[gun].angleOffset == 0.0
    ensures forall f :: f != gun ==> (f in r'.attachments <==> f in r.attachments)
  {
    Hang(Ensure(r, Guns, holder), gun, GunAttachment(lib, holder), GUN_CONTAINERS)
  }

  /**
   * `createSword`: the holder becomes a melee fighter; the sword hangs
   * from it, collides with enemies and swings up to a quarter turn.
   */
  function CreateSword(lib: Libm, r: Registry, holder: Entity, sword: Entity): (r': Registry)
    ensures Has(r', Melees, holder) || Melees !in r.members
    ensures Has(r', CollideEnemies, sword) || CollideEnemies !in r.members
    ensures sword in r'.attachments && r'.attachments[sword].parent == holder && r'.attachments[sword].kind == SwordPart
    ensures r'.attachments[sword].angleFreedom == PI / 2.0 && r'.attachments[sword].angleOffset == 0.0
    ensures forall f :: f != sword ==> (f in r'.attachments <==> f in r.attachments)
  {
    Hang(Ensure(r, Melees, holder), sword, SwordAttachment(lib, holder), SWORD_CONTAINERS)
  }

  /** `createDashing`: the dasher can dash; the trail hangs from it without articulation. */
  function CreateDashing(lib: Libm, r: Registry, dasher: Entity, trail: Entity): (r': Registry)
    ensures Has(r', Dashes, dasher) || Dashes !in r.members
    ensures Has(r', Animations, trail) || Animations !in r.members
    ensures trail in r'.attachments && r'.attachments[trail].parent == dasher && r'.attachments[trail].kind == DashingPart
    ensures r'.attachments[trail].angleFreedom == 0.0 && r'.attachments[trail].angleOffset == 0.0
    ensures forall f :: f != trail ==> (f in r'.attachments <==> f in r.attachments)
  {
    Hang(Ensure(r, Dashes, dasher), trail, DashingAttachment(lib, dasher), DASHING_CONTAINERS)
  }

  /**
   * Each creator keeps a well-formed, ranked registry well formed and
   * ranked when the new entity is fresh and ranks below its holder, and
   * the new entity is in the holder's subtree, so removing the holder
   * removes it.
   */
  lemma SingleLevelAttachmentsHang(lib: Libm, r: Registry, rank: Entity -> nat, holder: Entity, e: Entity)
    requires Valid(r) && Ranked(r, rank) && Fresh(r, e) && rank(e) < rank(holder)
    ensures Valid(CreateGun(lib, r, holder, e)) && Ranked(CreateGun(lib, r, holder, e), rank)
    ensures Valid(CreateSword(lib, r, holder, e)) && Ranked(CreateSword(lib, r, holder, e), rank)
    ensures Valid(CreateDashing(lib, r, holder, e)) && Ranked(CreateDashing(lib, r, holder, e), rank)
    ensures e in Subtree(CreateGun(lib, r, holder, e), rank, holder)
    ensures e in Subtree(CreateSword(lib, r, holder, e), rank, holder)
    ensures e in Subtree(CreateDashing(lib, r, holder, e), rank, holder)
  {
    HolderHangs(r, rank, Guns, holder, e, GunAttachment(lib, holder), GUN_CONTAINERS);
    HolderHangs(r, rank, Melees, holder, e, SwordAttachment(lib, holder), SWORD_CONTAINERS);
    HolderHangs(r, rank, Dashes, holder, e, DashingAttachment(lib, holder), DASHING_CONTAINERS);
  }

  lemma HolderHangs(r: Registry, rank: Entity -> nat, c: ContainerId, holder: Entity, e: Entity,
                    a: Attachment, cs: set<ContainerId>)
    requires c != Attachments && Valid(r) && Ranked(r, rank) && Fresh(r, e) && rank(e) < rank(holder) && a.parent == holder
    ensures Valid(Hang(Ensure(r, c, holder), e, a, cs)) && Ranked(Hang(Ensure(r, c, holder), e, a, cs), rank)
    ensures e in Subtree(Hang(Ensure(r, c, holder), e, a, cs), rank, holder)
  {
    var r0 := Ensure(r, c, holder);
    assert e != holder;
    assert Valid(r0) && Fresh(r0, e) by {
      if c in r.members && holder !in r.members[c] {
        assert r0.members[c] == r.members[c] + [holder];
      }
    }
    HangValid(r0, e, a, cs);
    HangRanked(r0, rank, e, a, cs);
  }

  /**
   * The gun and the dash trail are never given freedom or a rest angle, so
   * the joint clamp pins them straight whatever the swing; the sword's
   * joint stays within a quarter turn.
   */
  lemma FixedAttachmentsStayStraight(lib: Libm, holder: Entity, swing: real)
    ensures Clamped(GunAttachment(lib, holder), swing) == 0.0
    ensures Clamped(DashingAttachment(lib, holder), swing) == 0.0
    ensures Abs(Clamped(SwordAttachment(lib, holder), swing)) <= PI / 2.0
  {
    NoFreedomStaysStraight(GunAttachment(lib, holder), swing);
    NoFreedomStaysStraight(DashingAttachment(lib, holder), swing);
  }

  /** None of the single-level attachments is mirrored: their transforms keep orientation. */
  lemma SingleLevelNotFlipped()
    ensures DetOf(GUN_PLACEMENT) == 1.0 && DetOf(GUN_SPRITE) > 0.0
    ensures DetOf(SWORD_PLACEMENT) == 1.0 && DetOf(SWORD_SPRITE) > 0.0
    ensures DetOf(DASHING_SPRITE) > 0.0
  {
    DetOfUnscaled(GUN_PLACEMENT);
    DetOfUnscaled(SWORD_PLACEMENT);
    assert DetOf(GUN_SPRITE) == 64.0 * 24.0;
    DetOfTwo(SWORD_SIZE, Vec2(-0.29, -0.39));
    assert DetOf(DASHING_SPRITE) == 128.0 * 128.0;
  }

  /** Translations and rotations alone never mirror. */
  lemma {:induction false} DetOfUnscaled(steps: seq<TransformStep>)
    requires forall i :: 0 <= i < |steps| ==> !steps[i].ScaleTo?
    ensures DetOf(steps) == 1.0
    decreases |steps|
  {
    if steps != [] {
      DetOfUnscaled(steps[..|steps| - 1]);
    }
  }

  // ---------------------------------------------------------------------
  // Boss arms
  // ---------------------------------------------------------------------

  const ARMS_COUNT: nat := 6
  const ARM_PARTS_COUNT: nat := 3
  /** Six arms of three parts each. */
  const ARM_PART_TOTAL: nat := 18
  const BACTERIOPHAGE_ARM_TEXTURE_SIZE := Vec2(174.0, 33.0)
  const ARM_CONTAINERS: set<ContainerId> := {MeshPtrs, Transforms, Motions, Enemies, HealthValues, RenderRequests}
  /** The middle joints sit halfway along the previous part. */
  const MIDDLE_JOINT := Vec2(0.5, 0.0)

  /** Where an arm pair's first joint sits, relative to the boss's size. */
  function FirstJoint(pair: nat): Vec2
  {
    if pair == 1 then Vec2(0.22, -0.32) else Vec2(0.21, -0.32)
  }

  /** How far part `k` of a chain may swing: pi/12 + pi/12 (k + 1). */
  function Freedom(k: nat): real
  {
    PI / 12.0 + PI / 12.0 * (k + 1) as real
  }

  /**
   * The joint angle, which is also the part's rest angle: the first
   * joints fan out from pi/6 by pair, the middle joints bend by -pi/3.
   */
  function JointAngle(pair: nat, k: nat): real
  {
    if k == 0 then PI / 6.0 + -PI / 6.0 * ((pair as real) / 3.0) * 2.0 else -PI / 3.0
  }

  /** Length-to-thickness ratio: longer for front pairs and for outer parts. */
  function Ratio(pair: nat, k: nat): real
  {
    (1.0 + (1.0 - (pair as real) / 3.0) + ((k as real) / 3.0) * 1.5) / 1.5
  }

  /** The drawn size of a part, in proportion to the boss's diagonal. */
  function PartSize(lib: Libm, bossSize: Vec2, pair: nat, k: nat): Vec2
    requires pair < 3
  {
    var ratio := Ratio(pair, k);
    Scale(Vectors.Mul(BACTERIOPHAGE_ARM_TEXTURE_SIZE, Vec2(ratio, 2.0 / ratio)), Length(lib, bossSize) / 800.0)
  }

  /** The size a part's joint position is measured against. */
  function ParentSize(lib: Libm, bossSize: Vec2, pair: nat, k: nat): Vec2
    requires pair < 3
  {
    if k == 0 then bossSize else PartSize(lib, bossSize, pair, k - 1)
  }

  /** Odd arms are mirrored across the boss's axis. */
  function Flipper(arm: nat): Vec2
  {
    if arm % 2 == 1 then Vec2(-1.0, 1.0) else Vec2(1.0, 1.0)
  }

  /**
   * The calls placing part `k` of arm `arm` against its parent: mirror odd
   * arms, move to the joint, turn by the joint angle.
   */
  function ArmPlacement(lib: Libm, bossSize: Vec2, arm: nat, k: nat): seq<TransformStep>
    requires arm < ARMS_COUNT
  {
    var pair := arm / 2;
    var pos := Vectors.Mul(if k == 0 then FirstJoint(pair) else MIDDLE_JOINT, ParentSize(lib, bossSize, pair, k));
    [ScaleTo(Flipper(arm)), TranslateBy(pos), RotateBy(JointAngle(pair, k))]
  }

  /** The calls sizing a part's sprite and moving its pivot to the joint. */
  function ArmSprite(lib: Libm, bossSize: Vec2, arm: nat, k: nat): seq<TransformStep>
    requires arm < ARMS_COUNT
  {
    [ScaleTo(PartSize(lib, bossSize, arm / 2, k)), TranslateBy(Vec2(0.47, -0.3))]
  }

  /** Part `k` of arm `arm`, hanging from `parent`. */
  function ChainPart(lib: Libm, bossSize: Vec2, parent: Entity, arm: nat, k: nat): (a: Attachment)
    requires arm < ARMS_COUNT
    ensures a.parent == parent && a.kind == ArmPart && a.movedAngle == 0.0
    ensures a.angleFreedom == Freedom(k) && a.angleOffset == JointAngle(arm / 2, k)
    ensures a.relative1 == Compose(lib, ArmPlacement(lib, bossSize, arm, k))
    ensures a.relative2 == Compose(lib, ArmSprite(lib, bossSize, arm, k))
  {
    Attachment(ArmPart, parent, Compose(lib, ArmPlacement(lib, bossSize, arm, k)), 0.0,
               Compose(lib, ArmSprite(lib, bossSize, arm, k)), JointAngle(arm / 2, k), Freedom(k))
  }

  /** The parent of the `n`-th part created: the boss for a first part, else the part before. */
  function ArmParent(boss: Entity, next: Entity, n: nat): Entity
  {
    if n % 3 == 0 then boss else next + n - 1
  }

  /** The `n`-th part created, as entity `next + n`. */
  function NthPart(lib: Libm, boss: Entity, bossSize: Vec2, next: Entity, n: nat): (a: Attachment)
    requires n < ARM_PART_TOTAL
    ensures a.parent == ArmParent(boss, next, n) && a.angleFreedom == Freedom(n % 3)
  {
    ChainPart(lib, bossSize, ArmParent(boss, next, n), n / 3, n % 3)
  }

  /** All eighteen parts, in creation order. */
  function ArmPlan(lib: Libm, boss: Entity, bossSize: Vec2, next: Entity): (parts: seq<Attachment>)
    ensures |parts| == ARM_PART_TOTAL
    ensures forall n :: 0 <= n < ARM_PART_TOTAL ==> parts[n] == NthPart(lib, boss, bossSize, next, n)
  {
    seq(ARM_PART_TOTAL, n requires 0 <= n < ARM_PART_TOTAL => NthPart(lib, boss, bossSize, next, n))
  }

  /** Part `j` hangs from the boss when it starts a chain, else from part `j - 1`. */
  predicate Chained(parts: seq<Attachment>, boss: Entity, next: Entity)
  {
    forall j :: 0 <= j < |parts| ==> parts[j].parent == ArmParent(boss, next, j)
  }

  lemma PlanChained(lib: Libm, boss: Entity, bossSize: Vec2, next: Entity)
    ensures Chained(ArmPlan(lib, boss, bossSize, next), boss, next)
  {
  }

  /** The registry after hanging `parts[j]` as entity `next + j`, one after another. */
  function HangAll(r: Registry, next: Entity, parts: seq<Attachment>): Registry
    decreases |parts|
  {
    if parts == [] then r
    else Hang(HangAll(r, next, parts[..|parts| - 1]), next + |parts| - 1, parts[|parts| - 1], ARM_CONTAINERS)
  }

  /**
   * `createBossArms`: six chains of three parts, created arm by arm. Part
   * 0 of each chain hangs from the boss and part k from part k - 1, which
   * was created just before it; nothing else changes.
   */
  function CreateBossArms(lib: Libm, r: Registry, boss: Entity, bossSize: Vec2, next: Entity): (r': Registry)
    ensures forall f :: next <= f < next + ARM_PART_TOTAL ==>
      f in r'.attachments && r'.attachments[f].parent == ArmParent(boss, next, f - next)
      && r'.attachments[f].kind == ArmPart
    ensures forall f :: (f < next || f >= next + ARM_PART_TOTAL) ==>
      (f in r'.attachments <==> f in r.attachments) && (f in r.attachments ==> r'.attachments[f] == r.attachments[f])
  {
    var plan := ArmPlan(lib, boss, bossSize, next);
    HangAllAttached(r, next, plan);
    HangAll(r, next, plan)
  }

  /**
   * After hanging, `next + j` carries `parts[j]`, and every other
   * attachment is untouched.
   */
  lemma {:induction false} HangAllAttached(r: Registry, next: Entity, parts: seq<Attachment>)
    ensures forall f :: next <= f < next + |parts| ==>
      f in HangAll(r, next, parts).attachments && HangAll(r, next, parts).attachments[f] == parts[f - next]
    ensures forall f :: (f < next || f >= next + |parts|) ==>
      (f in HangAll(r, next, parts).attachments <==> f in r.attachments)
      && (f in r.attachments ==> HangAll(r, next, parts).attachments[f] == r.attachments[f])
    decreases |parts|
  {
    if parts != [] {
      var init := parts[..|parts| - 1];
      HangAllAttached(r, next, init);
      assert forall j :: 0 <= j < |init| ==> parts[j] == init[j];
    }
  }

  /** The arm ids are new, and no existing attachment hangs from one. */
  predicate ArmIdsFree(r: Registry, boss: Entity, next: Entity)
  {
    boss < next
    && (forall c, e :: c in r.members && e in r.members[c] ==> e < next)
    && (forall f :: f in r.attachments ==> f < next && r.attachments[f].parent < next)
  }

  /** Every id in `r`'s containers and attachments is below `bound`. */
  predicate IdsBelow(r: Registry, bound: Entity)
  {
    (forall c, e :: c in r.members && e in r.members[c] ==> e < bound)
    && (forall f :: f in r.attachments ==> f < bound)
  }

  /** Hanging the parts keeps the registry well formed. */
  lemma {:induction false} HangAllValid(r: Registry, next: Entity, parts: seq<Attachment>)
    requires Valid(r) && IdsBelow(r, next)
    ensures Valid(HangAll(r, next, parts)) && IdsBelow(HangAll(r, next, parts), next + |parts|)
    decreases |parts|
  {
    if parts != [] {
      var init := parts[..|parts| - 1];
      var r0 := HangAll(r, next, init);
      var e := next + |parts| - 1;
      HangAllValid(r, next, init);
      assert Fresh(r0, e);
      HangValid(r0, e, parts[|parts| - 1], ARM_CONTAINERS);
      HangIdsBelow(r0, e, parts[|parts| - 1]);
    }
  }

  lemma HangIdsBelow(r: Registry, e: Entity, a: Attachment)
    requires IdsBelow(r, e)
    ensures IdsBelow(Hang(r, e, a, ARM_CONTAINERS), e + 1)
  {
  }

  /** The rank of the `j`-th part within its chain: 3, 2, 1 from the boss out. */
  function ChainRank(j: nat): nat
  {
    3 - j % 3
  }

  /**
   * A rank for the forest with the arms in it: existing entities move up
   * by four, so they stay above every part.
   */
  ghost function ArmRank(rank: Entity -> nat, next: Entity): Entity -> nat
  {
    (e: Entity) => if next <= e < next + ARM_PART_TOTAL then ChainRank(e - next) else rank(e) + 4
  }

  /** Every chain is acyclic: the forest with the arms in it is ranked. */
  lemma {:induction false} HangAllRanked(r: Registry, rank: Entity -> nat, boss: Entity, next: Entity, parts: seq<Attachment>)
    requires Ranked(r, rank) && ArmIdsFree(r, boss, next) && Chained(parts, boss, next) && |parts| <= ARM_PART_TOTAL
    ensures Ranked(HangAll(r, next, parts), ArmRank(rank, next))
    decreases |parts|
  {
    var rk := ArmRank(rank, next);
    if parts == [] {
      ShiftedRanked(r, rank, next);
    } else {
      ChainedPrefix(parts, boss, next);
      HangAllRanked(r, rank, boss, next, parts[..|parts| - 1]);
      ArmRankStep(rank, boss, next, |parts| - 1);
      assert parts[|parts| - 1].parent == ArmParent(boss, next, |parts| - 1);
      HangRanked(HangAll(r, next, parts[..|parts| - 1]), rk, next + |parts| - 1, parts[|parts| - 1], ARM_CONTAINERS);
    }
  }

  /** Existing attachments stay ranked once every existing rank moves up by four. */
  lemma ShiftedRanked(r: Registry, rank: Entity -> nat, next: Entity)
    requires Ranked(r, rank)
    requires forall f :: f in r.attachments ==> f < next && r.attachments[f].parent < next
    ensures Ranked(r, ArmRank(rank, next))
  {
    var rk := ArmRank(rank, next);
    forall f | f in r.attachments ensures rk(f) < rk(r.attachments[f].parent) {
      assert rk(f) == rank(f) + 4;
    }
  }

  lemma ChainedPrefix(parts: seq<Attachment>, boss: Entity, next: Entity)
    requires Chained(parts, boss, next) && parts != []
    ensures Chained(parts[..|parts| - 1], boss, next)
  {
    var init := parts[..|parts| - 1];
    forall i | 0 <= i < |init| ensures init[i].parent == ArmParent(boss, next, i) {
      assert init[i] == parts[i];
    }
  }

  /** Each part ranks below its parent. */
  lemma ArmRankStep(rank: Entity -> nat, boss: Entity, next: Entity, j: nat)
    requires boss < next && j < ARM_PART_TOTAL
    ensures ArmRank(rank, next)(next + j) < ArmRank(rank, next)(ArmParent(boss, next, j))
  {
    var rk := ArmRank(rank, next);
    assert rk(next + j) == ChainRank(j);
    if j % 3 != 0 {
      assert (j - 1) % 3 == j % 3 - 1;
      assert rk(next + (j - 1)) == ChainRank(j - 1);
    } else {
      assert rk(boss) == rank(boss) + 4;
    }
  }

  /**
   * Creating the arms keeps the registry well formed and the forest
   * ranked, and every part hangs, through its chain, from the boss:
   * removing the boss removes all eighteen parts.
   */
  lemma ArmsHangFromBoss(lib: Libm, r: Registry, rank: Entity -> nat, boss: Entity, bossSize: Vec2, next: Entity)
    requires Valid(r) && Ranked(r, rank) && ArmIdsFree(r, boss, next)
    ensures Valid(CreateBossArms(lib, r, boss, bossSize, next))
    ensures Ranked(CreateBossArms(lib, r, boss, bossSize, next), ArmRank(rank, next))
    ensures forall f :: next <= f < next + ARM_PART_TOTAL ==>
      f in Subtree(CreateBossArms(lib, r, boss, bossSize, next), ArmRank(rank, next), boss)
  {
    var plan := ArmPlan(lib, boss, bossSize, next);
    PlanChained(lib, boss, bossSize, next);
    HangAllValid(r, next, plan);
    ChainsHang(r, rank, boss, next, plan);
  }

  /** Ranking and reach, for any eighteen parts chained as the arms are. */
  lemma ChainsHang(r: Registry, rank: Entity -> nat, boss: Entity, next: Entity, parts: seq<Attachment>)
    requires Ranked(r, rank) && ArmIdsFree(r, boss, next)
    requires Chained(parts, boss, next) && |parts| == ARM_PART_TOTAL
    ensures Ranked(HangAll(r, next, parts), ArmRank(rank, next))
    ensures forall f :: next <= f < next + ARM_PART_TOTAL ==> f in Subtree(HangAll(r, next, parts), ArmRank(rank, next), boss)
  {
    var r' := HangAll(r, next, parts);
    var rk := ArmRank(rank, next);
    HangAllAttached(r, next, parts);
    HangAllRanked(r, rank, boss, next, parts);
    forall f | next <= f < next + ARM_PART_TOTAL ensures f in Subtree(r', rk, boss) {
      ChainBelow(r', rk, boss, next, f - next);
    }
  }

  /** Following the parents from part `m` reaches the boss. */
  lemma {:induction false} ChainBelow(r: Registry, rk: Entity -> nat, boss: Entity, next: Entity, m: nat)
    requires m < ARM_PART_TOTAL && Ranked(r, rk) && boss < next
    requires forall f :: next <= f < next + ARM_PART_TOTAL ==>
      f in r.attachments && r.attachments[f].parent == ArmParent(boss, next, f - next)
    ensures Below(r, rk, next + m, boss)
    decreases m % 3
  {
    var p := r.attachments[next + m].parent;
    assert p == ArmParent(boss, next, m);
    if m % 3 != 0 {
      ChainBelow(r, rk, boss, next, m - 1);
      assert p == next + (m - 1);
    } else {
      assert Below(r, rk, boss, boss);
    }
  }

  /** Freedom strictly increases from each part to the next one in its chain, starting at pi/6. */
  lemma FreedomIncreases(lib: Libm, boss: Entity, bossSize: Vec2, next: Entity, n: nat)
    requires n % 3 != 2 && n + 1 < ARM_PART_TOTAL
    ensures NthPart(lib, boss, bossSize, next, n).angleFreedom < NthPart(lib, boss, bossSize, next, n + 1).angleFreedom
    ensures n % 3 == 0 ==> NthPart(lib, boss, bossSize, next, n).angleFreedom == PI / 6.0
  {
    assert (n + 1) % 3 == n % 3 + 1;
  }

  /**
   * The first joints fan out: pair 0 at pi/6, then each pair pi/9 further
   * round, and every first joint within (-pi/6, pi/6].
   */
  lemma FirstJointsFan(pair: nat)
    requires pair < 3
    ensures -PI / 6.0 < JointAngle(pair, 0) <= PI / 6.0
    ensures pair < 2 ==> JointAngle(pair + 1, 0) == JointAngle(pair, 0) - PI / 9.0
  {
  }

  /**
   * Only odd arms are mirrored: the scale factors placing a part multiply
   * to a negative number exactly when its arm index is odd, and those
   * sizing its sprite never do. By `ComposeDet` these products are the
   * determinants of the part's two relative transforms.
   */
  lemma OnlyOddArmsFlip(lib: Libm, bossSize: Vec2, arm: nat, k: nat)
    requires arm < ARMS_COUNT
    ensures DetOf(ArmPlacement(lib, bossSize, arm, k)) < 0.0 <==> arm % 2 == 1
    ensures DetOf(ArmSprite(lib, bossSize, arm, k)) >= 0.0
  {
    var pair := arm / 2;
    var pos := Vectors.Mul(if k == 0 then FirstJoint(pair) else MIDDLE_JOINT, ParentSize(lib, bossSize, pair, k));
    DetOfThree(Flipper(arm), pos, JointAngle(pair, k));
    DetOfTwo(PartSize(lib, bossSize, pair, k), Vec2(0.47, -0.3));
    PartSizeArea(lib, bossSize, pair, k);
  }

  lemma DetOfThree(f: Vec2, pos: Vec2, a: real)
    ensures DetOf([ScaleTo(f), TranslateBy(pos), RotateBy(a)]) == f.x * f.y
  {
    var s := [ScaleTo(f), TranslateBy(pos), RotateBy(a)];
    assert s[..2] == [ScaleTo(f), TranslateBy(pos)];
    assert s[..2][..1] == [ScaleTo(f)];
    assert [ScaleTo(f)][..0] == [];
    assert DetOf([ScaleTo(f)]) == f.x * f.y;
  }

  lemma DetOfTwo(f: Vec2, v: Vec2)
    ensures DetOf([ScaleTo(f), TranslateBy(v)]) == f.x * f.y
  {
    assert [ScaleTo(f), TranslateBy(v)][..1] == [ScaleTo(f)];
    assert [ScaleTo(f)][..0] == [];
    assert DetOf([ScaleTo(f)]) == f.x * f.y;
  }

  /** A part's area is the texture's, times two, times the square of the boss's scale factor. */
  lemma PartSizeArea(lib: Libm, bossSize: Vec2, pair: nat, k: nat)
    requires pair < 3
    ensures PartSize(lib, bossSize, pair, k).x * PartSize(lib, bossSize, pair, k).y >= 0.0
  {
    var s := PartSize(lib, bossSize, pair, k);
    var ratio := Ratio(pair, k);
    var f := Length(lib, bossSize) / 800.0;
    assert ratio > 0.0;
    assert s.x == 174.0 * ratio * f && s.y == 33.0 * (2.0 / ratio) * f;
    assert ratio * (2.0 / ratio) == 2.0;
    assert s.x * s.y == (174.0 * 33.0 * 2.0) * (f * f);
  }
}
