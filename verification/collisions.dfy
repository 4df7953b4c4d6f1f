/**
 * Collision detection of the physics step: the classifier that turns a
 * contact into at most one typed `Collision` event, and `check_collision`,
 * which raises map-boundary and region-boundary events per moving entity
 * and then scans every pair of moving entities once.
 */
module Collisions {
  import opened Vectors
  import opened Common
  import opened Components
  import opened Registry
  import opened Geometry
  import opened Meshes
  import opened Wrappers

  predicate IsBulletKind(k: CollisionType)
  {
    k == BulletWithBullet || k == BulletWithPlayer || k == BulletWithEnemy || k == BulletWithCyst
  }

  predicate IsPlayerKind(k: CollisionType)
  {
    k == PlayerWithEnemy || k == PlayerWithCyst || k == PlayerWithChest || k == PlayerWithCure
  }

  predicate IsSword(r: Registry, e: Entity)
  {
    e in r.attachments && r.attachments[e].kind == SwordPart
  }

  /**
   * `collisionhelper(e1, e2)`: which event, if any, `e1` receives for
   * touching `e2`. The first matching role of `e1` decides: projectile,
   * then player (only against entities that collide with players), then
   * enemy, then sword; within it the first matching role of `e2`.
   */
  function Classify(r: Registry, e1: Entity, e2: Entity): (k: Option<CollisionType>)
    ensures k.Some? ==> (IsBulletKind(k.value) <==> Has(r, Projectiles, e1))
    ensures k == Some(BulletWithBullet) <==> Has(r, Projectiles, e1) && Has(r, Projectiles, e2)
    ensures k == Some(BulletWithPlayer) ==> Has(r, Players, e2) && Has(r, CollidePlayers, e1)
    ensures k == Some(BulletWithEnemy) ==>
      Has(r, Enemies, e2) && Has(r, CollideEnemies, e1) && Has(r, CollidePlayers, e2)
    ensures k == Some(BulletWithCyst) ==> Has(r, Cysts, e2) && Has(r, CollideEnemies, e1)
    ensures k.Some? && IsPlayerKind(k.value) ==>
      !Has(r, Projectiles, e1) && Has(r, Players, e1) && Has(r, CollidePlayers, e2)
    ensures k == Some(EnemyWithEnemy) ==> Has(r, Enemies, e1) && Has(r, Enemies, e2)
    ensures k == Some(SwordWithEnemy) || k == Some(SwordWithCyst) ==>
      IsSword(r, e1) && Has(r, CollideEnemies, e1) && Has(r, CollidePlayers, e2)
    ensures k.Some? ==> k.value != WithBoundary && k.value != BulletWithBoundary && k.value != PlayerWithRegionBoundary
  {
    if Has(r, Projectiles, e1) then BulletHits(r, e1, e2) else BodyHits(r, e1, e2)
  }

  /** The projectile branch of `collisionhelper`: what a projectile `e1` receives for touching `e2`. */
  function BulletHits(r: Registry, e1: Entity, e2: Entity): (k: Option<CollisionType>)
    ensures k.Some? ==> IsBulletKind(k.value)
    ensures k == Some(BulletWithBullet) <==> Has(r, Projectiles, e2)
    ensures k == Some(BulletWithPlayer) ==> Has(r, Players, e2) && Has(r, CollidePlayers, e1)
    ensures k == Some(BulletWithEnemy) ==>
      Has(r, Enemies, e2) && Has(r, CollideEnemies, e1) && Has(r, CollidePlayers, e2)
    ensures k == Some(BulletWithCyst) ==> Has(r, Cysts, e2) && Has(r, CollideEnemies, e1)
  {
    if Has(r, Projectiles, e2) then Some(BulletWithBullet)
    else if Has(r, Players, e2) && Has(r, CollidePlayers, e1) then Some(BulletWithPlayer)
    else if Has(r, Enemies, e2) && Has(r, CollideEnemies, e1) && Has(r, CollidePlayers, e2) then Some(BulletWithEnemy)
    else if Has(r, Cysts, e2) && Has(r, CollideEnemies, e1) then Some(BulletWithCyst)
    else None
  }

  /** The player branch of `collisionhelper`: what a player receives for touching `e2`, by `e2`'s first role. */
  function PlayerHits(r: Registry, e2: Entity): (k: Option<CollisionType>)
    ensures k.Some? ==> IsPlayerKind(k.value)
    ensures k == Some(PlayerWithEnemy) <==> Has(r, Enemies, e2)
    ensures k == None <==> !Has(r, Enemies, e2) && !Has(r, Cysts, e2) && !Has(r, Chests, e2) && !Has(r, Cures, e2)
  {
    if Has(r, Enemies, e2) then Some(PlayerWithEnemy)
    else if Has(r, Cysts, e2) then Some(PlayerWithCyst)
    else if Has(r, Chests, e2) then Some(PlayerWithChest)
    else if Has(r, Cures, e2) then Some(PlayerWithCure)
    else None
  }

  /** The sword branch of `collisionhelper`: what a sword `e1` receives for touching `e2`. */
  function SwordHits(r: Registry, e1: Entity, e2: Entity): (k: Option<CollisionType>)
    ensures k.Some? ==> (k.value == SwordWithEnemy || k.value == SwordWithCyst) && Has(r, CollideEnemies, e1) && Has(r, CollidePlayers, e2)
    ensures k == Some(SwordWithEnemy) <==> Has(r, Enemies, e2) && Has(r, CollideEnemies, e1) && Has(r, CollidePlayers, e2)
  {
    if Has(r, Enemies, e2) && Has(r, CollideEnemies, e1) && Has(r, CollidePlayers, e2) then Some(SwordWithEnemy)
    else if Has(r, Cysts, e2) && Has(r, CollideEnemies, e1) && Has(r, CollidePlayers, e2) then Some(SwordWithCyst)
    else None
  }

  /** The other branches of `collisionhelper`: what a player, enemy or sword `e1` receives for touching `e2`. */
  function BodyHits(r: Registry, e1: Entity, e2: Entity): (k: Option<CollisionType>)
    ensures k.Some? ==> IsPlayerKind(k.value) || k.value == EnemyWithEnemy || k.value == SwordWithEnemy || k.value == SwordWithCyst
    ensures k.Some? && IsPlayerKind(k.value) ==> Has(r, Players, e1) && Has(r, CollidePlayers, e2)
    ensures k == Some(EnemyWithEnemy) ==> Has(r, Enemies, e1) && Has(r, Enemies, e2)
    ensures k == Some(SwordWithEnemy) || k == Some(SwordWithCyst) ==>
      IsSword(r, e1) && Has(r, CollideEnemies, e1) && Has(r, CollidePlayers, e2)
  {
    if Has(r, Players, e1) && Has(r, CollidePlayers, e2) then PlayerHits(r, e2)
    else if Has(r, Enemies, e1) then
      if Has(r, Enemies, e2) then Some(EnemyWithEnemy) else None
    else if IsSword(r, e1) then SwordHits(r, e1, e2)
    else None
  }

  /**
   * The order of the roles decides: a projectile touching a player that it
   * may hit always gets the bullet-with-player event, and a player touching
   * an enemy always gets the player-with-enemy event.
   */
  lemma ClassifyComplete(r: Registry, e1: Entity, e2: Entity)
    ensures Has(r, Projectiles, e1) && !Has(r, Projectiles, e2) && Has(r, Players, e2) && Has(r, CollidePlayers, e1)
      ==> Classify(r, e1, e2) == Some(BulletWithPlayer)
    ensures !Has(r, Projectiles, e1) && Has(r, Players, e1) && Has(r, CollidePlayers, e2) && Has(r, Enemies, e2)
      ==> Classify(r, e1, e2) == Some(PlayerWithEnemy)
  {
  }

  /** A collision event, stored under its first entity. */
  datatype Event = Event(owner: Entity, collision: Collision)

  /** What one call of `collisionhelper(e1, e2)` appends: at most one event, owned by `e1`. */
  function HelperEvents(r: Registry, e1: Entity, e2: Entity): (evs: seq<Event>)
    ensures |evs| <= 1
    ensures |evs| == 1 <==> Classify(r, e1, e2).Some?
    ensures forall ev :: ev in evs ==>
      ev.owner == e1 && ev.collision.other == Some(e2) && Classify(r, e1, e2) == Some(ev.collision.kind)
  {
    match Classify(r, e1, e2)
    case None => []
    case Some(k) => [Event(e1, CollisionWith(k, e2))]
  }

  /** Two bullets that touch each receive a bullet-with-bullet event. */
  lemma BulletsBothNotified(r: Registry, a: Entity, b: Entity)
    requires Has(r, Projectiles, a) && Has(r, Projectiles, b)
    ensures HelperEvents(r, a, b) + HelperEvents(r, b, a)
      == [Event(a, CollisionWith(BulletWithBullet, b)), Event(b, CollisionWith(BulletWithBullet, a))]
  {
  }

  /**
   * A player touching an enemy that collides with players yields exactly
   * one event for the pair, a player-with-enemy event under the player,
   * provided the player is neither a projectile nor an enemy itself.
   */
  lemma PlayerEnemyOneEvent(r: Registry, p: Entity, e: Entity)
    requires Has(r, Players, p) && !Has(r, Projectiles, p) && !Has(r, Enemies, p) && !IsSword(r, p)
    requires Has(r, Enemies, e) && Has(r, CollidePlayers, e) && !Has(r, Projectiles, e) && !Has(r, Players, e)
    ensures HelperEvents(r, p, e) + HelperEvents(r, e, p) == [Event(p, CollisionWith(PlayerWithEnemy, e))]
  {
  }

  /**
   * What the physics step reads: the registry, the transform and motion of
   * every moving entity, the meshes, the camera position, whether the
   * first boss is activated, and the start angle of every region.
   */
  datatype Scene = Scene(
    reg: Registry,
    transforms: map<Entity, Transform>,
    motions: map<Entity, Motion>,
    meshes: map<Entity, Mesh>,
    camera: Vec2,
    bossActive: bool,
    regionAngles: seq<real>)

  /**
   * Every moving entity has a transform (the source asserts it) whose
   * circles can be generated, and every mesh pointer leads to a mesh of
   * whole triangles.
   */
  predicate Ready(s: Scene)
  {
    && Motions in s.reg.members
    && (forall e :: e in s.reg.members[Motions] ==>
          e in s.transforms && e in s.motions && Partitionable(s.transforms[e]))
    && (forall e :: e in s.reg.members[Motions] && Has(s.reg, MeshPtrs, e) ==>
          e in s.meshes && WellFormed(s.meshes[e]))
  }

  function Movers(s: Scene): seq<Entity>
    requires Motions in s.reg.members
  {
    s.reg.members[Motions]
  }

  /** `!is_outside_screen`: within the screen radius of the camera. */
  predicate OnScreen(lib: Libm, s: Scene, p: Vec2)
  {
    !(Length(lib, Sub(p, s.camera)) > ScreenRadius(lib))
  }

  /** `x` is an attachment of `y`. */
  predicate AttachedTo(r: Registry, x: Entity, y: Entity)
  {
    x in r.attachments && r.attachments[x].parent == y
  }

  /** The region-boundary event as the source gates it: both components nonzero. */
  predicate KnockbackRaisedAsWritten(k: Vec2)
  {
    k.x != 0.0 && k.y != 0.0
  }

  /** The gate as intended: any nonzero knockback. */
  predicate KnockbackRaised(k: Vec2)
  {
    k != Zero
  }

  /**
   * Which region-boundary gate a scan applies: the one the source writes,
   * or the intended one.
   */
  datatype Gate = AsWritten | Intended

  predicate Raises(g: Gate, k: Vec2)
  {
    if g == AsWritten then KnockbackRaisedAsWritten(k) else KnockbackRaised(k)
  }

  /**
   * A player moving straight down into a region edge that lies along the x
   * axis is bounced straight up; the written gate drops that bounce, the
   * intended one raises it. This holds in reals; in floats the edge normals
   * are never exactly axis-aligned, so the drop needs a reflected component
   * that rounds to exactly zero.
   */
  lemma AsWrittenGateDropsBounce()
    ensures var v := Vec2(0.0, -200.0);
            var n := Vec2(0.0, 1.0);
            && Norm2(n) == 1.0 && Dot(v, n) < 0.0
            && Reflect(v, n) == Vec2(0.0, 200.0)
            && !KnockbackRaisedAsWritten(Reflect(v, n))
            && KnockbackRaised(Reflect(v, n))
  {
  }

  /** The boundary event for a moving entity: bullets get their own kind. */
  function BoundaryCollision(r: Registry, e: Entity): (c: Collision)
    ensures c.other == None && c.knockback == Zero
    ensures c.kind == (if Has(r, Projectiles, e) then BulletWithBoundary else WithBoundary)
  {
    CollisionAlone(if Has(r, Projectiles, e) then BulletWithBoundary else WithBoundary).value
  }

  /** The region-boundary knockback of moving entity `e`. */
  function KnockbackOf(lib: Libm, s: Scene, e: Entity): Vec2
    requires Ready(s) && e in Movers(s)
  {
    RegionKnockback(lib, s.regionAngles, s.transforms[e], s.motions[e].velocity)
  }

  /** Events `e` raises on its own under gate `g`: map boundary, then region boundary. */
  function OwnEvents(lib: Libm, s: Scene, e: Entity, g: Gate): (evs: seq<Event>)
    requires Ready(s) && e in Movers(s)
    ensures |evs| <= 2
    ensures forall ev :: ev in evs ==> ev.owner == e && ev.collision.other == None
    ensures Event(e, BoundaryCollision(s.reg, e)) in evs
        <==> !Has(s.reg, Cysts, e) && CollidesWithBoundary(lib, s.transforms[e])
    ensures forall ev :: ev in evs && ev.collision.kind == PlayerWithRegionBoundary ==>
      && Has(s.reg, Players, e) && s.bossActive
      && ev.collision.knockback == KnockbackOf(lib, s, e) && Raises(g, KnockbackOf(lib, s, e))
    ensures Has(s.reg, Players, e) && s.bossActive && Raises(g, KnockbackOf(lib, s, e)) ==>
      Event(e, CollisionKnockback(PlayerWithRegionBoundary, KnockbackOf(lib, s, e))) in evs
  {
    (if !Has(s.reg, Cysts, e) && CollidesWithBoundary(lib, s.transforms[e])
     then [Event(e, BoundaryCollision(s.reg, e))] else [])
    + (if Has(s.reg, Players, e) && s.bossActive && Raises(g, KnockbackOf(lib, s, e))
       then [Event(e, CollisionKnockback(PlayerWithRegionBoundary, KnockbackOf(lib, s, e)))] else [])
  }

  /** The pair is culled: `b` off screen, boxes apart, or one attached to the other. */
  predicate Culled(lib: Libm, s: Scene, a: Entity, b: Entity)
    requires Ready(s) && a in Movers(s) && b in Movers(s)
  {
    || !OnScreen(lib, s, s.transforms[b].position)
    || !BoxesMeet(lib, s.transforms[a], s.transforms[b])
    || AttachedTo(s.reg, a, b) || AttachedTo(s.reg, b, a)
  }

  /** The narrow phase, chosen by which of the two have meshes. */
  predicate Touch(lib: Libm, s: Scene, a: Entity, b: Entity)
    requires Ready(s) && a in Movers(s) && b in Movers(s)
  {
    var ta := s.transforms[a];
    var tb := s.transforms[b];
    if Has(s.reg, MeshPtrs, a) && Has(s.reg, MeshPtrs, b) then MeshesCollide(lib, s.meshes[a], ta, s.meshes[b], tb)
    else if Has(s.reg, MeshPtrs, a) then MeshHitsCircles(lib, s.meshes[a], ta, tb)
    else if Has(s.reg, MeshPtrs, b) then MeshHitsCircles(lib, s.meshes[b], tb, ta)
    else Collides(lib, ta, tb)
  }

  /** Events of one pair: both orders of the helper, when not culled and touching. */
  function PairEvents(lib: Libm, s: Scene, a: Entity, b: Entity): (evs: seq<Event>)
    requires Ready(s) && a in Movers(s) && b in Movers(s)
    ensures |evs| <= 2
    ensures evs != [] ==> !Culled(lib, s, a, b) && Touch(lib, s, a, b)
    ensures forall ev :: ev in evs ==>
      || (ev.owner == a && ev.collision.other == Some(b) && Classify(s.reg, a, b) == Some(ev.collision.kind))
      || (ev.owner == b && ev.collision.other == Some(a) && Classify(s.reg, b, a) == Some(ev.collision.kind))
    ensures !Culled(lib, s, a, b) && Touch(lib, s, a, b) && Classify(s.reg, a, b).Some? ==>
      Event(a, CollisionWith(Classify(s.reg, a, b).value, b)) in evs
    ensures !Culled(lib, s, a, b) && Touch(lib, s, a, b) && Classify(s.reg, b, a).Some? ==>
      Event(b, CollisionWith(Classify(s.reg, b, a).value, a)) in evs
  {
    if Culled(lib, s, a, b) || !Touch(lib, s, a, b) then []
    else HelperEvents(s.reg, a, b) + HelperEvents(s.reg, b, a)
  }

  /** The parts `part(lo)`, ..., `part(hi - 1)` one after the other. */
  function Concat(lo: nat, hi: nat, part: nat -> seq<Event>): seq<Event>
    decreases hi
  {
    if hi <= lo then [] else Concat(lo, hi - 1, part) + part(hi - 1)
  }

  lemma {:induction false} ConcatMember(lo: nat, hi: nat, part: nat -> seq<Event>, ev: Event)
    requires ev in Concat(lo, hi, part)
    ensures exists i :: lo <= i < hi && ev in part(i)
    decreases hi
  {
    if hi > lo && ev !in part(hi - 1) {
      ConcatMember(lo, hi - 1, part, ev);
    }
  }

  lemma {:induction false} PartInConcat(lo: nat, hi: nat, part: nat -> seq<Event>, i: nat, ev: Event)
    requires lo <= i < hi && ev in part(i)
    ensures ev in Concat(lo, hi, part)
    decreases hi
  {
    if i < hi - 1 {
      PartInConcat(lo, hi - 1, part, i, ev);
    }
  }

  /** Parts that are all empty concatenate to nothing. */
  lemma {:induction false} ConcatNone(hi: nat, part: nat -> seq<Event>)
    requires forall i :: 0 <= i < hi ==> part(i) == []
    ensures Concat(0, hi, part) == []
    decreases hi
  {
    if hi > 0 {
      ConcatNone(hi - 1, part);
    }
  }

  /** Pair `(i, j)` of the motion list, for j after i; nothing for any other j. */
  function PairPart(lib: Libm, s: Scene, i: nat): nat -> seq<Event>
    requires Ready(s)
  {
    (j: nat) => if i < j < |Movers(s)| then PairEvents(lib, s, Movers(s)[i], Movers(s)[j]) else []
  }

  /** Everything the `i`-th moving entity's iteration appends. */
  function Block(lib: Libm, s: Scene, i: nat, g: Gate): seq<Event>
    requires Ready(s) && i < |Movers(s)|
  {
    var e := Movers(s)[i];
    OwnEvents(lib, s, e, g)
    + (if OnScreen(lib, s, s.transforms[e].position) then Concat(0, |Movers(s)|, PairPart(lib, s, i)) else [])
  }

  function BlockPart(lib: Libm, s: Scene, g: Gate): nat -> seq<Event>
    requires Ready(s)
  {
    (i: nat) => if i < |Movers(s)| then Block(lib, s, i, g) else []
  }

  /** `ev` comes from the pair at positions i < j, the first on screen. */
  predicate FromPair(lib: Libm, s: Scene, ev: Event)
    requires Ready(s)
  {
    exists i, j :: 0 <= i < j < |Movers(s)| && OnScreen(lib, s, s.transforms[Movers(s)[i]].position)
      && ev in PairEvents(lib, s, Movers(s)[i], Movers(s)[j])
  }

  /**
   * Events of the whole scan under gate `g`: the blocks of the moving
   * entities in motion-list order. As a set they are exactly the entities'
   * own events and the events of the pairs whose first entity is on screen.
   */
  function Scan(lib: Libm, s: Scene, g: Gate): (r: seq<Event>)
    requires Ready(s)
    ensures forall ev :: ev in r ==>
      ev.owner in Movers(s) && (ev in OwnEvents(lib, s, ev.owner, g) || FromPair(lib, s, ev))
    ensures forall e, ev :: e in Movers(s) && ev in OwnEvents(lib, s, e, g) ==> ev in r
    ensures forall ev :: FromPair(lib, s, ev) ==> ev in r
  {
    var r := Concat(0, |Movers(s)|, BlockPart(lib, s, g));
    assert forall ev :: ev in r ==>
      ev.owner in Movers(s) && (ev in OwnEvents(lib, s, ev.owner, g) || FromPair(lib, s, ev)) by {
      forall ev | ev in r
        ensures ev.owner in Movers(s) && (ev in OwnEvents(lib, s, ev.owner, g) || FromPair(lib, s, ev))
      {
        EventOrigin(lib, s, g, ev);
      }
    }
    assert forall e, ev :: e in Movers(s) && ev in OwnEvents(lib, s, e, g) ==> ev in r by {
      forall e, ev | e in Movers(s) && ev in OwnEvents(lib, s, e, g) ensures ev in r {
        OwnInScan(lib, s, g, e, ev);
      }
    }
    assert forall ev :: FromPair(lib, s, ev) ==> ev in r by {
      forall ev | FromPair(lib, s, ev) ensures ev in r {
        PairInScan(lib, s, g, ev);
      }
    }
    r
  }

  /** The checks of one moving entity on its own: map boundary, then region boundary under gate `g`. */
  method CheckOwn(lib: Libm, s: Scene, a: Entity, g: Gate) returns (events: seq<Event>)
    requires Ready(s) && a in Movers(s)
    ensures events == OwnEvents(lib, s, a, g)
    ensures forall ev :: ev in events ==> ev.owner == a && ev.collision.other == None
    ensures Event(a, BoundaryCollision(s.reg, a)) in events
        <==> !Has(s.reg, Cysts, a) && CollidesWithBoundary(lib, s.transforms[a])
    ensures Event(a, CollisionKnockback(PlayerWithRegionBoundary, KnockbackOf(lib, s, a))) in events
        <==> Has(s.reg, Players, a) && s.bossActive && Raises(g, KnockbackOf(lib, s, a))
  {
    var ta := s.transforms[a];
    events := [];
    if !Has(s.reg, Cysts, a) && CollidesWithBoundary(lib, ta) {
      events := events + [Event(a, BoundaryCollision(s.reg, a))];
    }
    if Has(s.reg, Players, a) && s.bossActive {
      var k := RegionKnockback(lib, s.regionAngles, ta, s.motions[a].velocity);
      if Raises(g, k) {
        events := events + [Event(a, CollisionKnockback(PlayerWithRegionBoundary, k))];
      }
    }
  }

  /** One pass of the inner loop: the culling tests, the narrow phase, the helper both ways. */
  method CheckPair(lib: Libm, s: Scene, a: Entity, b: Entity) returns (events: seq<Event>)
    requires Ready(s) && a in Movers(s) && b in Movers(s)
    ensures events == PairEvents(lib, s, a, b)
    ensures events != [] ==>
      && OnScreen(lib, s, s.transforms[b].position)
      && BoxesMeet(lib, s.transforms[a], s.transforms[b])
      && !AttachedTo(s.reg, a, b) && !AttachedTo(s.reg, b, a)
    ensures forall ev :: ev in events ==>
      || (ev.owner == a && ev.collision.other == Some(b) && Classify(s.reg, a, b) == Some(ev.collision.kind))
      || (ev.owner == b && ev.collision.other == Some(a) && Classify(s.reg, b, a) == Some(ev.collision.kind))
    ensures !Culled(lib, s, a, b) && Touch(lib, s, a, b) ==>
      |events| == |HelperEvents(s.reg, a, b)| + |HelperEvents(s.reg, b, a)|
  {
    var ta := s.transforms[a];
    var tb := s.transforms[b];
    events := [];
    if !OnScreen(lib, s, tb.position) {
      return;
    }
    if !BoxesMeet(lib, ta, tb) {
      return;
    }
    if AttachedTo(s.reg, a, b) || AttachedTo(s.reg, b, a) {
      return;
    }
    var touch;
    if Has(s.reg, MeshPtrs, a) && Has(s.reg, MeshPtrs, b) {
      touch := MeshesCollide(lib, s.meshes[a], ta, s.meshes[b], tb);
    } else if Has(s.reg, MeshPtrs, a) {
      touch := MeshHitsCircles(lib, s.meshes[a], ta, tb);
    } else if Has(s.reg, MeshPtrs, b) {
      touch := MeshHitsCircles(lib, s.meshes[b], tb, ta);
    } else {
      touch := Collides(lib, ta, tb);
    }
    if touch {
      events := HelperEvents(s.reg, a, b) + HelperEvents(s.reg, b, a);
    }
  }

  /** The inner loop: the `i`-th moving entity against every later one. */
  method CheckRow(lib: Libm, s: Scene, i: nat) returns (events: seq<Event>)
    requires Ready(s) && i < |Movers(s)|
    ensures events == Concat(0, |Movers(s)|, PairPart(lib, s, i))
    ensures forall ev :: ev in events ==>
      exists j :: i < j < |Movers(s)| && ev in PairEvents(lib, s, Movers(s)[i], Movers(s)[j])
    ensures forall j, ev :: i < j < |Movers(s)| && ev in PairEvents(lib, s, Movers(s)[i], Movers(s)[j]) ==> ev in events
  {
    events := CheckLater(lib, s, i);
    RowExact(lib, s, i);
  }

  /** Row `i` holds exactly the events of the pairs of the `i`-th entity with later ones. */
  lemma RowExact(lib: Libm, s: Scene, i: nat)
    requires Ready(s) && i < |Movers(s)|
    ensures var row := Concat(0, |Movers(s)|, PairPart(lib, s, i));
      && (forall ev :: ev in row ==>
            exists j :: i < j < |Movers(s)| && ev in PairEvents(lib, s, Movers(s)[i], Movers(s)[j]))
      && (forall j, ev :: i < j < |Movers(s)| && ev in PairEvents(lib, s, Movers(s)[i], Movers(s)[j]) ==> ev in row)
  {
    var row := Concat(0, |Movers(s)|, PairPart(lib, s, i));
    forall ev | ev in row
      ensures exists j :: i < j < |Movers(s)| && ev in PairEvents(lib, s, Movers(s)[i], Movers(s)[j])
    {
      RowOrigin(lib, s, i, ev);
      var j :| i < j < |Movers(s)| && ev in PairPart(lib, s, i)(j);
      assert ev in PairEvents(lib, s, Movers(s)[i], Movers(s)[j]);
    }
    forall j, ev | i < j < |Movers(s)| && ev in PairEvents(lib, s, Movers(s)[i], Movers(s)[j])
      ensures ev in row
    {
      assert ev in PairPart(lib, s, i)(j);
      PairInRow(lib, s, i, j, ev);
    }
  }

  /** The loop of `CheckRow`, over the positions after `i`. */
  method CheckLater(lib: Libm, s: Scene, i: nat) returns (events: seq<Event>)
    requires Ready(s) && i < |Movers(s)|
    ensures events == Concat(0, |Movers(s)|, PairPart(lib, s, i))
  {
    var movers := s.reg.members[Motions];
    var a := movers[i];
    var part := PairPart(lib, s, i);
    var start := i + 1;
    events := [];
    ConcatNone(start, part);
    for j := start to |movers|
      invariant events == Concat(0, j, part)
    {
      var b := movers[j];
      assert part(j) == PairEvents(lib, s, a, b);
      var pair := CheckPair(lib, s, a, b);
      events := events + pair;
    }
  }

  /** An event of row `i` comes from the pair with some later entity. */
  lemma RowOrigin(lib: Libm, s: Scene, i: nat, ev: Event)
    requires Ready(s) && i < |Movers(s)| && ev in Concat(0, |Movers(s)|, PairPart(lib, s, i))
    ensures exists j :: i < j < |Movers(s)| && ev in PairPart(lib, s, i)(j)
  {
    ConcatMember(0, |Movers(s)|, PairPart(lib, s, i), ev);
    var j :| 0 <= j < |Movers(s)| && ev in PairPart(lib, s, i)(j);
    assert i < j;
  }

  /** The events of the pair with a later entity all reach row `i`. */
  lemma PairInRow(lib: Libm, s: Scene, i: nat, j: nat, ev: Event)
    requires Ready(s) && i < j < |Movers(s)| && ev in PairPart(lib, s, i)(j)
    ensures ev in Concat(0, |Movers(s)|, PairPart(lib, s, i))
  {
    PartInConcat(0, |Movers(s)|, PairPart(lib, s, i), j, ev);
  }

  /**
   * `check_collision`, appending to an initially empty event list, with
   * region-boundary gate `g`: the source is `CheckCollision(lib, s, AsWritten)`.
   */
  method CheckCollision(lib: Libm, s: Scene, g: Gate) returns (events: seq<Event>)
    requires Ready(s)
    ensures events == Scan(lib, s, g)
    ensures forall ev :: ev in events ==>
      ev.owner in Movers(s) && (ev in OwnEvents(lib, s, ev.owner, g) || FromPair(lib, s, ev))
    ensures forall e, ev :: e in Movers(s) && ev in OwnEvents(lib, s, e, g) ==> ev in events
    ensures forall ev :: FromPair(lib, s, ev) ==> ev in events
  {
    events := CheckBlocks(lib, s, g);
  }

  /** The outer loop of `check_collision`. */
  method CheckBlocks(lib: Libm, s: Scene, g: Gate) returns (events: seq<Event>)
    requires Ready(s)
    ensures events == Scan(lib, s, g)
  {
    var movers := s.reg.members[Motions];
    events := [];
    for i := 0 to |movers|
      invariant events == Concat(0, i, BlockPart(lib, s, g))
    {
      assert BlockPart(lib, s, g)(i) == Block(lib, s, i, g);
      var block := CheckEntity(lib, s, i, g);
      events := events + block;
    }
  }

  /** One pass of the outer loop: the entity's own checks, then its row when it is on screen. */
  method CheckEntity(lib: Libm, s: Scene, i: nat, g: Gate) returns (events: seq<Event>)
    requires Ready(s) && i < |Movers(s)|
    ensures events == Block(lib, s, i, g)
  {
    var a := s.reg.members[Motions][i];
    var own := CheckOwn(lib, s, a, g);
    var row := [];
    if OnScreen(lib, s, s.transforms[a].position) {
      row := CheckRow(lib, s, i);
    }
    events := own + row;
  }

  /** A pair's events belong to one of the two and name the other. */
  lemma PairOwner(lib: Libm, s: Scene, a: Entity, b: Entity, ev: Event)
    requires Ready(s) && a in Movers(s) && b in Movers(s) && ev in PairEvents(lib, s, a, b)
    ensures !Culled(lib, s, a, b)
    ensures ev in HelperEvents(s.reg, a, b) || ev in HelperEvents(s.reg, b, a)
    ensures (ev.owner == a && ev.collision.other == Some(b)) || (ev.owner == b && ev.collision.other == Some(a))
  {
    assert ev in HelperEvents(s.reg, a, b) || ev in HelperEvents(s.reg, b, a);
  }

  /** An event of block `i` is the entity's own or comes from a pair (i, j). */
  lemma BlockOrigin(lib: Libm, s: Scene, g: Gate, i: nat, ev: Event)
    requires Ready(s) && i < |Movers(s)| && ev in Block(lib, s, i, g)
    ensures ev in OwnEvents(lib, s, Movers(s)[i], g) || FromPair(lib, s, ev)
  {
    var e := Movers(s)[i];
    if ev !in OwnEvents(lib, s, e, g) {
      assert OnScreen(lib, s, s.transforms[e].position);
      ConcatMember(0, |Movers(s)|, PairPart(lib, s, i), ev);
      var j :| 0 <= j < |Movers(s)| && ev in PairPart(lib, s, i)(j);
      assert ev in PairEvents(lib, s, Movers(s)[i], Movers(s)[j]);
    }
  }

  /** Where an event of the blocks comes from: an entity's own check or one pair. */
  lemma EventOrigin(lib: Libm, s: Scene, g: Gate, ev: Event)
    requires Ready(s) && ev in Concat(0, |Movers(s)|, BlockPart(lib, s, g))
    ensures ev.owner in Movers(s)
    ensures ev in OwnEvents(lib, s, ev.owner, g) || FromPair(lib, s, ev)
  {
    ConcatMember(0, |Movers(s)|, BlockPart(lib, s, g), ev);
    var i :| 0 <= i < |Movers(s)| && ev in BlockPart(lib, s, g)(i);
    assert ev in Block(lib, s, i, g);
    BlockOrigin(lib, s, g, i, ev);
    if ev !in OwnEvents(lib, s, Movers(s)[i], g) {
      PairEventOwner(lib, s, ev);
    }
  }

  /** An event from a pair belongs to one of the two moving entities. */
  lemma PairEventOwner(lib: Libm, s: Scene, ev: Event)
    requires Ready(s) && FromPair(lib, s, ev)
    ensures ev.owner in Movers(s)
  {
    var i, j :| 0 <= i < j < |Movers(s)| && OnScreen(lib, s, s.transforms[Movers(s)[i]].position)
      && ev in PairEvents(lib, s, Movers(s)[i], Movers(s)[j]);
    PairOwner(lib, s, Movers(s)[i], Movers(s)[j], ev);
  }

  /** An entity's own events all reach the blocks. */
  lemma OwnInScan(lib: Libm, s: Scene, g: Gate, e: Entity, ev: Event)
    requires Ready(s) && e in Movers(s) && ev in OwnEvents(lib, s, e, g)
    ensures ev in Concat(0, |Movers(s)|, BlockPart(lib, s, g))
  {
    var i :| 0 <= i < |Movers(s)| && Movers(s)[i] == e;
    assert ev in Block(lib, s, i, g);
    assert ev in BlockPart(lib, s, g)(i);
    PartInConcat(0, |Movers(s)|, BlockPart(lib, s, g), i, ev);
  }

  /** The events of a pair whose first entity is on screen all reach the blocks. */
  lemma PairInScan(lib: Libm, s: Scene, g: Gate, ev: Event)
    requires Ready(s) && FromPair(lib, s, ev)
    ensures ev in Concat(0, |Movers(s)|, BlockPart(lib, s, g))
  {
    var i, j :| 0 <= i < j < |Movers(s)| && OnScreen(lib, s, s.transforms[Movers(s)[i]].position)
      && ev in PairEvents(lib, s, Movers(s)[i], Movers(s)[j]);
    assert ev in PairPart(lib, s, i)(j);
    PairInRow(lib, s, i, j, ev);
    assert ev in BlockPart(lib, s, g)(i) by {
      assert Block(lib, s, i, g) == OwnEvents(lib, s, Movers(s)[i], g) + Concat(0, |Movers(s)|, PairPart(lib, s, i));
    }
    PartInConcat(0, |Movers(s)|, BlockPart(lib, s, g), i, ev);
  }

  /**
   * Every event of the scan belongs to a moving entity. An event naming a
   * second entity comes from a pair of distinct positions in the motion
   * list, both on screen, with meeting boxes, neither attached to the
   * other, and its kind is what the helper classifies.
   */
  lemma ScanEventsSound(lib: Libm, s: Scene, g: Gate, ev: Event)
    requires Ready(s) && ev in Scan(lib, s, g)
    ensures ev.owner in Movers(s)
    ensures ev.collision.other.Some? ==>
      var y := ev.collision.other.value;
      && y in Movers(s)
      && OnScreen(lib, s, s.transforms[ev.owner].position) && OnScreen(lib, s, s.transforms[y].position)
      && BoxesMeet(lib, s.transforms[ev.owner], s.transforms[y])
      && !AttachedTo(s.reg, ev.owner, y) && !AttachedTo(s.reg, y, ev.owner)
      && Classify(s.reg, ev.owner, y) == Some(ev.collision.kind)
    ensures ev.collision.other.None? ==> ev in OwnEvents(lib, s, ev.owner, g)
  {
    if ev !in OwnEvents(lib, s, ev.owner, g) {
      var i, j :| 0 <= i < j < |Movers(s)|
        && OnScreen(lib, s, s.transforms[Movers(s)[i]].position)
        && ev in PairEvents(lib, s, Movers(s)[i], Movers(s)[j]);
      PairSound(lib, s, Movers(s)[i], Movers(s)[j], ev);
    }
  }

  /** An event of a pair whose first entity is on screen satisfies everything the scan promises of it. */
  lemma PairSound(lib: Libm, s: Scene, a: Entity, b: Entity, ev: Event)
    requires Ready(s) && a in Movers(s) && b in Movers(s)
    requires OnScreen(lib, s, s.transforms[a].position) && ev in PairEvents(lib, s, a, b)
    ensures ev.owner in Movers(s) && ev.collision.other.Some?
    ensures var y := ev.collision.other.value;
      && y in Movers(s)
      && OnScreen(lib, s, s.transforms[ev.owner].position) && OnScreen(lib, s, s.transforms[y].position)
      && BoxesMeet(lib, s.transforms[ev.owner], s.transforms[y])
      && !AttachedTo(s.reg, ev.owner, y) && !AttachedTo(s.reg, y, ev.owner)
      && Classify(s.reg, ev.owner, y) == Some(ev.collision.kind)
  {
    PairOwner(lib, s, a, b, ev);
    BoxesMeetSymmetric(lib, s.transforms[a], s.transforms[b]);
  }

  /**
   * Boundary events: every moving entity other than a cyst whose circles
   * reach past the map's edge gets one, on screen or not, and no other
   * entity does.
   */
  lemma BoundaryEventsExact(lib: Libm, s: Scene, g: Gate, e: Entity)
    requires Ready(s) && e in Movers(s)
    ensures Event(e, BoundaryCollision(s.reg, e)) in Scan(lib, s, g)
        <==> !Has(s.reg, Cysts, e) && CollidesWithBoundary(lib, s.transforms[e])
  {
    var ev := Event(e, BoundaryCollision(s.reg, e));
    if ev in OwnEvents(lib, s, e, g) {
      OwnInScan(lib, s, g, e, ev);
    } else if ev in Scan(lib, s, g) {
      ScanEventsSound(lib, s, g, ev);
      assert false;
    }
  }

  /**
   * Region-boundary events go only to players during an activated boss
   * fight and carry the entity's knockback, which passes the scan's gate.
   */
  lemma RegionEventsExact(lib: Libm, s: Scene, g: Gate, ev: Event)
    requires Ready(s) && ev in Scan(lib, s, g)
    requires ev.collision.kind == PlayerWithRegionBoundary
    ensures ev.owner in Movers(s)
    ensures Has(s.reg, Players, ev.owner) && s.bossActive
    ensures ev.collision.knockback == KnockbackOf(lib, s, ev.owner) && Raises(g, ev.collision.knockback)
  {
    ScanEventsSound(lib, s, g, ev);
  }

  /** With the intended gate every player with a nonzero knockback in an activated boss fight gets its event. */
  lemma RegionEventComplete(lib: Libm, s: Scene, e: Entity)
    requires Ready(s) && e in Movers(s)
    requires Has(s.reg, Players, e) && s.bossActive && KnockbackOf(lib, s, e) != Zero
    ensures Event(e, CollisionKnockback(PlayerWithRegionBoundary, KnockbackOf(lib, s, e))) in Scan(lib, s, Intended)
  {
    OwnInScan(lib, s, Intended, e, Event(e, CollisionKnockback(PlayerWithRegionBoundary, KnockbackOf(lib, s, e))));
  }

  /**
   * The scan as written drops a player's region-boundary bounce whose
   * knockback has a zero component (as in `AsWrittenGateDropsBounce`): no
   * region event of that player is in it, while the intended scan has one.
   */
  lemma AsWrittenScanDropsBounce(lib: Libm, s: Scene, e: Entity)
    requires Ready(s) && e in Movers(s)
    requires Has(s.reg, Players, e) && s.bossActive
    requires KnockbackOf(lib, s, e) != Zero && (KnockbackOf(lib, s, e).x == 0.0 || KnockbackOf(lib, s, e).y == 0.0)
    ensures forall ev :: ev in Scan(lib, s, AsWritten) && ev.owner == e ==> ev.collision.kind != PlayerWithRegionBoundary
    ensures Event(e, CollisionKnockback(PlayerWithRegionBoundary, KnockbackOf(lib, s, e))) in Scan(lib, s, Intended)
  {
    forall ev | ev in Scan(lib, s, AsWritten) && ev.owner == e
      ensures ev.collision.kind != PlayerWithRegionBoundary
    {
      if ev.collision.kind == PlayerWithRegionBoundary {
        RegionEventsExact(lib, s, AsWritten, ev);
        assert false;
      }
    }
    RegionEventComplete(lib, s, e);
  }
}
