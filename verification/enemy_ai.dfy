/**
 * How enemies move: `move_enemies` pushes every free enemy towards the
 * player and lets boss arms reach for the player or fold back,
 * `swarm_keep_distance` pushes each ordinary enemy away from its nearest
 * neighbour, and `swarm_block_interestpoint` draws ordinary enemies
 * towards the waypoint nearest the player. All three only add to forces
 * (or set an arm's joint); none moves anything.
 */
module EnemyAi {
  import opened Vectors
  import opened Common
  import opened Components
  import opened Registry
  import opened Motions
  import opened Articulation
  import opened Wrappers

  /**
   * The enemies and the components the AI reads and writes. `order` is
   * the enemy container's entity list; `bosses` maps each entity with a
   * boss component to whether the boss fight has started.
   */
  datatype Swarm = Swarm(
    order: seq<Entity>,
    enemies: map<Entity, Enemy>,
    transforms: map<Entity, Transform>,
    motions: map<Entity, Motion>,
    attachments: map<Entity, Attachment>,
    bosses: map<Entity, bool>,
    dashes: map<Entity, Dash>)

  /** A boss arm reaches for the player within half the screen height. */
  const ARM_REACH: real := CONTENT_HEIGHT_PX / 2.0

  /** The enemy kinds that have a boss component and stand still until their fight starts. */
  predicate IsBossKind(k: EnemyId) { k == Boss || k == FriendBoss }

  /**
   * One free enemy's share of `move_enemies`. An enemy bounced off a wall
   * this frame (acceleration not allowed) only has the flag restored. A
   * boss whose fight has not started gets a zero speed cap. A friend boss
   * in the middle of a dash aims at its own position, which adds no force.
   * Everyone else adds the unit direction towards the player to its force.
   */
  function ChaseMotion(lib: Libm, kind: EnemyId, t: Transform, m: Motion, activated: bool, dashing: bool, target: Vec2): (r: Motion)
    ensures !m.allowAccel ==> r == m.(allowAccel := true)
    ensures m.allowAccel ==> r == m.(force := r.force, maxVelocity := r.maxVelocity)
    ensures m.allowAccel ==> (r.maxVelocity == 0.0 && IsBossKind(kind) && !activated) || r.maxVelocity == m.maxVelocity
    ensures m.allowAccel && IsBossKind(kind) && !activated ==> r.maxVelocity == 0.0
    ensures m.allowAccel ==>
      r.force == Add(m.force, Normalize(lib, Sub(if kind == FriendBoss && dashing then t.position else target, t.position)))
  {
    if !m.allowAccel then m.(allowAccel := true)
    else
      var cap := if IsBossKind(kind) && !activated then 0.0 else m.maxVelocity;
      var aim := if kind == FriendBoss && dashing then t.position else target;
      m.(maxVelocity := cap, force := Add(m.force, Normalize(lib, Sub(aim, t.position))))
  }

  /**
   * The chase force has unit length and points at the player, unless the
   * enemy stands on the player; a dashing friend boss gets none.
   */
  lemma ChaseTowardsPlayer(lib: Libm, kind: EnemyId, t: Transform, m: Motion, activated: bool, dashing: bool, target: Vec2)
    requires SqrtLaw(lib) && m.allowAccel
    ensures var added := Sub(ChaseMotion(lib, kind, t, m, activated, dashing, target).force, m.force);
      && (kind == FriendBoss && dashing ==> added == Zero)
      && (!(kind == FriendBoss && dashing) && target != t.position ==>
            Norm2(added) == 1.0 && Dot(added, Sub(target, t.position)) > 0.0)
  {
    ChaseAdds(lib, kind, t, m, activated, dashing, target);
    if kind == FriendBoss && dashing {
      assert Sub(t.position, t.position) == Zero;
      assert Normalize(lib, Zero) == Zero by {
        SqrtZero(lib);
        NormalizeZero(lib);
      }
    } else if target != t.position {
      UnitTowards(lib, Sub(target, t.position));
    }
  }

  /** The force the chase adds is the normalised direction to the aim point. */
  lemma ChaseAdds(lib: Libm, kind: EnemyId, t: Transform, m: Motion, activated: bool, dashing: bool, target: Vec2)
    requires m.allowAccel
    ensures Sub(ChaseMotion(lib, kind, t, m, activated, dashing, target).force, m.force)
      == Normalize(lib, Sub(if kind == FriendBoss && dashing then t.position else target, t.position))
  {
  }

  /** A normalised non-zero vector has unit length and points the same way as the vector. */
  lemma UnitTowards(lib: Libm, d: Vec2)
    requires SqrtLaw(lib) && d != Zero
    ensures Norm2(Normalize(lib, d)) == 1.0
    ensures Dot(Normalize(lib, d), d) > 0.0
  {
    PositiveNorm(d);
    NormalizeIsUnit(lib, d);
    var l := Length(lib, d);
    SqrtOf(lib, Norm2(d));
    assert l > 0.0;
    var u := Normalize(lib, d);
    assert Dot(u, d) == l * Norm2(u) by {
      assert d.x == u.x * l && d.y == u.y * l;
    }
    MulPositive(l, Norm2(u));
  }

  lemma MulPositive(a: real, b: real)
    requires a > 0.0 && b > 0.0
    ensures a * b > 0.0
  {
  }

  /** A boss arm's motion and joint after `move_articulated_part`. */
  datatype Joint = Joint(motion: Motion, attachment: Attachment)

  /**
   * `move_articulated_part`. Within reach of the player the arm stops
   * turning and is pushed straight at the player (replacing its force).
   * Out of reach it folds back towards the rest position 0 at the capped
   * rate that would get there in one step, or snaps to 0 once within
   * ANGLE_PRECISION of it.
   */
  function MoveArticulatedPart(lib: Libm, secs: real, t: Transform, m: Motion, a: Attachment, player: Transform): (r: Joint)
    ensures var dist := Sub(player.position, t.position);
      Length(lib, dist) <= ARM_REACH ==>
        r == Joint(m.(angularVelocity := 0.0, force := Normalize(lib, dist)), a)
    ensures Length(lib, Sub(player.position, t.position)) > ARM_REACH && Abs(a.movedAngle) <= ANGLE_PRECISION ==>
      r == Joint(m.(angularVelocity := 0.0), a.(movedAngle := 0.0))
    ensures Length(lib, Sub(player.position, t.position)) > ARM_REACH && Abs(a.movedAngle) > ANGLE_PRECISION ==>
      && r.attachment == a
      && r.motion == m.(angularVelocity := r.motion.angularVelocity)
      && (secs > 0.0 && 0.0 <= m.maxAngularVelocity ==>
            var w := r.motion.angularVelocity;
            && Abs(w) <= m.maxAngularVelocity
            && Abs(w) * secs <= Abs(a.movedAngle)
            && w * a.movedAngle <= 0.0
            && (Abs(w) == m.maxAngularVelocity || Abs(w) * secs == Abs(a.movedAngle)))
  {
    var dist := Sub(player.position, t.position);
    if Length(lib, dist) <= ARM_REACH then
      Joint(m.(angularVelocity := 0.0, force := Normalize(lib, dist)), a)
    else if Abs(a.movedAngle) > ANGLE_PRECISION then
      var remaining := -a.movedAngle;
      var speed := TurnSpeed(remaining, secs, m.maxAngularVelocity);
      SignedSpeed(speed, remaining);
      Joint(m.(angularVelocity := speed * Sign(remaining)), a)
    else
      Joint(m.(angularVelocity := 0.0), a.(movedAngle := 0.0))
  }

  /**
   * The fold-back never overshoots. An out-of-reach arm keeps its force,
   * and when the physics step swings its joint by the new angular velocity
   * (as `ForcelessSwing` says it does for an arm that carries no force),
   * the joint ends between its old angle and the rest position 0, on the
   * same side as before.
   */
  lemma RetractionNeverOvershoots(lib: Libm, secs: real, t: Transform, m: Motion, a: Attachment, player: Transform)
    requires secs > 0.0 && 0.0 <= m.maxAngularVelocity
    requires Length(lib, Sub(player.position, t.position)) > ARM_REACH
    ensures var r := MoveArticulatedPart(lib, secs, t, m, a, player);
      var s := r.attachment.movedAngle + r.motion.angularVelocity * secs;
      && r.motion.force == m.force
      && Abs(s) <= Abs(a.movedAngle) && SameSide(s, a.movedAngle)
  {
    var r := MoveArticulatedPart(lib, secs, t, m, a, player);
    var w := r.motion.angularVelocity;
    if Abs(a.movedAngle) > ANGLE_PRECISION {
      FoldBack(a.movedAngle, w, secs, a.movedAngle + w * secs);
    }
  }

  /** `s` is not on the other side of 0 from `x`. */
  predicate SameSide(s: real, x: real) { (x > 0.0 ==> s >= 0.0) && (x < 0.0 ==> s <= 0.0) }

  /** Moving `x` against its sign by no more than its magnitude stays on its side of 0. */
  lemma FoldBack(x: real, w: real, secs: real, s: real)
    requires secs > 0.0 && Abs(w) * secs <= Abs(x) && w * x <= 0.0 && s == x + w * secs
    ensures Abs(s) <= Abs(x) && SameSide(s, x)
  {
    AbsScaled(w, secs);
    if x > 0.0 {
      assert w <= 0.0 by {
        if w > 0.0 {
          MulPositive(w, x);
        }
      }
      assert w * secs <= 0.0 by {
        if w < 0.0 {
          MulPositive(-w, secs);
        }
      }
      assert x + w * secs >= 0.0;
    } else if x < 0.0 {
      assert w >= 0.0 by {
        if w < 0.0 {
          MulPositive(-w, -x);
        }
      }
      assert w * secs >= 0.0 by {
        if w > 0.0 {
          MulPositive(w, secs);
        }
      }
      assert x + w * secs <= 0.0;
    }
  }

  /**
   * Whether entity `e` of the enemy container is processed by
   * `move_enemies`, and the component lookups the source asserts on the
   * way: a transform for every moving enemy, and a boss (plus, for the
   * friend boss, a dash) for a boss that is about to chase.
   */
  predicate ChaseReady(s: Swarm, e: Entity)
  {
    e in s.enemies
    && (e in s.motions ==> e in s.transforms)
    && (e in s.motions && e !in s.attachments && s.motions[e].allowAccel ==>
          (IsBossKind(s.enemies[e].kind) ==> e in s.bosses)
          && (s.enemies[e].kind == FriendBoss ==> e in s.dashes))
  }

  /** Entity `e`'s motion after `move_enemies`. */
  function ChasedMotion(lib: Libm, s: Swarm, e: Entity, player: Transform, elapsedMs: real): Motion
    requires e in s.motions && ChaseReady(s, e)
  {
    if e in s.attachments then
      MoveArticulatedPart(lib, elapsedMs / 1000.0, s.transforms[e], s.motions[e], s.attachments[e], player).motion
    else if !s.motions[e].allowAccel then
      s.motions[e].(allowAccel := true)
    else
      var kind := s.enemies[e].kind;
      ChaseMotion(lib, kind, s.transforms[e], s.motions[e],
                  IsBossKind(kind) && s.bosses[e],
                  kind == FriendBoss && IsDashing(s.dashes[e]),
                  player.position)
  }

  /** Entity `e`'s attachment after `move_enemies`. */
  function ChasedAttachment(lib: Libm, s: Swarm, e: Entity, player: Transform, elapsedMs: real): Attachment
    requires e in s.motions && e in s.attachments && ChaseReady(s, e)
  {
    MoveArticulatedPart(lib, elapsedMs / 1000.0, s.transforms[e], s.motions[e], s.attachments[e], player).attachment
  }

  /**
   * `move_enemies` over the enemy container. Each enemy with a motion is
   * handled on its own: arms by `MoveArticulatedPart`, the rest by
   * `ChaseMotion`. Enemies without motion, and every entity outside the
   * container, keep their components.
   */
  method MoveEnemies(lib: Libm, s: Swarm, player: Transform, elapsedMs: real) returns (s': Swarm)
    requires Distinct(s.order)
    requires forall e :: e in s.order ==> ChaseReady(s, e)
    ensures s' == s.(motions := s'.motions, attachments := s'.attachments)
    ensures s'.motions.Keys == s.motions.Keys && s'.attachments.Keys == s.attachments.Keys
    ensures forall e :: e in s.order && e in s.motions ==> s'.motions[e] == ChasedMotion(lib, s, e, player, elapsedMs)
    ensures forall e :: e in s.order && e in s.motions && e in s.attachments ==>
      s'.attachments[e] == ChasedAttachment(lib, s, e, player, elapsedMs)
    ensures forall e :: e in s.motions && e !in s.order ==> s'.motions[e] == s.motions[e]
    ensures forall e :: e in s.attachments && (e !in s.order || e !in s.motions) ==> s'.attachments[e] == s.attachments[e]
  {
    var motions := ChaseMotions(lib, s, player, elapsedMs);
    var attachments := ChaseAttachments(lib, s, player, elapsedMs);
    s' := s.(motions := motions, attachments := attachments);
  }

  /** The motion half of `move_enemies`; every entity's motion depends only on the swarm before the update. */
  method ChaseMotions(lib: Libm, s: Swarm, player: Transform, elapsedMs: real) returns (motions: map<Entity, Motion>)
    requires Distinct(s.order)
    requires forall e :: e in s.order ==> ChaseReady(s, e)
    ensures motions.Keys == s.motions.Keys
    ensures forall e :: e in s.order && e in s.motions ==> motions[e] == ChasedMotion(lib, s, e, player, elapsedMs)
    ensures forall e :: e in s.motions && e !in s.order ==> motions[e] == s.motions[e]
  {
    motions := s.motions;
    for i := 0 to |s.order|
      invariant motions.Keys == s.motions.Keys
      invariant forall k :: 0 <= k < i && s.order[k] in s.motions ==>
        motions[s.order[k]] == ChasedMotion(lib, s, s.order[k], player, elapsedMs)
      invariant forall e :: e in s.motions && e !in s.order[..i] ==> motions[e] == s.motions[e]
    {
      var e := s.order[i];
      assert forall k :: 0 <= k < i ==> s.order[k] != e;
      if e in s.motions {
        motions := motions[e := ChasedMotion(lib, s, e, player, elapsedMs)];
      }
    }
    assert s.order[..|s.order|] == s.order;
  }

  /** The joint half of `move_enemies`: the arms' attachments. */
  method ChaseAttachments(lib: Libm, s: Swarm, player: Transform, elapsedMs: real) returns (attachments: map<Entity, Attachment>)
    requires Distinct(s.order)
    requires forall e :: e in s.order ==> ChaseReady(s, e)
    ensures attachments.Keys == s.attachments.Keys
    ensures forall e :: e in s.order && e in s.motions && e in s.attachments ==>
      attachments[e] == ChasedAttachment(lib, s, e, player, elapsedMs)
    ensures forall e :: e in s.attachments && (e !in s.order || e !in s.motions) ==> attachments[e] == s.attachments[e]
  {
    attachments := s.attachments;
    for i := 0 to |s.order|
      invariant attachments.Keys == s.attachments.Keys
      invariant forall k :: 0 <= k < i && s.order[k] in s.motions && s.order[k] in s.attachments ==>
        attachments[s.order[k]] == ChasedAttachment(lib, s, s.order[k], player, elapsedMs)
      invariant forall e :: e in s.attachments && (e !in s.order[..i] || e !in s.motions) ==> attachments[e] == s.attachments[e]
    {
      var e := s.order[i];
      assert forall k :: 0 <= k < i ==> s.order[k] != e;
      if e in s.motions && e in s.attachments {
        attachments := attachments[e := ChasedAttachment(lib, s, e, player, elapsedMs)];
      }
    }
    assert s.order[..|s.order|] == s.order;
  }

  /**
   * An enemy that bounced off a wall this frame gets no chase force and
   * is allowed to accelerate again; a boss whose fight has not started
   * cannot move.
   */
  lemma BouncedEnemyRests(lib: Libm, s: Swarm, e: Entity, player: Transform, elapsedMs: real)
    requires e in s.motions && ChaseReady(s, e) && e !in s.attachments
    ensures !s.motions[e].allowAccel ==>
      ChasedMotion(lib, s, e, player, elapsedMs) == s.motions[e].(allowAccel := true)
    ensures s.motions[e].allowAccel && IsBossKind(s.enemies[e].kind) && !s.bosses[e] ==>
      ChasedMotion(lib, s, e, player, elapsedMs).maxVelocity == 0.0
  {
  }
}
