/**
 * The two attacks of the AI step. `enemy_shoot` fires every ready enemy
 * gun that is at least partly on screen and restarts its cooldown;
 * `enemy_dash` launches every activated boss whose dash delay has run
 * out, towards the player or (a friend boss close to the player)
 * sideways, and counts the others' dash timers down.
 *
 * Bullets are not created here: a shot is returned as data. The random
 * draws are parameters: `draw(e)` is the number in [0, 1] a friend boss
 * draws to choose between a bullet and its special attack, and
 * `turnLeft(e)` whether a friend boss dashes to its left.
 */
module EnemyAttacks {
  import opened Vectors
  import opened Common
  import opened Components
  import opened Registry
  import opened Timers
  import opened EnemyAi
  import opened Wrappers

  /** What a gun does when it goes off: a bullet of the given size and colour, or a friend boss's special attack. */
  datatype Shot = Bullet(shooter: Entity, size: Vec2, color: Color) | SpecialAttack(shooter: Entity)

  /** The bullet of an ordinary enemy. */
  const ENEMY_BULLET_SIZE: Vec2 := Vec2(13.0, 13.0)
  const ENEMY_BULLET_COLOR: Color := Color(0.718, 1.0, 0.0, 1.0)

  /** Up to this draw an activated friend boss fires a bullet; above it, its special attack. */
  const FRIEND_BOSS_BULLET_ODDS: real := 0.7

  /**
   * The enemy is at least partly on screen: on each axis its distance to
   * the player, less the length of half its scale, is within half the
   * screen.
   */
  predicate InSight(lib: Libm, player: Vec2, t: Transform)
  {
    var reach := Length(lib, Scale(t.scale, 0.5));
    && Abs(player.x - t.position.x) - reach <= CONTENT_WIDTH_PX / 2.0
    && Abs(player.y - t.position.y) - reach <= CONTENT_HEIGHT_PX / 2.0
  }

  /**
   * What a ready gun fires: a boss only once its fight has started, a
   * friend boss also only then and by the draw, any other enemy the
   * standard bullet.
   */
  function Volley(e: Entity, kind: EnemyId, activated: bool, g: Gun, draw: real): (r: seq<Shot>)
    ensures |r| <= 1
    ensures forall k :: 0 <= k < |r| ==> r[k].shooter == e
    ensures !IsBossKind(kind) ==> r == [Bullet(e, ENEMY_BULLET_SIZE, ENEMY_BULLET_COLOR)]
    ensures IsBossKind(kind) && !activated ==> r == []
    ensures SpecialAttack(e) in r <==> kind == FriendBoss && activated && draw > FRIEND_BOSS_BULLET_ODDS
  {
    if kind == Boss then (if activated then [Bullet(e, g.bulletSize, g.bulletColor)] else [])
    else if kind == FriendBoss then
      if !activated then []
      else if draw <= FRIEND_BOSS_BULLET_ODDS then [Bullet(e, g.bulletSize, g.bulletColor)]
      else [SpecialAttack(e)]
    else [Bullet(e, ENEMY_BULLET_SIZE, ENEMY_BULLET_COLOR)]
  }

  /** The lookups `enemy_shoot` makes for the gun of `e`. */
  predicate Armed(s: Swarm, guns: map<Entity, Gun>, e: Entity)
  {
    e in guns && e in s.transforms && (e in s.enemies && IsBossKind(s.enemies[e].kind) ==> e in s.bosses)
  }

  /** The gun of `e` fires this step: it belongs to an enemy in sight, and its cooldown is over. */
  predicate Ready(lib: Libm, s: Swarm, guns: map<Entity, Gun>, e: Entity, player: Vec2)
    requires Armed(s, guns, e)
  {
    e in s.enemies && InSight(lib, player, s.transforms[e]) && guns[e].attackTimer <= 0.0
  }

  datatype GunTurn = GunTurn(gun: Gun, shots: seq<Shot>)

  /**
   * One gun's share of `enemy_shoot`: a ready gun fires and restarts its
   * cooldown (even for a boss that does not shoot yet); then every gun's
   * timer counts down.
   */
  function GunStep(lib: Libm, s: Swarm, guns: map<Entity, Gun>, e: Entity, player: Vec2, elapsedMs: real, draw: real): (r: GunTurn)
    requires Armed(s, guns, e)
    ensures |r.shots| <= 1
    ensures forall sh :: sh in r.shots ==> sh.shooter == e
    ensures r.shots != [] ==> Ready(lib, s, guns, e, player)
  {
    var g := guns[e];
    if Ready(lib, s, guns, e, player) then
      var kind := s.enemies[e].kind;
      var shots := Volley(e, kind, IsBossKind(kind) && s.bosses[e], g, draw);
      GunTurn(g.(attackTimer := Countdown(g.attackDelay, elapsedMs)), shots)
    else GunTurn(g.(attackTimer := Countdown(g.attackTimer, elapsedMs)), [])
  }

  /**
   * A gun fires only when ready, and then restarts from its delay;
   * otherwise its timer only counts down. Either way the timer stays
   * non-negative and nothing else about the gun changes.
   */
  lemma GunDiscipline(lib: Libm, s: Swarm, guns: map<Entity, Gun>, e: Entity, player: Vec2, elapsedMs: real, draw: real)
    requires Armed(s, guns, e)
    ensures var r := GunStep(lib, s, guns, e, player, elapsedMs, draw);
      && r.gun == guns[e].(attackTimer := r.gun.attackTimer)
      && r.gun.attackTimer >= 0.0
      && (r.shots != [] ==> Ready(lib, s, guns, e, player))
      && (Ready(lib, s, guns, e, player) ==> r.gun.attackTimer == Countdown(guns[e].attackDelay, elapsedMs))
      && (!Ready(lib, s, guns, e, player) ==> r.gun.attackTimer == Countdown(guns[e].attackTimer, elapsedMs))
      && (Ready(lib, s, guns, e, player) && !IsBossKind(s.enemies[e].kind) ==>
            r.shots == [Bullet(e, ENEMY_BULLET_SIZE, ENEMY_BULLET_COLOR)])
  {
  }

  /**
   * The cooldown holds: a gun that has just fired with a delay longer than
   * the step does not fire in the next step, whatever happens meanwhile.
   */
  lemma CooldownHolds(lib: Libm, s: Swarm, guns: map<Entity, Gun>, e: Entity, player: Vec2, elapsedMs: real, draw: real,
                      s2: Swarm, player2: Vec2, elapsedMs2: real, draw2: real)
    requires Armed(s, guns, e) && Ready(lib, s, guns, e, player) && guns[e].attackDelay > elapsedMs
    requires Armed(s2, guns[e := GunStep(lib, s, guns, e, player, elapsedMs, draw).gun], e)
    ensures var guns2 := guns[e := GunStep(lib, s, guns, e, player, elapsedMs, draw).gun];
      GunStep(lib, s2, guns2, e, player2, elapsedMs2, draw2).shots == []
  {
    var guns2 := guns[e := GunStep(lib, s, guns, e, player, elapsedMs, draw).gun];
    assert guns2[e].attackTimer > 0.0;
  }

  /** The shots of the first `k` guns, in container order. */
  function Volleys(lib: Libm, s: Swarm, guns: map<Entity, Gun>, order: seq<Entity>, player: Vec2, elapsedMs: real,
                   draw: Entity -> real, k: nat): seq<Shot>
    requires k <= |order| && forall e :: e in order ==> Armed(s, guns, e)
  {
    if k == 0 then []
    else
      var before := Volleys(lib, s, guns, order, player, elapsedMs, draw, k - 1);
      before + GunStep(lib, s, guns, order[k - 1], player, elapsedMs, draw(order[k - 1])).shots
  }

  /** The guns after the first `k` entities of `order` have taken their turn, each against the guns as they were. */
  function Rearmed(lib: Libm, s: Swarm, guns: map<Entity, Gun>, order: seq<Entity>, player: Vec2, elapsedMs: real,
                   draw: Entity -> real, k: nat): (g: map<Entity, Gun>)
    requires k <= |order| && forall e :: e in order ==> Armed(s, guns, e)
    ensures g.Keys == guns.Keys
  {
    if k == 0 then guns
    else
      var e := order[k - 1];
      Rearmed(lib, s, guns, order, player, elapsedMs, draw, k - 1)[e := GunStep(lib, s, guns, e, player, elapsedMs, draw(e)).gun]
  }

  /** After `k` turns, each of the first `k` distinct entities holds its own turn's gun. */
  lemma {:induction false} RearmedTurned(lib: Libm, s: Swarm, guns: map<Entity, Gun>, order: seq<Entity>, player: Vec2,
                                         elapsedMs: real, draw: Entity -> real, k: nat, j: nat)
    requires k <= |order| && Distinct(order) && forall e :: e in order ==> Armed(s, guns, e)
    requires j < k
    ensures Armed(s, guns, order[j])
    ensures Rearmed(lib, s, guns, order, player, elapsedMs, draw, k)[order[j]]
         == GunStep(lib, s, guns, order[j], player, elapsedMs, draw(order[j])).gun
  {
    assert order[j] in order;
    if j < k - 1 {
      assert order[k - 1] != order[j];
      RearmedTurned(lib, s, guns, order, player, elapsedMs, draw, k - 1, j);
    }
  }

  /** After `k` turns, a gun none of the first `k` entities owns is as it was. */
  lemma {:induction false} RearmedUntouched(lib: Libm, s: Swarm, guns: map<Entity, Gun>, order: seq<Entity>, player: Vec2,
                                            elapsedMs: real, draw: Entity -> real, k: nat, e: Entity)
    requires k <= |order| && forall e :: e in order ==> Armed(s, guns, e)
    requires e in guns && forall j :: 0 <= j < k ==> order[j] != e
    ensures Rearmed(lib, s, guns, order, player, elapsedMs, draw, k)[e] == guns[e]
  {
    if k > 0 {
      RearmedUntouched(lib, s, guns, order, player, elapsedMs, draw, k - 1, e);
    }
  }

  /** Every shot comes from a gun of the container that was ready, and no gun fires twice. */
  lemma {:induction false} VolleysFromReadyGuns(lib: Libm, s: Swarm, guns: map<Entity, Gun>, order: seq<Entity>,
                                               player: Vec2, elapsedMs: real, draw: Entity -> real, k: nat)
    requires k <= |order| && forall e :: e in order ==> Armed(s, guns, e)
    ensures |Volleys(lib, s, guns, order, player, elapsedMs, draw, k)| <= k
    ensures forall sh :: sh in Volleys(lib, s, guns, order, player, elapsedMs, draw, k) ==>
      sh.shooter in order[..k] && Ready(lib, s, guns, sh.shooter, player)
  {
    if k > 0 {
      VolleysFromReadyGuns(lib, s, guns, order, player, elapsedMs, draw, k - 1);
      assert order[..k] == order[..k - 1] + [order[k - 1]];
    }
  }

  /**
   * `enemy_shoot` over the gun container: each gun steps once, and the
   * shots come out in container order.
   */
  method EnemyShoot(lib: Libm, s: Swarm, guns: map<Entity, Gun>, order: seq<Entity>, player: Vec2, elapsedMs: real,
                    draw: Entity -> real) returns (guns': map<Entity, Gun>, shots: seq<Shot>)
    requires forall e :: e in order ==> Armed(s, guns, e)
    ensures guns'.Keys == guns.Keys
    ensures guns' == Rearmed(lib, s, guns, order, player, elapsedMs, draw, |order|)
    ensures shots == Volleys(lib, s, guns, order, player, elapsedMs, draw, |order|)
  {
    guns' := guns;
    shots := [];
    for i := 0 to |order|
      invariant guns' == Rearmed(lib, s, guns, order, player, elapsedMs, draw, i)
      invariant shots == Volleys(lib, s, guns, order, player, elapsedMs, draw, i)
    {
      var e := order[i];
      var turn := GunStep(lib, s, guns, e, player, elapsedMs, draw(e));
      guns' := guns'[e := turn.gun];
      shots := shots + turn.shots;
    }
  }

  /** Extra clearance between a dashing boss and the player, beyond the boss's own size. */
  const DASH_CLEARANCE: real := 100.0

  /** Below this distance a friend boss dashes around the player instead of at it. */
  const CIRCLE_DISTANCE: real := 300.0

  /** How far the boss may dash before reaching the player: the gap less its size and the clearance. */
  function DashDistance(lib: Libm, t: Transform, player: Vec2): real
  {
    Length(lib, Sub(player, t.position)) - Length(lib, t.scale) - DASH_CLEARANCE
  }

  /** The unit vector at `angle`, as glm normalises it. */
  function Heading(lib: Libm, angle: real): Vec2
  {
    Normalize(lib, Vec2(lib.cos(angle), lib.sin(angle)))
  }

  /** What a boss whose delay is over does: dash around the player, dash at it, or give up the whole step. */
  datatype DashPlan = Sideways(dir: Vec2, speed: real) | Towards(dir: Vec2, speed: real) | Hold

  /**
   * The dash decision. The facing angle is the transform's angle less its
   * offset. A friend boss close to the player dashes at full speed a
   * quarter turn to the side the draw picks. Otherwise the boss dashes
   * straight ahead when the player lies within a ninth of a half turn of
   * its facing, or (as written) whenever the angle to the player is below
   * half a turn plus ANGLE_PRECISION; the speed is capped so that the
   * dash ends at the player. Otherwise it holds.
   */
  function PlanDash(lib: Libm, kind: EnemyId, t: Transform, d: Dash, player: Vec2, turnLeft: bool): DashPlan
    requires d.activeDurationMs > 0.0
  {
    var facing := t.angle - t.angleOffset;
    var diff := Sub(player, t.position);
    var remaining := Abs(lib.atan2(diff.y, diff.x) - facing);
    var distance := DashDistance(lib, t, player);
    if distance < CIRCLE_DISTANCE && kind == FriendBoss then
      var side := if turnLeft then PI / 2.0 else -PI / 2.0;
      Sideways(Heading(lib, facing + side), d.maxDashVelocity)
    else if remaining <= PI / 9.0 || remaining - PI < ANGLE_PRECISION then
      var secs := d.activeDurationMs / 1000.0;
      Towards(Heading(lib, facing), if d.maxDashVelocity * secs > distance then distance / secs else d.maxDashVelocity)
    else Hold
  }

  /**
   * A dash at the player never goes past it: over the active time it
   * covers at most the dash distance, exactly that distance when full
   * speed would overshoot, and it is never faster than full speed.
   */
  lemma DashStopsAtPlayer(lib: Libm, kind: EnemyId, t: Transform, d: Dash, player: Vec2, turnLeft: bool)
    requires d.activeDurationMs > 0.0
    ensures var p := PlanDash(lib, kind, t, d, player, turnLeft);
      var secs := d.activeDurationMs / 1000.0;
      var distance := DashDistance(lib, t, player);
      p.Towards? ==>
        && p.speed * secs <= distance
        && p.speed <= d.maxDashVelocity
        && (d.maxDashVelocity * secs > distance ==> p.speed * secs == distance)
        && (d.maxDashVelocity * secs <= distance ==> p.speed == d.maxDashVelocity)
  {
    var p := PlanDash(lib, kind, t, d, player, turnLeft);
    var secs := d.activeDurationMs / 1000.0;
    var distance := DashDistance(lib, t, player);
    if p.Towards? && d.maxDashVelocity * secs > distance {
      QuotientBelow(distance, secs, d.maxDashVelocity);
    }
  }

  /** If `m * secs > distance` then `distance / secs` is below `m`, and covers `distance` in `secs`. */
  lemma QuotientBelow(distance: real, secs: real, m: real)
    requires secs > 0.0 && m * secs > distance
    ensures (distance / secs) * secs == distance && distance / secs < m
  {
    var q := distance / secs;
    assert q * secs == distance;
    assert (m - q) * secs > 0.0;
  }

  /** An activated boss of the enemy container: the only entities `enemy_dash` touches. */
  predicate Hunting(s: Swarm, e: Entity)
  {
    e in s.enemies && e in s.bosses && s.bosses[e]
  }

  /** The lookups `enemy_dash` makes for `e`: a transform, and for a boss about to dash a motion and an active time. */
  predicate DashReady(s: Swarm, e: Entity)
  {
    e in s.dashes && e in s.transforms
    && (Hunting(s, e) && s.dashes[e].delayTimerMs <= 0.0 ==> e in s.motions && s.dashes[e].activeDurationMs > 0.0)
  }

  /** One entity's turn in `enemy_dash`. */
  datatype DashTurn = Idle | Wait(dash: Dash) | Launch(dash: Dash, velocity: Vec2) | Abandon

  /**
   * Anything but an activated boss is left alone. A boss still in its
   * delay counts both timers down. A boss whose delay is over either
   * launches, adding the dash to its velocity and restarting both timers,
   * or holds, which ends the whole step.
   */
  function DashOne(lib: Libm, s: Swarm, e: Entity, player: Vec2, elapsedMs: real, turnLeft: bool): DashTurn
    requires DashReady(s, e)
  {
    var d := s.dashes[e];
    if !Hunting(s, e) then Idle
    else if d.delayTimerMs > 0.0 then
      Wait(d.(delayTimerMs := Countdown(d.delayTimerMs, elapsedMs), activeTimerMs := Countdown(d.activeTimerMs, elapsedMs)))
    else
      match PlanDash(lib, s.enemies[e].kind, s.transforms[e], d, player, turnLeft)
      case Hold => Abandon
      case Sideways(dir, speed) => Launch(d.(delayTimerMs := d.delayDurationMs, activeTimerMs := d.activeDurationMs),
                                          Add(s.motions[e].velocity, Scale(dir, speed)))
      case Towards(dir, speed) => Launch(d.(delayTimerMs := d.delayDurationMs, activeTimerMs := d.activeDurationMs),
                                         Add(s.motions[e].velocity, Scale(dir, speed)))
  }

  /**
   * A launch happens only for an activated boss whose delay is over, and
   * leaves it dashing for its full active time with a fresh delay; a wait
   * only counts down, never below zero.
   */
  lemma DashTimers(lib: Libm, s: Swarm, e: Entity, player: Vec2, elapsedMs: real, turnLeft: bool)
    requires DashReady(s, e)
    ensures var r := DashOne(lib, s, e, player, elapsedMs, turnLeft);
      var d := s.dashes[e];
      && (r.Launch? ==>
            && Hunting(s, e) && d.delayTimerMs <= 0.0
            && r.dash == d.(delayTimerMs := d.delayDurationMs, activeTimerMs := d.activeDurationMs)
            && IsDashing(r.dash))
      && (r.Wait? ==>
            && Hunting(s, e) && d.delayTimerMs > 0.0
            && 0.0 <= r.dash.delayTimerMs && 0.0 <= r.dash.activeTimerMs
            && (0.0 <= elapsedMs ==> r.dash.delayTimerMs <= d.delayTimerMs && r.dash.activeTimerMs <= Max(d.activeTimerMs, 0.0)))
      && (r.Idle? <==> !Hunting(s, e))
      && (r.Abandon? ==> Hunting(s, e) && d.delayTimerMs <= 0.0)
  {
  }

  /** `e`'s dash and motion in `s'` are what its turn says; `Idle` and `Abandon` change nothing. */
  predicate Applied(s: Swarm, s': Swarm, e: Entity, turn: DashTurn)
  {
    match turn
    case Launch(d, v) => e in s'.dashes && s'.dashes[e] == d && e in s.motions && e in s'.motions && s'.motions[e] == s.motions[e].(velocity := v)
    case Wait(d) => e in s'.dashes && s'.dashes[e] == d && Kept(s.motions, s'.motions, e)
    case _ => Kept(s.dashes, s'.dashes, e) && Kept(s.motions, s'.motions, e)
  }

  /** `e` has the same entry in `m'` as in `m`, if it has one. */
  predicate Kept<V(==)>(m: map<Entity, V>, m': map<Entity, V>, e: Entity)
  {
    e in m ==> e in m' && m'[e] == m[e]
  }

  /** Carries out one entity's turn on the state `cur`. */
  function Apply(s: Swarm, cur: Swarm, e: Entity, turn: DashTurn): (r: Swarm)
    requires turn.Launch? ==> e in s.motions
    ensures r == cur.(dashes := r.dashes, motions := r.motions)
    ensures Kept(s.dashes, cur.dashes, e) && Kept(s.motions, cur.motions, e) ==> Applied(s, r, e, turn)
    ensures forall x :: x != e ==> Kept(cur.dashes, r.dashes, x) && Kept(cur.motions, r.motions, x)
    ensures cur.dashes.Keys <= r.dashes.Keys <= cur.dashes.Keys + {e}
    ensures cur.motions.Keys <= r.motions.Keys <= cur.motions.Keys + {e}
  {
    match turn
    case Launch(d, v) => cur.(dashes := cur.dashes[e := d], motions := cur.motions[e := s.motions[e].(velocity := v)])
    case Wait(d) => cur.(dashes := cur.dashes[e := d])
    case _ => cur
  }

  /** A turn once carried out stays carried out while its entity's entries are kept. */
  lemma AppliedStays(s: Swarm, s1: Swarm, s2: Swarm, e: Entity, turn: DashTurn)
    requires Applied(s, s1, e, turn)
    requires Kept(s1.dashes, s2.dashes, e) && Kept(s1.motions, s2.motions, e)
    ensures Applied(s, s2, e, turn)
  {
  }

  /** Where the sweep ended: at the boss that held, or after the whole container. */
  function StopAt(halted: Option<nat>, n: nat): nat
  {
    match halted
    case Some(i) => i
    case None => n
  }

  /**
   * `enemy_dash` over the dash container. Each entity before the stop
   * gets its turn; a boss that holds ends the step, so it and everything
   * after it keep their dashes and motions.
   */
  method EnemyDash(lib: Libm, s: Swarm, order: seq<Entity>, player: Vec2, elapsedMs: real, turnLeft: Entity -> bool)
    returns (s': Swarm, halted: Option<nat>)
    requires Distinct(order) && forall e :: e in order ==> DashReady(s, e)
    ensures s' == s.(dashes := s'.dashes, motions := s'.motions)
    ensures s'.dashes.Keys == s.dashes.Keys && s'.motions.Keys == s.motions.Keys
    ensures halted.Some? ==> halted.value < |order| && DashOne(lib, s, order[halted.value], player, elapsedMs, turnLeft(order[halted.value])).Abandon?
    ensures forall k :: 0 <= k < StopAt(halted, |order|) ==>
      Applied(s, s', order[k], DashOne(lib, s, order[k], player, elapsedMs, turnLeft(order[k])))
    ensures forall k :: StopAt(halted, |order|) <= k < |order| ==>
      Kept(s.dashes, s'.dashes, order[k]) && Kept(s.motions, s'.motions, order[k])
    ensures forall e :: e !in order ==> Kept(s.dashes, s'.dashes, e) && Kept(s.motions, s'.motions, e)
  {
    s' := s;
    halted := None;
    var i := 0;
    while i < |order|
      invariant 0 <= i <= |order|
      invariant s' == s.(dashes := s'.dashes, motions := s'.motions)
      invariant s'.dashes.Keys == s.dashes.Keys && s'.motions.Keys == s.motions.Keys
      invariant forall k :: 0 <= k < i ==> Applied(s, s', order[k], DashOne(lib, s, order[k], player, elapsedMs, turnLeft(order[k])))
      invariant forall k :: i <= k < |order| ==> Kept(s.dashes, s'.dashes, order[k]) && Kept(s.motions, s'.motions, order[k])
      invariant forall e :: e !in order ==> Kept(s.dashes, s'.dashes, e) && Kept(s.motions, s'.motions, e)
    {
      var e := order[i];
      var turn := DashOne(lib, s, e, player, elapsedMs, turnLeft(e));
      if turn.Abandon? {
        halted := Some(i);
        return;
      }
      assert e in s.dashes;
      assert forall k :: 0 <= k < |order| && k != i ==> order[k] != e;
      ghost var before := s';
      s' := Apply(s, s', e, turn);
      forall k | 0 <= k < i
        ensures Applied(s, s', order[k], DashOne(lib, s, order[k], player, elapsedMs, turnLeft(order[k])))
      {
        AppliedStays(s, before, s', order[k], DashOne(lib, s, order[k], player, elapsedMs, turnLeft(order[k])));
      }
      i := i + 1;
    }
  }
}
