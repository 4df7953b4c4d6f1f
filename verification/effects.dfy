/**
 * The cyst effects: touching a cyst applies a random positive or negative
 * effect to the player for a while. The effects system keeps a table of
 * the nine effects with an active flag each; an effect is chosen only
 * among the inactive ones of the drawn polarity, and a timed event undoes
 * it later.
 *
 * The random draws are inputs: the polarity draw, and the stream of
 * indices the weighted distribution produces (the selection loop redraws
 * until it meets an inactive effect). Timed-event callbacks are data,
 * carried out by `RunCallback`. Sounds and the mixer volume are left out.
 */
module Effects {
  import opened Vectors
  import opened Common
  import opened Components
  import opened Wrappers
  import opened EnemyAi

  datatype EffectType = Positive | Negative

  datatype Effect = Effect(id: CystEffectId, kind: EffectType, active: bool)

  /**
   * The effect table as the system builds it, in effect-code order: the
   * first five positive, the rest negative; the screen clear and the
   * direction swap start active, which takes them out of the draw.
   */
  const INITIAL_EFFECTS: seq<Effect> := [
    Effect(Damage, Positive, false),
    Effect(Heal, Positive, false),
    Effect(ClearScreen, Positive, true),
    Effect(Triple, Positive, false),
    Effect(Lots, Positive, false),
    Effect(Slow, Negative, false),
    Effect(Fov, Negative, false),
    Effect(Direction, Negative, true),
    Effect(NoAttack, Negative, false)
  ]

  /** The number of weights of each polarity's distribution: the index drawn is an effect code (offset by the negatives' start). */
  const POS_WEIGHT_COUNT: nat := 5
  const NEG_WEIGHT_COUNT: nat := 4

  /** A draw at most this picks a positive effect. */
  const POS_PROB: real := 0.7

  /** The table is in effect-code order, with the polarity the codes give. */
  predicate Shaped(es: seq<Effect>)
  {
    |es| == CYST_EFFECT_COUNT
    && forall i :: 0 <= i < |es| ==> EffectCode(es[i].id) == i && (es[i].kind == Positive <==> i < CYST_NEG_START)
  }

  /** The number of active entries of the given polarity (`countActivePositive`, `countActiveNegative`). */
  function CountActive(es: seq<Effect>, kind: EffectType): nat
  {
    if es == [] then 0
    else CountActive(es[..|es| - 1], kind) + (if es[|es| - 1].active && es[|es| - 1].kind == kind then 1 else 0)
  }

  /** The number of active entries. */
  function CountAllActive(es: seq<Effect>): nat
  {
    if es == [] then 0 else CountAllActive(es[..|es| - 1]) + (if es[|es| - 1].active then 1 else 0)
  }

  /** The number of entries of a polarity. */
  function CountKind(es: seq<Effect>, kind: EffectType): nat
  {
    if es == [] then 0 else CountKind(es[..|es| - 1], kind) + (if es[|es| - 1].kind == kind then 1 else 0)
  }

  /** The two counts split the active entries, and neither exceeds its polarity's size. */
  lemma {:induction false} CountsSplit(es: seq<Effect>)
    ensures CountActive(es, Positive) + CountActive(es, Negative) == CountAllActive(es)
    ensures CountActive(es, Positive) <= CountKind(es, Positive)
    ensures CountActive(es, Negative) <= CountKind(es, Negative)
  {
    if es != [] {
      CountsSplit(es[..|es| - 1]);
    }
  }

  /** A polarity with fewer active entries than entries has an inactive one. */
  lemma {:induction false} InactiveExists(es: seq<Effect>, kind: EffectType)
    requires CountActive(es, kind) < CountKind(es, kind)
    ensures exists i :: 0 <= i < |es| && es[i].kind == kind && !es[i].active
  {
    var front := es[..|es| - 1];
    var last := es[|es| - 1];
    if last.kind == kind && !last.active {
      assert es[|es| - 1].kind == kind;
    } else {
      InactiveExists(front, kind);
      var i :| 0 <= i < |front| && front[i].kind == kind && !front[i].active;
      assert es[i] == front[i];
    }
  }

  /** A shaped table has five positive and four negative entries. */
  lemma ShapedCounts(es: seq<Effect>)
    requires Shaped(es)
    ensures CountKind(es, Positive) == CYST_NEG_START
    ensures CountKind(es, Negative) == CYST_EFFECT_COUNT - CYST_NEG_START
  {
    KindPrefix(es, |es|);
    assert es[..|es|] == es;
  }

  lemma {:induction false} KindPrefix(es: seq<Effect>, k: nat)
    requires Shaped(es) && k <= |es|
    ensures CountKind(es[..k], Positive) == (if k < CYST_NEG_START then k else CYST_NEG_START)
    ensures CountKind(es[..k], Negative) == (if k < CYST_NEG_START then 0 else k - CYST_NEG_START)
  {
    if k > 0 {
      KindPrefix(es, k - 1);
      assert es[..k][..k - 1] == es[..k - 1];
    }
  }

  /** `getEffect`: the position of the first entry with the id, if any. */
  function GetEffect(es: seq<Effect>, id: CystEffectId): (r: Option<nat>)
    ensures r.None? <==> forall i :: 0 <= i < |es| ==> es[i].id != id
    ensures r.Some? ==> r.value < |es| && es[r.value].id == id && forall j :: 0 <= j < r.value ==> es[j].id != id
  {
    if es == [] then None
    else if es[0].id == id then Some(0)
    else match GetEffect(es[1..], id)
      case None => None
      case Some(i) => Some(i + 1)
  }

  /** In a shaped table the effect with an id sits at its code. */
  lemma ShapedLookup(es: seq<Effect>, id: CystEffectId)
    requires Shaped(es)
    ensures GetEffect(es, id) == Some(EffectCode(id))
  {
    var i := EffectCode(id);
    assert es[i].id == id by {
      EffectCodeRoundTrip(id);
      EffectCodeRoundTrip(es[i].id);
    }
  }

  /** The table starts shaped. */
  lemma InitialShaped()
    ensures Shaped(INITIAL_EFFECTS)
  {
  }

  /** The table starts with one active effect of each polarity: the screen clear and the direction swap. */
  lemma InitialActive()
    ensures CountActive(INITIAL_EFFECTS, Positive) == 1 && CountActive(INITIAL_EFFECTS, Negative) == 1
    ensures CountAllActive(INITIAL_EFFECTS) == 2
  {
    var es := INITIAL_EFFECTS;
    assert es[..0] == [];
    for k := 0 to 9
      invariant CountActive(es[..k], Positive) == (if k < 3 then 0 else 1)
      invariant CountActive(es[..k], Negative) == (if k < 8 then 0 else 1)
    {
      ActivePrefixStep(es, k, Positive);
      ActivePrefixStep(es, k, Negative);
    }
    assert es[..9] == es;
    CountsSplit(es);
  }

  /** Counting one more entry of a prefix. */
  lemma ActivePrefixStep(es: seq<Effect>, k: nat, kind: EffectType)
    requires k < |es|
    ensures CountActive(es[..k + 1], kind) == CountActive(es[..k], kind) + (if es[k].active && es[k].kind == kind then 1 else 0)
  {
    assert es[..k + 1][..k] == es[..k];
  }

  /** Setting an entry's flag. */
  function SetActive(es: seq<Effect>, id: CystEffectId, on: bool): (r: seq<Effect>)
    requires Shaped(es)
    ensures Shaped(r)
    ensures r[EffectCode(id)].active == on
    ensures forall i :: 0 <= i < |es| && i != EffectCode(id) ==> r[i] == es[i]
  {
    var i := EffectCode(id);
    es[i := es[i].(active := on)]
  }

  /** What a timed event does when it runs out. */
  datatype Callback =
    | RestoreDamage(damage: real, bulletSpeed: real, bulletSize: Vec2, bulletColor: Color)
    | EndTriple
    | EndLots
    | RestoreSlow(accelerationUnit: real, maxVelocity: real)
    | EndFov
    | RestoreNoAttack(attackDelay: real)
    | Deactivate(id: CystEffectId)

  /** The effect icons. */
  datatype IconTexture = IconDamage | IconSlow | IconFov | IconAmmo

  datatype Icon = Icon(texture: IconTexture, position: Vec2, scale: Vec2)

  /** What the effects read and write of the player and the screen. */
  datatype Player = Player(gun: Gun, motion: Motion, health: Health, tripleBullets: bool, lotsOfBullets: bool)

  datatype World = World(
    effects: seq<Effect>, player: Player, limitFov: bool,
    events: seq<TimedEvent<Callback>>, icons: seq<Icon>, dying: seq<Entity>)

  /** `setActiveTimer`: mark the effect active and schedule its deactivation; a negative time keeps the event's default. */
  function SetActiveTimer(w: World, id: CystEffectId, timerMs: real): (r: World)
    requires Shaped(w.effects)
    ensures r.player == w.player && r.limitFov == w.limitFov && r.icons == w.icons && r.dying == w.dying
    ensures Shaped(r.effects) && r.effects[EffectCode(id)].active
    ensures forall i :: 0 <= i < |w.effects| && i != EffectCode(id) ==> r.effects[i] == w.effects[i]
    ensures |r.events| == |w.events| + 1 && r.events[..|w.events|] == w.events
    ensures r.events[|w.events|].callback == Deactivate(id) && r.events[|w.events|].timerMs >= 0.0
    ensures timerMs >= 0.0 ==> r.events[|w.events|].timerMs == timerMs
  {
    var t := if timerMs >= 0.0 then timerMs else DEFAULT_EVENT_TIMER_MS;
    w.(effects := SetActive(w.effects, id, true), events := w.events + [TimedEvent(t, Deactivate(id))])
  }

  /** Where each shown effect's icon goes, left to right. */
  function IconSlot(id: CystEffectId): Option<nat>
  {
    match id
    case Damage => Some(0)
    case Triple => Some(1)
    case Lots => Some(2)
    case Slow => Some(3)
    case NoAttack => Some(4)
    case Fov => Some(5)
    case _ => None
  }

  function IconTextureOf(id: CystEffectId): IconTexture
  {
    match id
    case Slow => IconSlow
    case Fov => IconFov
    case NoAttack => IconAmmo
    case _ => IconDamage
  }

  const ICON_SIZE: real := 23.0
  const ICON_SCALE: real := 3.0
  const ICON_PADDING: real := 4.0
  const EFFECTS_POSITION: Vec2 := Vec2(CONTENT_WIDTH_PX * 0.3, CONTENT_HEIGHT_PX * -0.43)

  /** `displayEffect`: the icon of an effect, shifted right by its slot. */
  function IconOf(id: CystEffectId): Icon
    requires IconSlot(id).Some?
  {
    var slot := IconSlot(id).value as real;
    var offset := slot * ICON_SIZE * ICON_SCALE + ICON_PADDING * slot;
    Icon(IconTextureOf(id), Vec2(EFFECTS_POSITION.x + offset, EFFECTS_POSITION.y), Vec2(ICON_SIZE * ICON_SCALE, ICON_SIZE * ICON_SCALE))
  }

  /** The six shown effects take distinct slots, so their icons sit side by side without overlapping. */
  lemma IconsApart(a: CystEffectId, b: CystEffectId)
    requires IconSlot(a).Some? && IconSlot(b).Some?
    ensures IconSlot(a).value < 6
    ensures a != b <==> IconSlot(a) != IconSlot(b)
    ensures a != b ==> Abs(IconOf(a).position.x - IconOf(b).position.x) >= IconOf(a).scale.x + ICON_PADDING
    ensures IconOf(a).position.y == IconOf(b).position.y
  {
  }

  const DAMAGE_MULTIPLIER: real := 3.0
  const BULLET_SPEED_MULTIPLIER: real := 0.9
  const BULLET_SIZE_MULTIPLIER: real := 1.8
  const DAMAGE_BUFF_PROJECTILE_COLOR: Color := Color(1.0, 0.5, 0.05, 1.0)
  const DAMAGE_EFFECT_TIME: real := 5500.0
  const LOTS_EFFECT_TIME: real := 2000.0
  const SLOW_EFFECT_TIME: real := 4000.0
  const SLOW_ACCELERATION_UNIT: real := 0.3
  const SLOW_MAX_VELOCITY: real := 220.0
  const FOV_EFFECT_TIME: real := 6000.0
  const NO_ATTACK_TIME: real := 3500.0
  const NO_ATTACK_DELAY: real := 99999.0
  /** The heal is taken out of the draw this long when health is full. */
  const FULL_HEALTH_HEAL_LOCK: real := 2000.0

  /** Schedules an effect's undoing and shows its icon. */
  function Scheduled(w: World, id: CystEffectId, timerMs: real, cb: Callback): (r: World)
    requires IconSlot(id).Some?
    ensures r.effects == w.effects && r.player == w.player && r.limitFov == w.limitFov && r.dying == w.dying
    ensures |r.events| == |w.events| + 1 && r.events[..|w.events|] == w.events
    ensures r.events[|w.events|].timerMs == timerMs && r.events[|w.events|].callback == cb
    ensures |r.icons| == |w.icons| + 1 && r.icons[..|w.icons|] == w.icons
    ensures r.icons[|w.icons|].texture == IconTextureOf(id) && r.icons[|w.icons|].position.y == EFFECTS_POSITION.y
  {
    w.(events := w.events + [TimedEvent(timerMs, cb)], icons := w.icons + [IconOf(id)])
  }

  /** `handle_damage_effect`: a stronger, slower, bigger, orange bullet until the callback restores the captured values. */
  function DamageEffect(w: World): World
  {
    var g := w.player.gun;
    var g' := g.(damage := g.damage * DAMAGE_MULTIPLIER, bulletSpeed := g.bulletSpeed * BULLET_SPEED_MULTIPLIER,
                 bulletSize := Scale(g.bulletSize, BULLET_SIZE_MULTIPLIER), bulletColor := DAMAGE_BUFF_PROJECTILE_COLOR);
    Scheduled(w.(player := w.player.(gun := g')), Damage, DAMAGE_EFFECT_TIME,
              RestoreDamage(g.damage, g.bulletSpeed, g.bulletSize, g.bulletColor))
  }

  /** `handle_slow_effect`: a slow player until the callback restores the captured acceleration and top speed. */
  function SlowEffect(w: World): World
  {
    var m := w.player.motion;
    Scheduled(w.(player := w.player.(motion := m.(accelerationUnit := SLOW_ACCELERATION_UNIT, maxVelocity := SLOW_MAX_VELOCITY))),
              Slow, SLOW_EFFECT_TIME, RestoreSlow(m.accelerationUnit, m.maxVelocity))
  }

  /** `handle_no_attack_effect`: an endless attack delay until the callback restores it. */
  function NoAttackEffect(w: World): World
  {
    var g := w.player.gun;
    Scheduled(w.(player := w.player.(gun := g.(attackDelay := NO_ATTACK_DELAY))), NoAttack, NO_ATTACK_TIME,
              RestoreNoAttack(g.attackDelay))
  }

  /** The enemies the screen clear kills: every non-boss enemy within nine tenths of the screen radius of the camera. */
  function ClearedEnemies(lib: Libm, s: Swarm, camera: Vec2, k: nat): (r: seq<Entity>)
    requires k <= |s.order| && forall e :: e in s.order ==> e in s.enemies && e in s.transforms
    ensures forall e :: e in r ==> e in s.order[..k] && Cleared(lib, s, camera, e)
  {
    if k == 0 then []
    else
      var e := s.order[k - 1];
      var before := ClearedEnemies(lib, s, camera, k - 1);
      assert forall x :: x in before ==> x in s.order[..k] by {
        assert s.order[..k] == s.order[..k - 1] + [e];
      }
      if Cleared(lib, s, camera, e) then before + [e] else before
  }

  /** An enemy in reach of the screen clear. */
  predicate Cleared(lib: Libm, s: Swarm, camera: Vec2, e: Entity)
    requires e in s.enemies && e in s.transforms
  {
    var kind := s.enemies[e].kind;
    && kind != Boss && kind != BossArm && kind != FriendBoss && kind != FriendBossClone
    && Length(lib, Sub(s.transforms[e].position, camera)) < ScreenRadius(lib) * 0.9
  }

  /** The enemies and camera the screen clear looks at. */
  datatype Scene = Scene(swarm: Swarm, camera: Vec2)

  predicate SceneReady(sc: Scene)
  {
    forall e :: e in sc.swarm.order ==> e in sc.swarm.enemies && e in sc.swarm.transforms
  }

  /** The handler of each effect, run after its flag is set. */
  function Handle(lib: Libm, w: World, id: CystEffectId, sc: Scene): (r: World)
    requires Shaped(w.effects) && SceneReady(sc)
    ensures Shaped(r.effects)
  {
    match id
    case Damage => DamageEffect(w)
    case Heal => SetActiveTimer(w.(player := w.player.(health := w.player.health.(health := w.player.health.maxHealth))), Heal, -1.0)
    case ClearScreen =>
      SetActiveTimer(w.(dying := w.dying + ClearedEnemies(lib, sc.swarm, sc.camera, |sc.swarm.order|)), ClearScreen, -1.0)
    case Triple => Scheduled(w.(player := w.player.(tripleBullets := true)), Triple, DAMAGE_EFFECT_TIME, EndTriple)
    case Lots => Scheduled(w.(player := w.player.(lotsOfBullets := true)), Lots, LOTS_EFFECT_TIME, EndLots)
    case Slow => SlowEffect(w)
    case Fov => Scheduled(w.(limitFov := true), Fov, FOV_EFFECT_TIME, EndFov)
    case Direction => w.(events := w.events + [TimedEvent(DEFAULT_EVENT_TIMER_MS, Deactivate(Direction))])
    case NoAttack => NoAttackEffect(w)
  }

  /** A callback run by the timed-event step: undo what its effect did and clear the effect's flag. */
  function RunCallback(w: World, cb: Callback): (r: World)
    requires Shaped(w.effects)
    ensures Shaped(r.effects)
  {
    match cb
    case RestoreDamage(d, sp, sz, c) =>
      w.(player := w.player.(gun := w.player.gun.(damage := d, bulletSpeed := sp, bulletSize := sz, bulletColor := c)),
         effects := SetActive(w.effects, Damage, false))
    case EndTriple => w.(player := w.player.(tripleBullets := false), effects := SetActive(w.effects, Triple, false))
    case EndLots => w.(player := w.player.(lotsOfBullets := false), effects := SetActive(w.effects, Lots, false))
    case RestoreSlow(acc, maxV) =>
      w.(player := w.player.(motion := w.player.motion.(accelerationUnit := acc, maxVelocity := maxV)),
         effects := SetActive(w.effects, Slow, false))
    case EndFov => w.(limitFov := false, effects := SetActive(w.effects, Fov, false))
    case RestoreNoAttack(delay) =>
      w.(player := w.player.(gun := w.player.gun.(attackDelay := delay, attackTimer := 0.0)),
         effects := SetActive(w.effects, NoAttack, false))
    case Deactivate(id) => w.(effects := SetActive(w.effects, id, false))
  }

  /** The last event scheduled. */
  function LastEvent(w: World): TimedEvent<Callback>
    requires w.events != []
  {
    w.events[|w.events| - 1]
  }

  /**
   * The damage buff undoes itself: running the callback it schedules
   * right after it gives back the gun it found, with the flag cleared.
   */
  lemma DamageRoundTrip(w: World)
    requires Shaped(w.effects)
    ensures var w' := DamageEffect(w);
      && LastEvent(w').timerMs == DAMAGE_EFFECT_TIME
      && RunCallback(w', LastEvent(w').callback).player == w.player
      && RunCallback(w', LastEvent(w').callback).effects == SetActive(w.effects, Damage, false)
  {
  }

  /** The slow debuff undoes itself the same way. */
  lemma SlowRoundTrip(w: World)
    requires Shaped(w.effects)
    ensures var w' := SlowEffect(w);
      && LastEvent(w').timerMs == SLOW_EFFECT_TIME
      && RunCallback(w', LastEvent(w').callback).player == w.player
      && RunCallback(w', LastEvent(w').callback).effects == SetActive(w.effects, Slow, false)
  {
  }

  /** The no-attack debuff restores the delay and leaves the gun ready to fire. */
  lemma NoAttackRestores(w: World)
    requires Shaped(w.effects)
    ensures var w' := NoAttackEffect(w);
      && LastEvent(w').timerMs == NO_ATTACK_TIME
      && RunCallback(w', LastEvent(w').callback).player == w.player.(gun := w.player.gun.(attackTimer := 0.0))
  {
  }

  /** The draws of one application: the polarity draw, and the indices the weighted distribution yields in turn. */
  datatype Draws = Draws(polarity: real, picks: seq<nat>)

  /** How an application ended. */
  datatype Outcome = Applied(id: CystEffectId) | NoneAvailable | DrawsExhausted

  datatype Application = Application(world: World, outcome: Outcome)

  /** The polarity a draw picks. */
  function Polarity(d: Draws): EffectType
  {
    if d.polarity <= POS_PROB then Positive else Negative
  }

  /** The code a pick stands for: the index itself for a positive effect, offset past the positives for a negative one. */
  function PickCode(kind: EffectType, pick: nat): nat
  {
    if kind == Positive then pick else pick + CYST_NEG_START
  }

  /** Every pick is an index of its polarity's weights. */
  predicate PicksInRange(d: Draws)
  {
    forall k :: 0 <= k < |d.picks| ==> d.picks[k] < (if Polarity(d) == Positive then POS_WEIGHT_COUNT else NEG_WEIGHT_COUNT)
  }

  /** The selection loop: the first pick, from `k` on, whose effect is inactive. */
  function SelectFrom(es: seq<Effect>, d: Draws, k: nat): (r: Option<nat>)
    requires Shaped(es) && PicksInRange(d) && k <= |d.picks|
    ensures r.Some? ==> r.value < |es| && !es[r.value].active && es[r.value].kind == Polarity(d)
    ensures r.Some? ==> exists j :: k <= j < |d.picks| && PickCode(Polarity(d), d.picks[j]) == r.value
    ensures r.None? <==> forall j :: k <= j < |d.picks| ==> es[PickCode(Polarity(d), d.picks[j])].active
    decreases |d.picks| - k
  {
    if k == |d.picks| then None
    else
      var code := PickCode(Polarity(d), d.picks[k]);
      if !es[code].active then Some(code) else SelectFrom(es, d, k + 1)
  }

  /** The heal is locked out while health is full. */
  function HealLock(w: World): (r: World)
    requires Shaped(w.effects)
  {
    var heal := w.effects[EffectCode(Heal)];
    if !heal.active && w.player.health.health >= w.player.health.maxHealth
    then SetActiveTimer(w, Heal, FULL_HEALTH_HEAL_LOCK)
    else w
  }

  /**
   * `apply_random_effect`. For a positive draw the heal is first locked
   * out if health is full; then, if every effect of the drawn polarity is
   * active, nothing happens; otherwise the first inactive pick is
   * activated and handled.
   */
  function ApplyRandomEffect(lib: Libm, w: World, d: Draws, sc: Scene): (r: Application)
    requires Shaped(w.effects) && PicksInRange(d) && SceneReady(sc)
    ensures !r.outcome.Applied? ==> r.world == (if Polarity(d) == Positive then HealLock(w) else w)
    ensures Polarity(d) == Negative ==> r.world.limitFov == w.limitFov || r.outcome == Applied(Fov)
  {
    var kind := Polarity(d);
    var w0 := if kind == Positive then HealLock(w) else w;
    var limit := if kind == Positive then CYST_NEG_START else CYST_EFFECT_COUNT - CYST_NEG_START;
    if CountActive(w0.effects, kind) >= limit then Application(w0, NoneAvailable)
    else match SelectFrom(w0.effects, d, 0)
      case None => Application(w0, DrawsExhausted)
      case Some(code) =>
        var id := EffectOfCode(code).value;
        Application(Handle(lib, w0.(effects := SetActive(w0.effects, id, true)), id, sc), Applied(id))
  }

  /**
   * An applied effect has the drawn polarity, was inactive (after the
   * heal lock-out) and is active afterwards; when none is available every
   * effect of that polarity was already active. The table keeps its
   * shape either way.
   */
  lemma ApplyChoosesInactive(lib: Libm, w: World, d: Draws, sc: Scene)
    requires Shaped(w.effects) && PicksInRange(d) && SceneReady(sc)
    ensures var r := ApplyRandomEffect(lib, w, d, sc);
      var before := if Polarity(d) == Positive then HealLock(w).effects else w.effects;
      && Shaped(r.world.effects)
      && (r.outcome.Applied? ==>
            && IsPositive(r.outcome.id) == (Polarity(d) == Positive)
            && !before[EffectCode(r.outcome.id)].active
            && r.world.effects[EffectCode(r.outcome.id)].active)
      && (r.outcome.NoneAvailable? ==>
            forall i :: 0 <= i < |before| && before[i].kind == Polarity(d) ==> before[i].active)
      && (!r.outcome.NoneAvailable? ==>
            exists i :: 0 <= i < |before| && before[i].kind == Polarity(d) && !before[i].active)
  {
    var r := ApplyRandomEffect(lib, w, d, sc);
    var kind := Polarity(d);
    var w0 := if kind == Positive then HealLock(w) else w;
    ShapedCounts(w0.effects);
    CountsSplit(w0.effects);
    if r.outcome.NoneAvailable? {
      AllActive(w0.effects, kind);
    } else {
      InactiveExists(w0.effects, kind);
    }
    if r.outcome.Applied? {
      var code :| code == SelectFrom(w0.effects, d, 0).value;
      var id := EffectOfCode(code).value;
      assert EffectCode(id) == code;
      var w1 := w0.(effects := SetActive(w0.effects, id, true));
      HandleKeepsFlag(lib, w1, id, sc);
    }
  }

  /** A polarity whose count of active entries reaches its size is all active. */
  lemma AllActive(es: seq<Effect>, kind: EffectType)
    requires CountActive(es, kind) >= CountKind(es, kind)
    ensures forall i :: 0 <= i < |es| && es[i].kind == kind ==> es[i].active
  {
    CountsSplit(es);
    if exists i :: 0 <= i < |es| && es[i].kind == kind && !es[i].active {
      var i :| 0 <= i < |es| && es[i].kind == kind && !es[i].active;
      InactiveBelow(es, kind, i);
    }
  }

  /** An inactive entry of a polarity keeps its count of active entries below its size. */
  lemma {:induction false} InactiveBelow(es: seq<Effect>, kind: EffectType, i: nat)
    requires i < |es| && es[i].kind == kind && !es[i].active
    ensures CountActive(es, kind) < CountKind(es, kind)
  {
    var front := es[..|es| - 1];
    CountsSplit(front);
    if i < |es| - 1 {
      assert front[i] == es[i];
      InactiveBelow(front, kind, i);
    }
  }

  /** Handling an effect never clears the flag it was chosen by. */
  lemma HandleKeepsFlag(lib: Libm, w: World, id: CystEffectId, sc: Scene)
    requires Shaped(w.effects) && SceneReady(sc) && w.effects[EffectCode(id)].active
    ensures Handle(lib, w, id, sc).effects[EffectCode(id)].active
  {
  }

  /** With health full and the heal inactive, the heal is never the effect applied. */
  lemma FullHealthSkipsHeal(lib: Libm, w: World, d: Draws, sc: Scene)
    requires Shaped(w.effects) && PicksInRange(d) && SceneReady(sc)
    requires !w.effects[EffectCode(Heal)].active && w.player.health.health >= w.player.health.maxHealth
    ensures ApplyRandomEffect(lib, w, d, sc).outcome != Applied(Heal)
  {
    ApplyChoosesInactive(lib, w, d, sc);
    if Polarity(d) == Positive {
      assert HealLock(w).effects[EffectCode(Heal)].active;
    }
  }
}
