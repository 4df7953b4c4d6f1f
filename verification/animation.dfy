/**
 * Sprite-sheet animation: the per-step frame selection of every
 * Animation component, and the switch of an entity to another sprite
 * sheet.
 *
 * The animation kinds are identified in the game by their frame counts,
 * and the tables from kind to sprite sheet are keyed by that count. Two
 * kinds share the count 4, so the tables as written send the cyst's
 * shine to the green enemy's sheet; `SwitchAnimationAsWritten` keeps that
 * behaviour and `SwitchAnimation` is the intended one.
 */
module Animations {
  import opened Components
  import opened Wrappers

  /** C++ float-to-int conversion: truncation toward zero. */
  function Trunc(x: real): (r: int)
    ensures 0.0 <= x ==> 0 <= r && r as real <= x < r as real + 1.0
    ensures x < 0.0 ==> r <= 0 && x <= r as real < x + 1.0
  {
    if 0.0 <= x then x.Floor else -((-x).Floor)
  }

  /** C++ integer remainder: the sign follows the dividend. */
  function CRem(a: int, b: int): (r: int)
    requires b != 0
    ensures 0 <= a && 0 < b ==> r == a % b
    ensures 0 <= a ==> 0 <= r && (b > 0 ==> r < b) && (b < 0 ==> r < -b)
    ensures a < 0 ==> r <= 0 && (b > 0 ==> -b < r) && (b < 0 ==> b < r)
  {
    var m := if b > 0 then b else -b;
    if 0 <= a then a % m else -((-a) % m)
  }

  /** The timer after adding the step, read in whole update periods. */
  function Periods(a: Animation, elapsedMs: real): int
    requires a.updatePeriodMs != 0
  {
    Trunc((a.timerMs + elapsedMs) / a.updatePeriodMs as real)
  }

  /** A looping animation that has shown all its frames: it rests on frame 0 until the loop interval is up. */
  predicate Resting(a: Animation, elapsedMs: real)
    requires a.updatePeriodMs != 0
  {
    a.loopInterval > 0.0 && Periods(a, elapsedMs) >= a.totalFrame
  }

  /** What the step needs of a running animation: a period to divide by, and a frame count to take the remainder by when not resting. */
  predicate Steppable(a: Animation, elapsedMs: real)
  {
    a.paused || (a.updatePeriodMs != 0 && (a.totalFrame != 0 || Resting(a, elapsedMs)))
  }

  /**
   * One step of one animation. A paused animation is rewound to frame 0;
   * a running one advances its timer, then either rests on frame 0 (and
   * rewinds the timer once the loop interval is reached) or shows the
   * frame the timer has reached, cyclically.
   */
  function Step(a: Animation, elapsedMs: real): (r: Animation)
    requires Steppable(a, elapsedMs)
    ensures r == a.(timerMs := r.timerMs, currFrame := r.currFrame)
    ensures a.paused ==> r.currFrame == 0 && r.timerMs == 0.0
    ensures !a.paused && 0.0 <= a.timerMs && 0.0 <= elapsedMs ==> 0.0 <= r.timerMs <= a.timerMs + elapsedMs
  {
    if a.paused then a.(timerMs := 0.0, currFrame := 0)
    else
      var t := a.timerMs + elapsedMs;
      if Resting(a, elapsedMs) then a.(timerMs := if t >= a.loopInterval then 0.0 else t, currFrame := 0)
      else a.(timerMs := t, currFrame := CRem(Periods(a, elapsedMs), a.totalFrame))
  }

  /** An animation in a sensible state: frames and period positive, timer not negative, the frame one of the sheet's. */
  predicate WellFormed(a: Animation)
  {
    a.totalFrame > 0 && a.updatePeriodMs > 0 && 0.0 <= a.timerMs && 0 <= a.currFrame < a.totalFrame
  }

  /**
   * A step keeps an animation well formed and touches only its timer and
   * frame; a paused animation ends on frame 0 with its timer at 0.
   */
  lemma StepKeepsWellFormed(a: Animation, elapsedMs: real)
    requires WellFormed(a) && 0.0 <= elapsedMs
    ensures Steppable(a, elapsedMs)
    ensures var r := Step(a, elapsedMs);
      && WellFormed(r)
      && r == a.(timerMs := r.timerMs, currFrame := r.currFrame)
      && (a.paused ==> r.timerMs == 0.0 && r.currFrame == 0)
  {
    var r := Step(a, elapsedMs);
    if !a.paused {
      var t := a.timerMs + elapsedMs;
      DivNonNeg(t, a.updatePeriodMs as real);
    }
  }

  lemma DivNonNeg(t: real, p: real)
    requires 0.0 <= t && 0.0 < p
    ensures 0.0 <= t / p
  {
  }

  /**
   * Without resting, the frame is the number of whole periods the timer
   * has run, modulo the frame count: the floor-and-Euclidean reading
   * agrees with the C++ truncations for a running timer.
   */
  lemma FrameIsPeriodsModFrames(a: Animation, elapsedMs: real)
    requires !a.paused && a.updatePeriodMs > 0 && a.totalFrame > 0 && 0.0 <= a.timerMs + elapsedMs
    requires !Resting(a, elapsedMs)
    ensures Step(a, elapsedMs).currFrame == ((a.timerMs + elapsedMs) / a.updatePeriodMs as real).Floor % a.totalFrame
    ensures Step(a, elapsedMs).timerMs == a.timerMs + elapsedMs
  {
    DivNonNeg(a.timerMs + elapsedMs, a.updatePeriodMs as real);
  }

  /**
   * A resting animation shows frame 0, and its timer afterwards is below
   * the loop interval: it is rewound exactly when it reaches it.
   */
  lemma RestingHoldsFirstFrame(a: Animation, elapsedMs: real)
    requires !a.paused && a.updatePeriodMs != 0 && Resting(a, elapsedMs)
    ensures var r := Step(a, elapsedMs);
      && r.currFrame == 0
      && r.timerMs < a.loopInterval
      && (a.timerMs + elapsedMs >= a.loopInterval ==> r.timerMs == 0.0)
      && (a.timerMs + elapsedMs < a.loopInterval ==> r.timerMs == a.timerMs + elapsedMs)
  {
  }

  /** Floor commutes with adding a whole number. */
  lemma FloorShift(x: real, n: int)
    ensures (x + n as real).Floor == x.Floor + n
  {
  }

  /**
   * Without a loop interval the animation is periodic: running a whole
   * cycle longer (frame count times period) shows the same frame.
   */
  lemma FramesRepeat(a: Animation, elapsedMs: real)
    requires !a.paused && a.loopInterval <= 0.0 && a.updatePeriodMs > 0 && a.totalFrame > 0
    requires 0.0 <= a.timerMs + elapsedMs
    ensures Step(a, elapsedMs + Cycle(a)).currFrame == Step(a, elapsedMs).currFrame
  {
    var n := a.totalFrame;
    var cycle := Cycle(a);
    PeriodsShift(a, elapsedMs);
    FrameOfPeriods(a, elapsedMs);
    FrameOfPeriods(a, elapsedMs + cycle);
    ModShift(Periods(a, elapsedMs), n);
  }

  /** A running, non-resting animation with a non-negative timer shows its periods count modulo the frame count. */
  lemma FrameOfPeriods(a: Animation, elapsedMs: real)
    requires !a.paused && a.loopInterval <= 0.0 && a.updatePeriodMs > 0 && a.totalFrame > 0
    requires 0.0 <= a.timerMs + elapsedMs
    ensures 0 <= Periods(a, elapsedMs)
    ensures Step(a, elapsedMs).currFrame == Periods(a, elapsedMs) % a.totalFrame
  {
    DivNonNeg(a.timerMs + elapsedMs, a.updatePeriodMs as real);
  }

  /** The time a whole cycle of frames takes. */
  function Cycle(a: Animation): real
  {
    a.totalFrame as real * a.updatePeriodMs as real
  }

  /** A whole cycle more on the timer is exactly frame-count more periods. */
  lemma PeriodsShift(a: Animation, elapsedMs: real)
    requires a.updatePeriodMs > 0 && a.totalFrame > 0 && 0.0 <= a.timerMs + elapsedMs
    ensures 0.0 <= a.timerMs + (elapsedMs + Cycle(a))
    ensures Periods(a, elapsedMs + Cycle(a)) == Periods(a, elapsedMs) + a.totalFrame
  {
    var p := a.updatePeriodMs as real;
    var e2 := elapsedMs + Cycle(a);
    Dividends(a.timerMs, elapsedMs, Cycle(a), p, a.totalFrame);
    TruncShift((a.timerMs + elapsedMs) / p, (a.timerMs + e2) / p, a.totalFrame);
  }

  /** The two dividends of a step and of the step a cycle longer, over the period. */
  lemma Dividends(timer: real, elapsed: real, cycle: real, p: real, n: int)
    requires 0.0 <= timer + elapsed && 0.0 < p && 0 <= n && cycle == n as real * p
    ensures 0.0 <= timer + (elapsed + cycle)
    ensures 0.0 <= (timer + elapsed) / p
    ensures (timer + (elapsed + cycle)) / p == (timer + elapsed) / p + n as real
  {
    assert 0.0 <= cycle by { DivNonNeg(cycle, p); assert cycle / p == n as real; }
    DivShift(timer + elapsed, p, n);
    DivNonNeg(timer + elapsed, p);
    assert timer + (elapsed + cycle) == (timer + elapsed) + n as real * p;
  }

  /** Truncation of a non-negative number moves by `n` when the number does. */
  lemma TruncShift(q: real, later: real, n: int)
    requires 0.0 <= q && 0 <= n && later == q + n as real
    ensures Trunc(later) == Trunc(q) + n
  {
    FloorShift(q, n);
  }

  lemma DivShift(t: real, p: real, n: int)
    requires 0.0 < p
    ensures (t + n as real * p) / p == t / p + n as real
  {
    assert (t / p + n as real) * p == t + n as real * p;
  }

  /** Adding the modulus does not change the Euclidean remainder. */
  lemma ModShift(q: int, n: int)
    requires n > 0
    ensures (q + n) % n == q % n
  {
    ModUnique(q + n, n, q / n + 1, q % n);
  }

  /** The Euclidean remainder is the only one in range. */
  lemma ModUnique(x: int, n: int, k: int, r: int)
    requires n > 0 && x == k * n + r && 0 <= r < n
    ensures x % n == r
  {
    var d := k - x / n;
    assert d * n == x % n - r;
  }

  /** `animationSys_step`: every animation component steps, in container order. */
  method StepAll(anims: seq<Animation>, elapsedMs: real) returns (r: seq<Animation>)
    requires forall i :: 0 <= i < |anims| ==> Steppable(anims[i], elapsedMs)
    ensures |r| == |anims|
    ensures forall i :: 0 <= i < |anims| ==> r[i] == Step(anims[i], elapsedMs)
    ensures 0.0 <= elapsedMs && (forall i :: 0 <= i < |anims| ==> WellFormed(anims[i])) ==>
      forall i :: 0 <= i < |r| ==> WellFormed(r[i])
  {
    r := [];
    for i := 0 to |anims|
      invariant |r| == i
      invariant forall k :: 0 <= k < i ==> r[k] == Step(anims[k], elapsedMs)
    {
      r := r + [Step(anims[i], elapsedMs)];
    }
    if 0.0 <= elapsedMs && (forall i :: 0 <= i < |anims| ==> WellFormed(anims[i])) {
      forall i | 0 <= i < |r| ensures WellFormed(r[i]) {
        StepKeepsWellFormed(anims[i], elapsedMs);
      }
    }
  }

  /** The animation kinds; the game names each by its frame count. */
  datatype AnimationKind =
    | ImmunityMoving | ImmunityDying | GreenEnemyDying | GreenEnemyMoving | ImmunityBlinking | CystShine | Dashing

  /** The frame count of each kind's sprite sheet. */
  function Frames(k: AnimationKind): (r: int)
    ensures r > 0
  {
    match k
    case ImmunityMoving => 10
    case ImmunityDying => 5
    case GreenEnemyDying => 7
    case GreenEnemyMoving => 4
    case ImmunityBlinking => 2
    case CystShine => 4
    case Dashing => 8
  }

  /** The sprite sheets; each has a geometry buffer and a texture of the same name. */
  datatype SpriteSheet =
    | SheetImmunityMoving | SheetImmunityDying | SheetGreenEnemyDying | SheetGreenEnemyMoving
    | SheetImmunityBlinking | SheetCystShine | SheetDashing

  datatype GeometryId = SheetGeometry(sheet: SpriteSheet) | OtherGeometry(id: nat) | EmptyGeometry
  datatype TextureId = SheetTexture(sheet: SpriteSheet) | OtherTexture(id: nat) | EmptyTexture

  /** The part of a render request the switch touches. */
  datatype RenderRequest = RenderRequest(geometry: GeometryId, texture: TextureId)

  /** The sheet that belongs to each kind. */
  function SheetOf(k: AnimationKind): SpriteSheet
  {
    match k
    case ImmunityMoving => SheetImmunityMoving
    case ImmunityDying => SheetImmunityDying
    case GreenEnemyDying => SheetGreenEnemyDying
    case GreenEnemyMoving => SheetGreenEnemyMoving
    case ImmunityBlinking => SheetImmunityBlinking
    case CystShine => SheetCystShine
    case Dashing => SheetDashing
  }

  /** Each kind has a sheet of its own. */
  lemma SheetsDistinct(k1: AnimationKind, k2: AnimationKind)
    ensures SheetOf(k1) == SheetOf(k2) <==> k1 == k2
  {
  }

  /** The geometry and texture tables as they are listed, kind by kind. */
  const SHEET_TABLE: seq<(AnimationKind, SpriteSheet)> := [
    (ImmunityDying, SheetImmunityDying),
    (ImmunityMoving, SheetImmunityMoving),
    (ImmunityBlinking, SheetImmunityBlinking),
    (GreenEnemyDying, SheetGreenEnemyDying),
    (GreenEnemyMoving, SheetGreenEnemyMoving),
    (CystShine, SheetCystShine),
    (Dashing, SheetDashing)
  ]

  /**
   * The lookup of a hash map built from the list from position `i` on
   * and keyed by frame count: as with the initializer-list constructor of
   * `std::unordered_map`, the first entry with a key is the one kept.
   */
  function FirstWithCount(entries: seq<(AnimationKind, SpriteSheet)>, count: int, i: nat): (r: Option<SpriteSheet>)
    requires i <= |entries|
    ensures r.None? <==> forall j :: i <= j < |entries| ==> Frames(entries[j].0) != count
    ensures r.Some? ==> exists j :: (i <= j < |entries| && entries[j].1 == r.value
      && Frames(entries[j].0) == count && forall l :: i <= l < j ==> Frames(entries[l].0) != count)
    decreases |entries| - i
  {
    if i == |entries| then None
    else if Frames(entries[i].0) == count then Some(entries[i].1)
    else FirstWithCount(entries, count, i + 1)
  }

  /** The sheet the tables as written give each kind: the first listed kind with the same frame count wins. */
  lemma TableAsWritten(k: AnimationKind)
    ensures FirstWithCount(SHEET_TABLE, Frames(k), 0) == Some(if k == CystShine then SheetGreenEnemyMoving else SheetOf(k))
  {
    var t := SHEET_TABLE;
    assert FirstWithCount(t, Frames(k), 6) == if k == Dashing then Some(SheetDashing) else None;
    assert FirstWithCount(t, Frames(k), 5) == if Frames(k) == 4 then Some(SheetCystShine) else FirstWithCount(t, Frames(k), 6);
    assert FirstWithCount(t, Frames(k), 4) == if Frames(k) == 4 then Some(SheetGreenEnemyMoving) else FirstWithCount(t, Frames(k), 5);
    assert FirstWithCount(t, Frames(k), 3) == if k == GreenEnemyDying then Some(SheetGreenEnemyDying) else FirstWithCount(t, Frames(k), 4);
    assert FirstWithCount(t, Frames(k), 2) == if k == ImmunityBlinking then Some(SheetImmunityBlinking) else FirstWithCount(t, Frames(k), 3);
    assert FirstWithCount(t, Frames(k), 1) == if k == ImmunityMoving then Some(SheetImmunityMoving) else FirstWithCount(t, Frames(k), 2);
  }

  /** The sheet the tables as written give a kind; every kind's count is listed, so the lookup never fails. */
  function SheetAsWritten(k: AnimationKind): SpriteSheet
  {
    TableAsWritten(k);
    FirstWithCount(SHEET_TABLE, Frames(k), 0).value
  }

  /**
   * `animationSys_switchAnimation` with the given sheet lookup: when
   * neither the geometry nor the texture is empty, the render request
   * shows the sheet and the animation restarts unpaused from frame 0 with
   * the kind's frame count and the given period.
   */
  function Switch(rr: RenderRequest, a: Animation, k: AnimationKind, periodMs: int, sheet: SpriteSheet): (r: (RenderRequest, Animation))
    ensures r.0 == RenderRequest(SheetGeometry(sheet), SheetTexture(sheet))
    ensures r.1 == a.(updatePeriodMs := periodMs, totalFrame := Frames(k), currFrame := 0, paused := false, timerMs := 0.0)
  {
    var gid := SheetGeometry(sheet);
    var tid := SheetTexture(sheet);
    if tid != EmptyTexture && gid != EmptyGeometry then
      (RenderRequest(gid, tid),
       a.(updatePeriodMs := periodMs, totalFrame := Frames(k), currFrame := 0, paused := false, timerMs := 0.0))
    else (rr, a)
  }

  /** The switch as written: the sheet is looked up by frame count. */
  function SwitchAnimationAsWritten(rr: RenderRequest, a: Animation, k: AnimationKind, periodMs: int): (r: (RenderRequest, Animation))
    ensures r.1 == SwitchAnimation(rr, a, k, periodMs).1
    ensures exists k2 :: r.0 == RenderRequest(SheetGeometry(SheetOf(k2)), SheetTexture(SheetOf(k2))) && Frames(k2) == Frames(k)
  {
    var k2 := if k == CystShine then GreenEnemyMoving else k;
    assert SheetAsWritten(k) == SheetOf(k2) by {
      TableAsWritten(k);
    }
    Switch(rr, a, k, periodMs, SheetAsWritten(k))
  }

  /** The switch as intended: the sheet is looked up by kind. */
  function SwitchAnimation(rr: RenderRequest, a: Animation, k: AnimationKind, periodMs: int): (r: (RenderRequest, Animation))
    ensures r.0 == RenderRequest(SheetGeometry(SheetOf(k)), SheetTexture(SheetOf(k)))
    ensures r.1.totalFrame == Frames(k) && r.1.currFrame == 0 && r.1.timerMs == 0.0 && !r.1.paused
    ensures r.1.updatePeriodMs == periodMs && r.1.loopInterval == a.loopInterval
    ensures 0 < periodMs ==> WellFormed(r.1)
  {
    Switch(rr, a, k, periodMs, SheetOf(k))
  }

  /** Switching to two kinds shows the same sheet exactly when the kinds are the same. */
  lemma SwitchShowsOwnSheet(rr: RenderRequest, a: Animation, k1: AnimationKind, k2: AnimationKind, periodMs: int)
    ensures SwitchAnimation(rr, a, k1, periodMs).0 == SwitchAnimation(rr, a, k2, periodMs).0 <==> k1 == k2
  {
    SheetsDistinct(k1, k2);
  }

  /** The tables as written agree with the intended lookup on every kind but the cyst's shine. */
  lemma AsWrittenAgreesElsewhere(rr: RenderRequest, a: Animation, k: AnimationKind, periodMs: int)
    ensures k != CystShine <==> SwitchAnimationAsWritten(rr, a, k, periodMs) == SwitchAnimation(rr, a, k, periodMs)
  {
    TableAsWritten(k);
  }

  /** Switching a cyst to its shine as written shows the green enemy's sheet with the cyst's frame count. */
  lemma CystShineShowsGreenEnemy(rr: RenderRequest, a: Animation, periodMs: int)
    ensures SwitchAnimationAsWritten(rr, a, CystShine, periodMs).0
      == RenderRequest(SheetGeometry(SheetGreenEnemyMoving), SheetTexture(SheetGreenEnemyMoving))
    ensures SwitchAnimation(rr, a, CystShine, periodMs).0.geometry != SwitchAnimationAsWritten(rr, a, CystShine, periodMs).0.geometry
  {
    TableAsWritten(CystShine);
  }
}
