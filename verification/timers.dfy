/**
 * The countdown timers the world steps every frame: the player's gun and
 * sword cooldowns, the dash timers, and the timed events whose callbacks
 * fire when they run out. Callbacks are data here; what they do is up to
 * the caller.
 */
module Timers {
  import opened Vectors
  import opened Components
  import opened Registry
  import opened Wrappers

  /** `max(t - dt, 0)`: count down by `dt`, stopping at zero. */
  function Countdown(t: real, dt: real): (r: real)
    ensures r >= 0.0
    ensures r == 0.0 <==> t <= dt
    ensures 0.0 <= dt ==> r <= Max(t, 0.0)
  {
    Max(t - dt, 0.0)
  }

  /** Counting down by `a` and then by `b` is counting down by `a + b`. */
  lemma CountdownAdds(t: real, a: real, b: real)
    requires 0.0 <= a && 0.0 <= b
    ensures Countdown(Countdown(t, a), b) == Countdown(t, a + b)
  {
  }

  /** The sword swinging from the player: its attachment and its motion. */
  datatype Sword = Sword(attachment: Attachment, motion: Motion)

  /** What `step_attack` reads and writes: the player's gun, melee weapon and sword. */
  datatype Kit = Kit(gun: Option<Gun>, melee: Option<Melee>, sword: Option<Sword>)

  /** The sword animation runs out during this step. */
  predicate SwingEnds(k: Kit, elapsedMs: real)
  {
    && k.melee.Some?
    && k.melee.value.attackTimer > 0.0
    && k.melee.value.animationTimer > 0.0
    && Countdown(k.melee.value.animationTimer, elapsedMs) <= 0.0
  }

  /**
   * `step_attack`. The gun cooldown counts down. The sword's attack timer
   * counts down only while positive, and its animation timer only while
   * both are positive; when the animation runs out the sword stops
   * spinning and returns to its resting angle.
   */
  function StepAttack(k: Kit, elapsedMs: real): (r: Kit)
    requires SwingEnds(k, elapsedMs) ==> k.sword.Some?
    ensures r.gun.Some? <==> k.gun.Some?
    ensures k.gun.Some? ==> r.gun.value == k.gun.value.(attackTimer := Countdown(k.gun.value.attackTimer, elapsedMs))
    ensures r.melee.Some? <==> k.melee.Some?
    ensures k.melee.Some? ==>
      var m, m' := k.melee.value, r.melee.value;
      && m' == m.(attackTimer := m'.attackTimer, animationTimer := m'.animationTimer)
      && (m.attackTimer > 0.0 ==> m'.attackTimer == Countdown(m.attackTimer, elapsedMs))
      && (m.attackTimer <= 0.0 ==> m'.attackTimer == m.attackTimer)
      && (m.attackTimer > 0.0 && m.animationTimer > 0.0 ==> m'.animationTimer == Countdown(m.animationTimer, elapsedMs))
      && (m.attackTimer <= 0.0 || m.animationTimer <= 0.0 ==> m'.animationTimer == m.animationTimer)
    ensures SwingEnds(k, elapsedMs) ==> r.sword.Some?
    ensures SwingEnds(k, elapsedMs) ==>
      && r.sword.value.motion == k.sword.value.motion.(angularVelocity := 0.0)
      && r.sword.value.attachment == k.sword.value.attachment.(movedAngle := k.sword.value.attachment.angleOffset)
    ensures !SwingEnds(k, elapsedMs) ==> r.sword == k.sword
  {
    var gun := if k.gun.Some? then Some(k.gun.value.(attackTimer := Countdown(k.gun.value.attackTimer, elapsedMs))) else None;
    if k.melee.None? || k.melee.value.attackTimer <= 0.0 then
      k.(gun := gun)
    else
      var m := k.melee.value;
      var attack := Countdown(m.attackTimer, elapsedMs);
      if m.animationTimer <= 0.0 then
        Kit(gun, Some(m.(attackTimer := attack)), k.sword)
      else
        var anim := Countdown(m.animationTimer, elapsedMs);
        var sword :=
          if anim <= 0.0 then
            var s := k.sword.value;
            Some(Sword(s.attachment.(movedAngle := s.attachment.angleOffset), s.motion.(angularVelocity := 0.0)))
          else k.sword;
        Kit(gun, Some(m.(attackTimer := attack, animationTimer := anim)), sword)
  }

  /** All of the kit's timers are at zero or above. */
  predicate TimersSettled(k: Kit)
  {
    && (k.gun.Some? ==> k.gun.value.attackTimer >= 0.0)
    && (k.melee.Some? ==> k.melee.value.attackTimer >= 0.0 && k.melee.value.animationTimer >= 0.0)
  }

  /**
   * Stepping the weapons forward in time keeps every timer at zero or
   * above and never raises one.
   */
  lemma StepAttackSettles(k: Kit, elapsedMs: real)
    requires SwingEnds(k, elapsedMs) ==> k.sword.Some?
    requires TimersSettled(k) && 0.0 <= elapsedMs
    ensures var r := StepAttack(k, elapsedMs);
      && TimersSettled(r)
      && (k.gun.Some? ==> r.gun.value.attackTimer <= k.gun.value.attackTimer)
      && (k.melee.Some? ==>
            r.melee.value.attackTimer <= k.melee.value.attackTimer
            && r.melee.value.animationTimer <= k.melee.value.animationTimer)
  {
  }

  /**
   * The outcome of `step_dash`: the dash after its timers count down, and
   * whether the dash trail is drawn (its colour is the trail colour rather
   * than fully transparent).
   */
  datatype DashStep = DashStep(dash: Dash, trailShown: bool)

  /** `step_dash` for a player with a dash component. */
  function StepDash(d: Dash, elapsedMs: real): (r: DashStep)
    ensures r.dash == d.(activeTimerMs := Countdown(d.activeTimerMs, elapsedMs),
                         delayTimerMs := Countdown(d.delayTimerMs, elapsedMs))
    ensures r.trailShown <==> IsDashing(r.dash)
  {
    var d' := d.(activeTimerMs := Countdown(d.activeTimerMs, elapsedMs),
                 delayTimerMs := Countdown(d.delayTimerMs, elapsedMs));
    DashStep(d', !(d'.activeTimerMs <= 0.0))
  }

  /**
   * Two dash steps are one step of the combined time, so a dash lasts its
   * active time however the frames fall, and the trail disappears exactly
   * when the active time has elapsed.
   */
  lemma StepDashAdds(d: Dash, a: real, b: real)
    requires 0.0 <= a && 0.0 <= b
    ensures StepDash(StepDash(d, a).dash, b) == StepDash(d, a + b)
    ensures StepDash(d, a).trailShown <==> a < d.activeTimerMs
  {
    CountdownAdds(d.activeTimerMs, a, b);
    CountdownAdds(d.delayTimerMs, a, b);
  }

  /** A timed event stored under its entity. */
  datatype Timed<C> = Timed(entity: Entity, event: TimedEvent<C>)

  function Entities<C>(evs: seq<Timed<C>>): (es: seq<Entity>)
    ensures |es| == |evs|
    ensures forall i :: 0 <= i < |evs| ==> es[i] == evs[i].entity
  {
    if evs == [] then [] else Entities(evs[..|evs| - 1]) + [evs[|evs| - 1].entity]
  }

  /** The event runs out during a step of `dt`. */
  predicate Expires<C>(ev: Timed<C>, dt: real) { ev.event.timerMs - dt <= 0.0 }

  /** The callbacks of the events that run out, in container order. */
  function Fired<C>(evs: seq<Timed<C>>, dt: real): (cs: seq<C>)
    ensures |cs| <= |evs|
  {
    if evs == [] then []
    else
      var last := evs[|evs| - 1];
      Fired(evs[..|evs| - 1], dt) + (if Expires(last, dt) then [last.event.callback] else [])
  }

  /** The entities of the events that run out, in container order. */
  function Due<C>(evs: seq<Timed<C>>, dt: real): (es: seq<Entity>)
    ensures forall e :: e in es <==> exists i :: 0 <= i < |evs| && evs[i].entity == e && Expires(evs[i], dt)
  {
    if evs == [] then []
    else
      var last := evs[|evs| - 1];
      var es := Due(evs[..|evs| - 1], dt) + (if Expires(last, dt) then [last.entity] else []);
      assert forall i :: 0 <= i < |evs| - 1 ==> evs[..|evs| - 1][i] == evs[i];
      es
  }

  /** The events that keep running, their timers lowered by `dt`. */
  function Survivors<C>(evs: seq<Timed<C>>, dt: real): (rs: seq<Timed<C>>)
    ensures forall i :: 0 <= i < |rs| ==> rs[i].event.timerMs > 0.0
  {
    if evs == [] then []
    else
      var last := evs[|evs| - 1];
      Survivors(evs[..|evs| - 1], dt)
        + (if Expires(last, dt) then [] else [last.(event := last.event.(timerMs := last.event.timerMs - dt))])
  }

  /** Every event either fires once or survives once: none is lost or repeated. */
  lemma {:induction false} FiredOrSurvives<C>(evs: seq<Timed<C>>, dt: real)
    ensures |Fired(evs, dt)| + |Survivors(evs, dt)| == |evs|
    ensures |Fired(evs, dt)| == |Due(evs, dt)|
  {
    if evs != [] {
      FiredOrSurvives(evs[..|evs| - 1], dt);
    }
  }

  /** The scan of `step_timer_with_callback`: lower every timer, sorting the events into fired and running. */
  method ScanTimedEvents<C>(evs: seq<Timed<C>>, elapsedMs: real)
    returns (running: seq<Timed<C>>, fired: seq<C>, garbage: seq<Entity>)
    ensures fired == Fired(evs, elapsedMs)
    ensures running == Survivors(evs, elapsedMs)
    ensures garbage == Due(evs, elapsedMs)
  {
    fired := [];
    running := [];
    garbage := [];
    for i := 0 to |evs|
      invariant fired == Fired(evs[..i], elapsedMs)
      invariant running == Survivors(evs[..i], elapsedMs)
      invariant garbage == Due(evs[..i], elapsedMs)
    {
      assert evs[..i + 1][..i] == evs[..i];
      var ev := evs[i];
      var t := ev.event.timerMs - elapsedMs;
      if t <= 0.0 {
        fired := fired + [ev.event.callback];
        garbage := garbage + [ev.entity];
      } else {
        running := running + [ev.(event := ev.event.(timerMs := t))];
      }
    }
    assert evs[..|evs|] == evs;
  }

  function SetOf(es: seq<Entity>): (g: set<Entity>)
    ensures forall e :: e in g <==> e in es
  {
    set e | e in es
  }

  /** The first `k` entities of `es`, as a set. */
  function Taken(es: seq<Entity>, k: nat): (g: set<Entity>)
    requires k <= |es|
    ensures forall e :: e in g <==> e in es[..k]
  {
    set j | 0 <= j < k :: es[j]
  }

  /** Remove all components of each listed entity in turn. */
  method RemoveEach(r: Registry, garbage: seq<Entity>) returns (r': Registry)
    ensures r' == RemoveSet(r, SetOf(garbage))
  {
    r' := r;
    RemoveNothing(r);
    assert Taken(garbage, 0) == {};
    for k := 0 to |garbage|
      invariant r' == RemoveSet(r, Taken(garbage, k))
    {
      r' := RemoveAllComponentsOf(r', garbage[k]);
      RemoveSetTwice(r, Taken(garbage, k), {garbage[k]});
      TakenStep(garbage, k);
    }
    TakenAll(garbage);
  }

  lemma TakenStep(es: seq<Entity>, k: nat)
    requires k < |es|
    ensures Taken(es, k + 1) == Taken(es, k) + {es[k]}
  {
  }

  lemma TakenAll(es: seq<Entity>)
    ensures Taken(es, |es|) == SetOf(es)
  {
    assert es[..|es|] == es;
  }

  lemma RemoveNothing(r: Registry)
    ensures RemoveSet(r, {}) == r
  {
    forall c | c in r.members ensures RemoveSet(r, {}).members[c] == r.members[c] {
      WithoutNothing(r.members[c], {});
    }
    assert RemoveSet(r, {}).members == r.members;
  }

  /**
   * `step_timer_with_callback`. Every event's timer goes down by the
   * elapsed time; those that reach zero have their callback collected and,
   * after the scan, their entity loses all its components. The events that
   * keep running are returned in container order.
   */
  method StepTimedEvents<C>(r: Registry, evs: seq<Timed<C>>, elapsedMs: real)
    returns (r': Registry, running: seq<Timed<C>>, fired: seq<C>)
    ensures fired == Fired(evs, elapsedMs)
    ensures running == Survivors(evs, elapsedMs)
    ensures r' == RemoveSet(r, SetOf(Due(evs, elapsedMs)))
  {
    var garbage;
    running, fired, garbage := ScanTimedEvents(evs, elapsedMs);
    r' := RemoveEach(r, garbage);
  }

  /** `xs` with `x` appended loses `x` exactly when it is gone. */
  lemma {:induction false} WithoutSnoc(xs: seq<Entity>, x: Entity, gone: set<Entity>)
    ensures Without(xs + [x], gone) == Without(xs, gone) + (if x in gone then [] else [x])
  {
    if xs != [] {
      WithoutSnoc(xs[1..], x, gone);
      assert (xs + [x])[1..] == xs[1..] + [x];
    }
  }

  /** Removing entities a list does not hold changes nothing more. */
  lemma {:induction false} WithoutForeign(xs: seq<Entity>, gone: set<Entity>, extra: set<Entity>)
    requires forall x :: x in xs ==> x !in extra
    ensures Without(xs, gone + extra) == Without(xs, gone)
  {
    if xs != [] {
      WithoutForeign(xs[1..], gone, extra);
    }
  }

  lemma EntitiesAppend<C>(a: seq<Timed<C>>, b: seq<Timed<C>>)
    ensures Entities(a + b) == Entities(a) + Entities(b)
  {
  }

  /** The entities of all but the last event are distinct and do not include the last one's. */
  lemma DistinctInit<C>(evs: seq<Timed<C>>)
    requires evs != [] && Distinct(Entities(evs))
    ensures Distinct(Entities(evs[..|evs| - 1]))
    ensures evs[|evs| - 1].entity !in Entities(evs[..|evs| - 1])
  {
    var init := evs[..|evs| - 1];
    forall i, j | 0 <= i < j < |init| ensures Entities(init)[i] != Entities(init)[j] {
      assert Entities(init)[i] == Entities(evs)[i] && Entities(init)[j] == Entities(evs)[j];
    }
  }

  /** With distinct entities, the last event's entity is due exactly when that event expires. */
  lemma LastDue<C>(evs: seq<Timed<C>>, dt: real)
    requires evs != [] && Distinct(Entities(evs))
    ensures evs[|evs| - 1].entity in Due(evs, dt) <==> Expires(evs[|evs| - 1], dt)
  {
  }

  /**
   * With one event per entity, the events that keep running belong, in
   * order, to exactly the entities still in the timed-event container once
   * the expired ones have been removed.
   */
  lemma {:induction false} SurvivorsAligned<C>(evs: seq<Timed<C>>, dt: real)
    requires Distinct(Entities(evs))
    ensures Entities(Survivors(evs, dt)) == Without(Entities(evs), SetOf(Due(evs, dt)))
  {
    if evs != [] {
      DistinctInit(evs);
      SurvivorsAligned(evs[..|evs| - 1], dt);
      AlignedStep(evs, dt);
    }
  }

  /** One step of `SurvivorsAligned`: the alignment for all but the last event extends to all of them. */
  lemma AlignedStep<C>(evs: seq<Timed<C>>, dt: real)
    requires evs != [] && Distinct(Entities(evs))
    requires Distinct(Entities(evs[..|evs| - 1])) && evs[|evs| - 1].entity !in Entities(evs[..|evs| - 1])
    requires Entities(Survivors(evs[..|evs| - 1], dt)) == Without(Entities(evs[..|evs| - 1]), SetOf(Due(evs[..|evs| - 1], dt)))
    ensures Entities(Survivors(evs, dt)) == Without(Entities(evs), SetOf(Due(evs, dt)))
  {
    SurvivorsSnoc(evs, dt);
    WithoutDueSnoc(evs, dt);
  }

  /** The entities of the surviving events grow by the last event's entity exactly when it does not expire. */
  lemma SurvivorsSnoc<C>(evs: seq<Timed<C>>, dt: real)
    requires evs != []
    ensures Entities(Survivors(evs, dt))
      == Entities(Survivors(evs[..|evs| - 1], dt)) + (if Expires(evs[|evs| - 1], dt) then [] else [evs[|evs| - 1].entity])
  {
    var last := evs[|evs| - 1];
    var tail := if Expires(last, dt) then [] else [last.(event := last.event.(timerMs := last.event.timerMs - dt))];
    EntitiesAppend(Survivors(evs[..|evs| - 1], dt), tail);
  }

  /** Removing the due entities from all the events' entities extends the removal from all but the last. */
  lemma WithoutDueSnoc<C>(evs: seq<Timed<C>>, dt: real)
    requires evs != [] && Distinct(Entities(evs))
    requires evs[|evs| - 1].entity !in Entities(evs[..|evs| - 1])
    ensures Without(Entities(evs), SetOf(Due(evs, dt)))
      == Without(Entities(evs[..|evs| - 1]), SetOf(Due(evs[..|evs| - 1], dt)))
        + (if Expires(evs[|evs| - 1], dt) then [] else [evs[|evs| - 1].entity])
  {
    var init := evs[..|evs| - 1];
    var last := evs[|evs| - 1];
    var g := SetOf(Due(evs, dt));
    var g0 := SetOf(Due(init, dt));
    var extra := if Expires(last, dt) then {last.entity} else {};
    assert g == g0 + extra by {
      assert Due(evs, dt) == Due(init, dt) + (if Expires(last, dt) then [last.entity] else []);
    }
    assert Without(Entities(init), g) == Without(Entities(init), g0) by {
      WithoutForeign(Entities(init), g0, extra);
    }
    assert last.entity in g <==> Expires(last, dt) by {
      LastDue(evs, dt);
    }
    assert Entities(evs) == Entities(init) + [last.entity];
    WithoutSnoc(Entities(init), last.entity, g);
  }
}
