/**
 * The two swarm forces of the AI step. `swarm_keep_distance` pushes each
 * ordinary enemy away from its nearest neighbour with half a unit of
 * force; `swarm_block_interestpoint` draws ordinary enemies near the
 * waypoint closest to the player towards that waypoint (and, with no
 * waypoint, towards a point the source never assigns). Both only add to
 * forces, and each enemy's addition depends only on positions, which
 * neither pass changes.
 */
module Swarming {
  import opened Vectors
  import opened Common
  import opened Components
  import opened Registry
  import opened EnemyAi
  import opened Wrappers

  /** Who `swarm_keep_distance` pushes: a moving enemy that is no boss, no attachment and has a non-zero speed cap. */
  predicate Repelled(s: Swarm, e: Entity)
  {
    e in s.motions && e !in s.bosses && e !in s.attachments && s.motions[e].maxVelocity != 0.0
  }

  /** Another enemy with a position, which `e` may be pushed away from. */
  predicate Neighbour(s: Swarm, e: Entity, o: Entity)
  {
    o != e && o in s.transforms
  }

  /** The distance from `e` to `o`, as `glm::length` computes it. */
  function Gap(lib: Libm, s: Swarm, e: Entity, o: Entity): real
    requires e in s.transforms && o in s.transforms
  {
    Length(lib, Sub(s.transforms[o].position, s.transforms[e].position))
  }

  /**
   * The position in the enemy list of `e`'s nearest neighbour among the
   * first `k` entries. The scan keeps a candidate until a strictly nearer
   * one comes, so of equally near neighbours the earliest wins.
   */
  function NearestIn(lib: Libm, s: Swarm, e: Entity, k: nat): (r: Option<nat>)
    requires e in s.transforms && k <= |s.order|
    ensures r.Some? ==> r.value < k && Neighbour(s, e, s.order[r.value])
  {
    if k == 0 then None
    else
      var c := NearestIn(lib, s, e, k - 1);
      var o := s.order[k - 1];
      if Neighbour(s, e, o) && (c.None? || Gap(lib, s, e, o) < Gap(lib, s, e, s.order[c.value])) then Some(k - 1)
      else c
  }

  /**
   * The scan finds a neighbour exactly when there is one; the one it finds
   * is at least as near as every neighbour and strictly nearer than every
   * neighbour listed before it.
   */
  lemma {:induction false} NearestIsFirstNearest(lib: Libm, s: Swarm, e: Entity, k: nat)
    requires e in s.transforms && k <= |s.order|
    ensures NearestIn(lib, s, e, k).None? <==> forall i :: 0 <= i < k ==> !Neighbour(s, e, s.order[i])
    ensures NearestIn(lib, s, e, k).Some? ==> var j := NearestIn(lib, s, e, k).value;
      && (forall i :: 0 <= i < k && Neighbour(s, e, s.order[i]) ==> Gap(lib, s, e, s.order[j]) <= Gap(lib, s, e, s.order[i]))
      && (forall i :: 0 <= i < j && Neighbour(s, e, s.order[i]) ==> Gap(lib, s, e, s.order[j]) < Gap(lib, s, e, s.order[i]))
  {
    if k > 0 {
      NearestIsFirstNearest(lib, s, e, k - 1);
    }
  }

  /** `e`'s motion after `swarm_keep_distance`: half the unit direction away from the nearest neighbour is added. */
  function KeptApart(lib: Libm, s: Swarm, e: Entity): Motion
    requires e in s.motions && e in s.transforms
  {
    var m := s.motions[e];
    match NearestIn(lib, s, e, |s.order|)
    case None => m
    case Some(j) =>
      var away := Sub(s.transforms[e].position, s.transforms[s.order[j]].position);
      m.(force := Add(m.force, Scale(Normalize(lib, away), 0.5)))
  }

  /** Only the force changes, and with no neighbour nothing does. */
  lemma RepulsionFrame(lib: Libm, s: Swarm, e: Entity)
    requires e in s.motions && e in s.transforms
    ensures KeptApart(lib, s, e) == s.motions[e].(force := KeptApart(lib, s, e).force)
    ensures NearestIn(lib, s, e, |s.order|).None? ==> KeptApart(lib, s, e) == s.motions[e]
  {
  }

  /**
   * The push has squared length a quarter and points away from the
   * nearest neighbour, unless the two stand on the same spot.
   */
  lemma RepulsionPointsAway(lib: Libm, s: Swarm, e: Entity)
    requires SqrtLaw(lib) && e in s.motions && e in s.transforms
    ensures NearestIn(lib, s, e, |s.order|).Some? ==>
      var away := Sub(s.transforms[e].position, s.transforms[s.order[NearestIn(lib, s, e, |s.order|).value]].position);
      var added := Sub(KeptApart(lib, s, e).force, s.motions[e].force);
      away != Zero ==> Norm2(added) == 0.25 && Dot(added, away) > 0.0
  {
    var r := NearestIn(lib, s, e, |s.order|);
    if r.Some? {
      var away := Sub(s.transforms[e].position, s.transforms[s.order[r.value]].position);
      if away != Zero {
        PushAway(lib, s.motions[e].force, away);
      }
    }
  }

  /** Half the normalised non-zero `d`, added to `f`, adds squared length a quarter along `d`. */
  lemma PushAway(lib: Libm, f: Vec2, d: Vec2)
    requires SqrtLaw(lib) && d != Zero
    ensures Norm2(Sub(Add(f, Scale(Normalize(lib, d), 0.5)), f)) == 0.25
    ensures Dot(Sub(Add(f, Scale(Normalize(lib, d), 0.5)), f), d) > 0.0
  {
    var u := Normalize(lib, d);
    assert Norm2(u) == 1.0 && Dot(u, d) > 0.0 by {
      UnitTowards(lib, d);
    }
    HalfUnit(f, u, d);
  }

  /** Adding half of a unit vector `u` that points along `d` adds a vector of squared length a quarter pointing along `d`. */
  lemma HalfUnit(f: Vec2, u: Vec2, d: Vec2)
    requires Norm2(u) == 1.0 && Dot(u, d) > 0.0
    ensures Norm2(Sub(Add(f, Scale(u, 0.5)), f)) == 0.25
    ensures Dot(Sub(Add(f, Scale(u, 0.5)), f), d) > 0.0
  {
    assert Sub(Add(f, Scale(u, 0.5)), f) == Scale(u, 0.5);
  }

  /** The inner loop of `swarm_keep_distance`. */
  method FindNearest(lib: Libm, s: Swarm, e: Entity) returns (r: Option<nat>)
    requires e in s.transforms
    ensures r == NearestIn(lib, s, e, |s.order|)
  {
    r := None;
    for i := 0 to |s.order|
      invariant r == NearestIn(lib, s, e, i)
    {
      var o := s.order[i];
      if o != e && o in s.transforms {
        var dist := Gap(lib, s, e, o);
        if r.None? || dist < Gap(lib, s, e, s.order[r.value]) {
          r := Some(i);
        }
      }
    }
  }

  /**
   * `swarm_keep_distance` over the enemy list. Every pushed enemy gets
   * `KeptApart`; every other motion, and every other component, is kept.
   */
  method SwarmKeepDistance(lib: Libm, s: Swarm) returns (s': Swarm)
    requires Distinct(s.order)
    requires forall e :: e in s.order && Repelled(s, e) ==> e in s.transforms
    ensures s' == s.(motions := s'.motions) && s'.motions.Keys == s.motions.Keys
    ensures forall e :: e in s.order && Repelled(s, e) ==> s'.motions[e] == KeptApart(lib, s, e)
    ensures forall e :: e in s.motions && !(e in s.order && Repelled(s, e)) ==> s'.motions[e] == s.motions[e]
  {
    var motions := s.motions;
    for i := 0 to |s.order|
      invariant motions.Keys == s.motions.Keys
      invariant forall k :: 0 <= k < i && Repelled(s, s.order[k]) ==> motions[s.order[k]] == KeptApart(lib, s, s.order[k])
      invariant forall e :: e in s.motions && !(e in s.order[..i] && Repelled(s, e)) ==> motions[e] == s.motions[e]
    {
      var e := s.order[i];
      assert forall k :: 0 <= k < i ==> s.order[k] != e;
      if Repelled(s, e) {
        var j := FindNearest(lib, s, e);
        if j.Some? {
          var away := Sub(s.transforms[e].position, s.transforms[s.order[j.value]].position);
          motions := motions[e := motions[e].(force := Add(motions[e].force, Scale(Normalize(lib, away), 0.5)))];
        }
      }
    }
    assert s.order[..|s.order|] == s.order;
    s' := s.(motions := motions);
  }

  /** The distance from a waypoint to the player. */
  function Reach(lib: Libm, waypoint: Vec2, player: Vec2): real
  {
    Length(lib, Sub(waypoint, player))
  }

  /**
   * The position of the waypoint nearest the player among the first `k`.
   * The scan takes any waypoint at least as near as its candidate, so of
   * equally near waypoints the last wins.
   */
  function NearestWaypoint(lib: Libm, waypoints: seq<Vec2>, player: Vec2, k: nat): (r: Option<nat>)
    requires k <= |waypoints|
    ensures r.Some? ==> r.value < k
  {
    if k == 0 then None
    else
      var c := NearestWaypoint(lib, waypoints, player, k - 1);
      if c.None? || Reach(lib, waypoints[k - 1], player) <= Reach(lib, waypoints[c.value], player) then Some(k - 1)
      else c
  }

  /**
   * A waypoint is found exactly when there is one; it is at least as near
   * as every waypoint and strictly nearer than every later one.
   */
  lemma {:induction false} NearestWaypointIsLastNearest(lib: Libm, waypoints: seq<Vec2>, player: Vec2, k: nat)
    requires k <= |waypoints|
    ensures NearestWaypoint(lib, waypoints, player, k).None? <==> k == 0
    ensures NearestWaypoint(lib, waypoints, player, k).Some? ==> var j := NearestWaypoint(lib, waypoints, player, k).value;
      && (forall i :: 0 <= i < k ==> Reach(lib, waypoints[j], player) <= Reach(lib, waypoints[i], player))
      && (forall i :: j < i < k ==> Reach(lib, waypoints[j], player) < Reach(lib, waypoints[i], player))
  {
    if k > 0 {
      NearestWaypointIsLastNearest(lib, waypoints, player, k - 1);
    }
  }

  /** The waypoint loop of `swarm_block_interestpoint`. */
  method FindNearestWaypoint(lib: Libm, waypoints: seq<Vec2>, player: Vec2) returns (r: Option<nat>)
    ensures r == NearestWaypoint(lib, waypoints, player, |waypoints|)
  {
    r := None;
    for i := 0 to |waypoints|
      invariant r == NearestWaypoint(lib, waypoints, player, i)
    {
      var dist := Reach(lib, waypoints[i], player);
      if r.None? || dist <= Reach(lib, waypoints[r.value], player) {
        r := Some(i);
      }
    }
  }

  /** Who `swarm_block_interestpoint` draws: a moving enemy that is no boss, boss arm or boss clone and can move. */
  predicate Drawn(s: Swarm, e: Entity)
    requires e in s.enemies
  {
    var k := s.enemies[e].kind;
    e in s.motions && k != FriendBossClone && k != FriendBoss && k != Boss && k != BossArm
      && s.motions[e].maxVelocity != 0.0
  }

  /** How far from the waypoint an enemy still feels it: one and a half screen radii. */
  function BlockRange(lib: Libm): real
  {
    ScreenRadius(lib) * 1.5
  }

  /** The attraction: the offset to the waypoint divided by the range, times 1.5. */
  function Pull(lib: Libm, waypoint: Vec2, position: Vec2): Vec2
    requires ScreenRadius(lib) > 0.0
  {
    Scale(Scale(Sub(waypoint, position), 1.0 / BlockRange(lib)), 1.5)
  }

  /** `e`'s motion after `swarm_block_interestpoint` draws it towards `waypoint`, if in range. */
  function Attracted(lib: Libm, s: Swarm, e: Entity, waypoint: Vec2): Motion
    requires ScreenRadius(lib) > 0.0 && e in s.enemies && e in s.motions && e in s.transforms
  {
    var m := s.motions[e];
    var p := s.transforms[e].position;
    if !Drawn(s, e) || Length(lib, Sub(waypoint, p)) > BlockRange(lib) then m
    else m.(force := Add(m.force, Pull(lib, waypoint, p)))
  }

  /**
   * An enemy in range gains a force of length at most 1.5 pointing at the
   * waypoint; precisely, the offset divided by the screen radius.
   */
  lemma PullBounded(lib: Libm, waypoint: Vec2, position: Vec2)
    requires SqrtLaw(lib) && Length(lib, Sub(waypoint, position)) <= BlockRange(lib)
    ensures ScreenRadius(lib) > 0.0
    ensures Pull(lib, waypoint, position) == Scale(Sub(waypoint, position), 1.0 / ScreenRadius(lib))
    ensures Norm2(Pull(lib, waypoint, position)) <= 2.25
    ensures Dot(Pull(lib, waypoint, position), Sub(waypoint, position)) >= 0.0
  {
    ScreenRadiusSquared(lib);
    var sr := ScreenRadius(lib);
    var d := Sub(waypoint, position);
    var k := 1.0 / sr;
    assert 1.0 / (sr * 1.5) * 1.5 == k;
    assert Pull(lib, waypoint, position) == Scale(d, k);
    SqrtOf(lib, Norm2(d));
    RangeSquared(Length(lib, d), sr, Norm2(d));
    ShrunkNorm(d, k, sr);
    assert Dot(Scale(d, k), d) == k * Norm2(d);
    NonNegProduct(k, Norm2(d));
  }

  /** A length within one and a half radii has a square within 2.25 squared radii. */
  lemma RangeSquared(l: real, sr: real, n: real)
    requires 0.0 <= l <= sr * 1.5 && l * l == n && sr > 0.0
    ensures n <= 2.25 * (sr * sr)
  {
    MulMonotone(l, sr * 1.5);
  }

  lemma MulMonotone(a: real, b: real)
    requires 0.0 <= a <= b
    ensures a * a <= b * b
  {
    assert a * a <= a * b by {
      assert a * (b - a) >= 0.0 by { NonNegProduct(a, b - a); }
    }
    assert a * b <= b * b by {
      assert (b - a) * b >= 0.0 by { NonNegProduct(b - a, b); }
    }
  }

  lemma NonNegProduct(a: real, b: real)
    requires 0.0 <= a && 0.0 <= b
    ensures a * b >= 0.0
  {
  }

  /** Scaling by the inverse radius a vector within 1.5 radii leaves it within squared length 2.25. */
  lemma ShrunkNorm(d: Vec2, k: real, sr: real)
    requires sr > 0.0 && k == 1.0 / sr && Norm2(d) <= 2.25 * (sr * sr)
    ensures Norm2(Scale(d, k)) <= 2.25
  {
    ScaledNorm(d, k);
    assert k * k * (sr * sr) == 1.0 by {
      assert k * sr == 1.0;
    }
    assert k * k >= 0.0;
    assert k * k * Norm2(d) <= k * k * (2.25 * (sr * sr)) by {
      NonNegProduct(k * k, 2.25 * (sr * sr) - Norm2(d));
    }
  }

  /**
   * The point `swarm_block_interestpoint` pulls towards: the waypoint
   * nearest the player (the last of the nearest), or, when there is no
   * waypoint, whatever the never-assigned local `closest_interest_point`
   * holds, given here as `unset`.
   */
  function Target(lib: Libm, waypoints: seq<Vec2>, player: Vec2, unset: Vec2): (t: Vec2)
    ensures |waypoints| == 0 ==> t == unset
    ensures |waypoints| > 0 ==> t in waypoints
    ensures |waypoints| > 0 ==> forall i :: 0 <= i < |waypoints| ==> Reach(lib, t, player) <= Reach(lib, waypoints[i], player)
  {
    NearestWaypointIsLastNearest(lib, waypoints, player, |waypoints|);
    var j := NearestWaypoint(lib, waypoints, player, |waypoints|);
    if j.None? then unset else waypoints[j.value]
  }

  /** The enemy loop of `swarm_block_interestpoint`: every drawn enemy in range of `w` is pulled towards it. */
  method PullAll(lib: Libm, s: Swarm, w: Vec2) returns (s': Swarm)
    requires ScreenRadius(lib) > 0.0 && Distinct(s.order)
    requires forall e :: e in s.order ==> e in s.enemies
    requires forall e :: e in s.order && Drawn(s, e) ==> e in s.transforms
    ensures s' == s.(motions := s'.motions) && s'.motions.Keys == s.motions.Keys
    ensures forall e :: e in s.order && Drawn(s, e) ==> s'.motions[e] == Attracted(lib, s, e, w)
    ensures forall e :: e in s.motions && !(e in s.order && Drawn(s, e)) ==> s'.motions[e] == s.motions[e]
  {
    var motions := s.motions;
    for i := 0 to |s.order|
      invariant motions.Keys == s.motions.Keys
      invariant forall k :: 0 <= k < i && Drawn(s, s.order[k]) ==> motions[s.order[k]] == Attracted(lib, s, s.order[k], w)
      invariant forall e :: e in s.motions && !(e in s.order[..i] && Drawn(s, e)) ==> motions[e] == s.motions[e]
    {
      var e := s.order[i];
      assert forall k :: 0 <= k < i ==> s.order[k] != e;
      if Drawn(s, e) {
        motions := motions[e := Attracted(lib, s, e, w)];
      }
    }
    assert s.order[..|s.order|] == s.order;
    s' := s.(motions := motions);
  }

  /**
   * `swarm_block_interestpoint` as written: the waypoint nearest the
   * player is found first, then every drawn enemy in range is pulled
   * towards the target point. There is no early return, so with no
   * waypoint at all the enemies are pulled towards `unset`.
   */
  method SwarmBlockInterestPoint(lib: Libm, s: Swarm, waypoints: seq<Vec2>, player: Vec2, unset: Vec2) returns (s': Swarm)
    requires ScreenRadius(lib) > 0.0 && Distinct(s.order)
    requires forall e :: e in s.order ==> e in s.enemies
    requires forall e :: e in s.order && Drawn(s, e) ==> e in s.transforms
    ensures s' == s.(motions := s'.motions) && s'.motions.Keys == s.motions.Keys
    ensures forall e :: e in s.order && Drawn(s, e) ==> s'.motions[e] == Attracted(lib, s, e, Target(lib, waypoints, player, unset))
    ensures forall e :: e in s.motions && !(e in s.order && Drawn(s, e)) ==> s'.motions[e] == s.motions[e]
  {
    var j := FindNearestWaypoint(lib, waypoints, player);
    var w := if j.None? then unset else waypoints[j.value];
    s' := PullAll(lib, s, w);
  }

  /**
   * With no waypoint, the source still pulls a drawn enemy that lies in
   * range of the uninitialised point: its force changes.
   */
  lemma NoWaypointStillPulls(lib: Libm, s: Swarm, player: Vec2, unset: Vec2, e: Entity)
    requires ScreenRadius(lib) > 0.0 && e in s.enemies && e in s.motions && e in s.transforms && Drawn(s, e)
    requires Length(lib, Sub(unset, s.transforms[e].position)) <= BlockRange(lib)
    requires unset != s.transforms[e].position
    ensures Target(lib, [], player, unset) == unset
    ensures Attracted(lib, s, e, unset).force != s.motions[e].force
  {
    var p := s.transforms[e].position;
    var m := s.motions[e];
    PullNonZero(lib, unset, p);
    assert Attracted(lib, s, e, unset) == m.(force := Add(m.force, Pull(lib, unset, p)));
  }

  /** The pull towards a point other than the enemy's own position is never zero. */
  lemma PullNonZero(lib: Libm, w: Vec2, p: Vec2)
    requires ScreenRadius(lib) > 0.0 && w != p
    ensures Pull(lib, w, p) != Zero
  {
    var d := Sub(w, p);
    var k := 1.0 / BlockRange(lib);
    assert k > 0.0;
    if d.x != 0.0 {
      assert d.x * k != 0.0;
      assert (d.x * k) * 1.5 != 0.0;
    } else {
      assert d.y * k != 0.0;
      assert (d.y * k) * 1.5 != 0.0;
    }
  }

  /**
   * `swarm_block_interestpoint` as evidently intended: with no waypoint
   * nothing is pulled; otherwise every drawn enemy in range is pulled
   * towards the waypoint nearest the player.
   */
  method SwarmBlockInterestPointIntended(lib: Libm, s: Swarm, waypoints: seq<Vec2>, player: Vec2) returns (s': Swarm)
    requires ScreenRadius(lib) > 0.0 && Distinct(s.order)
    requires forall e :: e in s.order ==> e in s.enemies
    requires forall e :: e in s.order && Drawn(s, e) ==> e in s.transforms
    ensures s' == s.(motions := s'.motions) && s'.motions.Keys == s.motions.Keys
    ensures |waypoints| == 0 ==> s' == s
    ensures |waypoints| > 0 ==>
      forall e :: e in s.order && Drawn(s, e) ==> s'.motions[e] == Attracted(lib, s, e, Target(lib, waypoints, player, player))
    ensures forall e :: e in s.motions && !(e in s.order && Drawn(s, e)) ==> s'.motions[e] == s.motions[e]
  {
    var j := FindNearestWaypoint(lib, waypoints, player);
    NearestWaypointIsLastNearest(lib, waypoints, player, |waypoints|);
    if j.None? {
      return s;
    }
    s' := PullAll(lib, s, waypoints[j.value]);
  }
}
