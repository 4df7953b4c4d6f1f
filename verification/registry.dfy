/**
 * The entity registry: one container per component type, each holding its
 * entities in insertion order, plus the attachment data the cascading
 * delete follows. `registry_list` is the list of containers the bulk
 * operations visit; three containers are declared but never put on it.
 */
module Registry {
  import opened Components

  datatype ContainerId =
    | DeathTimers | Transforms | Motions | Collisions | Players | Enemies | MeshPtrs
    | RenderRequests | ScreenStates | DebugComponents | Colors | Regions | Chests
    | HealthValues | Healthbar | Guns | Projectiles | Invincibility | Dashes | Animations
    | CollidePlayers | CollideEnemies | Attachments | Camera | Cysts | TimedEvents
    | MenuElems | MenuButtons | Melees | Waypoints | Bosses | Cures | PlayerAbilities
    | Games | Credits | GameModes | TripleBullets | LotsOfBullets

  /** The container at position `i` of `registry_list`, in the constructor's order. */
  function ListAt(i: nat): ContainerId
  {
    if i == 0 then DeathTimers
    else if i == 1 then Transforms
    else if i == 2 then Motions
    else if i == 3 then Collisions
    else if i == 4 then Players
    else if i == 5 then Enemies
    else if i == 6 then MeshPtrs
    else if i == 7 then RenderRequests
    else if i == 8 then ScreenStates
    else if i == 9 then DebugComponents
    else if i == 10 then Colors
    else if i == 11 then Regions
    else if i == 12 then Chests
    else if i == 13 then HealthValues
    else if i == 14 then Projectiles
    else if i == 15 then Invincibility
    else if i == 16 then Animations
    else if i == 17 then Dashes
    else if i == 18 then Guns
    else if i == 19 then CollidePlayers
    else if i == 20 then CollideEnemies
    else if i == 21 then Attachments
    else if i == 22 then Camera
    else if i == 23 then Cysts
    else if i == 24 then TimedEvents
    else if i == 25 then MenuElems
    else if i == 26 then MenuButtons
    else if i == 27 then Melees
    else if i == 28 then Waypoints
    else if i == 29 then Bosses
    else if i == 30 then Cures
    else if i == 31 then PlayerAbilities
    else if i == 32 then Games
    else if i == 33 then Credits
    else GameModes
  }

  /** Where a container sits on `registry_list`; 35 for the three left off. */
  function ListPosition(c: ContainerId): nat
  {
    match c
    case DeathTimers => 0
    case Transforms => 1
    case Motions => 2
    case Collisions => 3
    case Players => 4
    case Enemies => 5
    case MeshPtrs => 6
    case RenderRequests => 7
    case ScreenStates => 8
    case DebugComponents => 9
    case Colors => 10
    case Regions => 11
    case Chests => 12
    case HealthValues => 13
    case Projectiles => 14
    case Invincibility => 15
    case Animations => 16
    case Dashes => 17
    case Guns => 18
    case CollidePlayers => 19
    case CollideEnemies => 20
    case Attachments => 21
    case Camera => 22
    case Cysts => 23
    case TimedEvents => 24
    case MenuElems => 25
    case MenuButtons => 26
    case Melees => 27
    case Waypoints => 28
    case Bosses => 29
    case Cures => 30
    case PlayerAbilities => 31
    case Games => 32
    case Credits => 33
    case GameModes => 34
    case Healthbar => 35
    case TripleBullets => 35
    case LotsOfBullets => 35
  }

  predicate Registered(c: ContainerId) { ListPosition(c) < 35 }

  /** Position `i` names a container whose position is `i`. */
  lemma PositionOfListAt(i: nat)
    requires i < 35
    ensures ListPosition(ListAt(i)) == i
  {
    if i == 0 {} else if i == 1 {} else if i == 2 {} else if i == 3 {} else if i == 4 {} else if i == 5 {} else if i == 6 {} else if i == 7 {} else if i == 8 {} else if i == 9 {} else if i == 10 {} else if i == 11 {} else if i == 12 {} else if i == 13 {} else if i == 14 {} else if i == 15 {} else if i == 16 {} else if i == 17 {} else if i == 18 {} else if i == 19 {} else if i == 20 {} else if i == 21 {} else if i == 22 {} else if i == 23 {} else if i == 24 {} else if i == 25 {} else if i == 26 {} else if i == 27 {} else if i == 28 {} else if i == 29 {} else if i == 30 {} else if i == 31 {} else if i == 32 {} else if i == 33 {}
  }

  /** A listed container is the one named at its position. */
  lemma ListAtPosition(c: ContainerId)
    requires Registered(c)
    ensures ListAt(ListPosition(c)) == c
  {
    match c
    case DeathTimers => assert ListAt(0) == DeathTimers;
    case Transforms => assert ListAt(1) == Transforms;
    case Motions => assert ListAt(2) == Motions;
    case Collisions => assert ListAt(3) == Collisions;
    case Players => assert ListAt(4) == Players;
    case Enemies => assert ListAt(5) == Enemies;
    case MeshPtrs => assert ListAt(6) == MeshPtrs;
    case RenderRequests => assert ListAt(7) == RenderRequests;
    case ScreenStates => assert ListAt(8) == ScreenStates;
    case DebugComponents => assert ListAt(9) == DebugComponents;
    case Colors => assert ListAt(10) == Colors;
    case Regions => assert ListAt(11) == Regions;
    case Chests => assert ListAt(12) == Chests;
    case HealthValues => assert ListAt(13) == HealthValues;
    case Projectiles => assert ListAt(14) == Projectiles;
    case Invincibility => assert ListAt(15) == Invincibility;
    case Animations => assert ListAt(16) == Animations;
    case Dashes => assert ListAt(17) == Dashes;
    case Guns => assert ListAt(18) == Guns;
    case CollidePlayers => assert ListAt(19) == CollidePlayers;
    case CollideEnemies => assert ListAt(20) == CollideEnemies;
    case Attachments => assert ListAt(21) == Attachments;
    case Camera => assert ListAt(22) == Camera;
    case Cysts => assert ListAt(23) == Cysts;
    case TimedEvents => assert ListAt(24) == TimedEvents;
    case MenuElems => assert ListAt(25) == MenuElems;
    case MenuButtons => assert ListAt(26) == MenuButtons;
    case Melees => assert ListAt(27) == Melees;
    case Waypoints => assert ListAt(28) == Waypoints;
    case Bosses => assert ListAt(29) == Bosses;
    case Cures => assert ListAt(30) == Cures;
    case PlayerAbilities => assert ListAt(31) == PlayerAbilities;
    case Games => assert ListAt(32) == Games;
    case Credits => assert ListAt(33) == Credits;
    case GameModes => assert ListAt(34) == GameModes;
    case Healthbar =>
    case TripleBullets =>
    case LotsOfBullets =>
  }

  /** Exactly three containers are left off the list. */
  lemma Unlisted(c: ContainerId)
    ensures !Registered(c) <==> c == Healthbar || c == TripleBullets || c == LotsOfBullets
  {
  }

  datatype Registry = Registry(members: map<ContainerId, seq<Entity>>, attachments: map<Entity, Attachment>)

  predicate Distinct<T(==)>(xs: seq<T>)
  {
    forall i, j :: 0 <= i < j < |xs| ==> xs[i] != xs[j]
  }

  /** Every container exists, and the attachment data matches its container. */
  ghost predicate Valid(r: Registry)
  {
    (forall c: ContainerId :: c in r.members)
    && Distinct(r.members[Attachments])
    && (forall e :: e in r.attachments <==> e in r.members[Attachments])
  }

  predicate Has(r: Registry, c: ContainerId, e: Entity)
  {
    c in r.members && e in r.members[c]
  }

  /** The entities of `xs` outside `gone`, in their original order. */
  function Without(xs: seq<Entity>, gone: set<Entity>): (ys: seq<Entity>)
    ensures forall x :: x in ys <==> x in xs && x !in gone
    ensures |ys| <= |xs|
  {
    if xs == [] then []
    else if xs[0] in gone then Without(xs[1..], gone)
    else [xs[0]] + Without(xs[1..], gone)
  }

  lemma WithoutDistinct(xs: seq<Entity>, gone: set<Entity>)
    requires Distinct(xs)
    ensures Distinct(Without(xs, gone))
  {
    if xs != [] {
      WithoutDistinct(xs[1..], gone);
      assert Distinct(xs[1..]) by {
        forall i, j | 0 <= i < j < |xs[1..]| ensures xs[1..][i] != xs[1..][j] {
          assert xs[1..][i] == xs[i + 1] && xs[1..][j] == xs[j + 1];
        }
      }
      if xs[0] !in gone {
        var ys := [xs[0]] + Without(xs[1..], gone);
        forall i, j | 0 <= i < j < |ys| ensures ys[i] != ys[j] {
          if i == 0 {
            assert ys[j] in Without(xs[1..], gone);
            assert ys[j] in xs[1..];
            var k :| 0 <= k < |xs[1..]| && xs[1..][k] == ys[j];
            assert xs[k + 1] == ys[j];
          }
        }
      }
    }
  }

  lemma WithoutTwice(xs: seq<Entity>, a: set<Entity>, b: set<Entity>)
    ensures Without(Without(xs, a), b) == Without(xs, a + b)
  {
    if xs != [] {
      WithoutTwice(xs[1..], a, b);
      if xs[0] !in a {
        var ys := [xs[0]] + Without(xs[1..], a);
        assert ys[1..] == Without(xs[1..], a);
      }
    }
  }

  lemma WithoutNothing(xs: seq<Entity>, gone: set<Entity>)
    requires forall x :: x in xs ==> x !in gone
    ensures Without(xs, gone) == xs
  {
    if xs != [] {
      WithoutNothing(xs[1..], gone);
    }
  }

  /** Every surviving entity sits no later in the filtered list than before. */
  lemma WithoutEarlier(xs: seq<Entity>, gone: set<Entity>, k: nat)
    requires k < |Without(xs, gone)|
    ensures exists j :: k <= j < |xs| && xs[j] == Without(xs, gone)[k]
  {
    if xs[0] in gone {
      WithoutEarlier(xs[1..], gone, k);
      var j :| k <= j < |xs[1..]| && xs[1..][j] == Without(xs[1..], gone)[k];
      assert xs[j + 1] == Without(xs, gone)[k];
    } else if k > 0 {
      WithoutEarlier(xs[1..], gone, k - 1);
      var j :| k - 1 <= j < |xs[1..]| && xs[1..][j] == Without(xs[1..], gone)[k - 1];
      assert xs[j + 1] == Without(xs, gone)[k];
    } else {
      assert xs[0] == Without(xs, gone)[0];
    }
  }

  /** The registry with every component of the entities in `gone` removed. */
  function RemoveSet(r: Registry, gone: set<Entity>): (r': Registry)
    ensures forall c :: c in r'.members <==> c in r.members
    ensures forall c, e :: Has(r', c, e) <==> Has(r, c, e) && (e !in gone || !Registered(c))
    ensures forall e :: e in r'.attachments <==> e in r.attachments && e !in gone
  {
    Registry(
      map c | c in r.members :: if Registered(c) then Without(r.members[c], gone) else r.members[c],
      map e | e in r.attachments && e !in gone :: r.attachments[e])
  }

  lemma RemoveSetValid(r: Registry, gone: set<Entity>)
    requires Valid(r)
    ensures Valid(RemoveSet(r, gone))
  {
    WithoutDistinct(r.members[Attachments], gone);
  }

  lemma RemoveSetTwice(r: Registry, a: set<Entity>, b: set<Entity>)
    ensures RemoveSet(RemoveSet(r, a), b) == RemoveSet(r, a + b)
  {
    var l := RemoveSet(RemoveSet(r, a), b);
    var m := RemoveSet(r, a + b);
    forall c | c in r.members ensures l.members[c] == m.members[c] {
      if Registered(c) {
        WithoutTwice(r.members[c], a, b);
      }
    }
    assert l.members == m.members;
    assert l.attachments == m.attachments;
  }

  /** One container's `remove(e)`: drop `e` from container `c`. */
  function RemoveFrom(r: Registry, c: ContainerId, e: Entity): (r': Registry)
    ensures forall d :: d in r'.members <==> d in r.members
    ensures forall d :: d in r.members && d != c ==> r'.members[d] == r.members[d]
    ensures c in r.members ==> r'.members[c] == Without(r.members[c], {e})
  {
    Registry(
      if c in r.members then r.members[c := Without(r.members[c], {e})] else r.members,
      if c == Attachments then map f | f in r.attachments && f != e :: r.attachments[f] else r.attachments)
  }

  /** The first `k` containers of the list. */
  function Done(k: nat): set<ContainerId>
  {
    if k == 0 then {} else Done(k - 1) + {ListAt(k - 1)}
  }

  /** A container is among the first `k` exactly when its position is below `k`. */
  lemma {:induction false} DoneBelow(k: nat, c: ContainerId)
    requires k <= 35
    ensures c in Done(k) <==> ListPosition(c) < k
  {
    if k > 0 {
      DoneBelow(k - 1, c);
      PositionOfListAt(k - 1);
      if ListPosition(c) == k - 1 {
        ListAtPosition(c);
      }
    }
  }

  /** The registry once the first `k` listed containers have dropped `e`. */
  ghost function RemovedUpTo(r: Registry, e: Entity, k: nat): Registry
  {
    Registry(
      map c | c in r.members :: if c in Done(k) then Without(r.members[c], {e}) else r.members[c],
      if Attachments in Done(k) then RemoveSet(r, {e}).attachments else r.attachments)
  }

  lemma RemovedUpToStep(r: Registry, e: Entity, k: nat)
    ensures RemoveFrom(RemovedUpTo(r, e, k), ListAt(k), e) == RemovedUpTo(r, e, k + 1)
  {
    MembersStep(r, e, k);
    AttachmentsStep(r, e, k);
  }

  lemma MembersStep(r: Registry, e: Entity, k: nat)
    ensures RemoveFrom(RemovedUpTo(r, e, k), ListAt(k), e).members == RemovedUpTo(r, e, k + 1).members
  {
    var c := ListAt(k);
    var before := RemovedUpTo(r, e, k).members;
    var l := RemoveFrom(RemovedUpTo(r, e, k), c, e).members;
    var m := RemovedUpTo(r, e, k + 1).members;
    assert Done(k + 1) == Done(k) + {c};
    forall d | d in r.members ensures l[d] == m[d] {
      if d == c && d in Done(k) {
        WithoutTwice(r.members[d], {e}, {e});
        assert {e} + {e} == {e};
      }
    }
    assert l.Keys == m.Keys;
  }

  lemma AttachmentsStep(r: Registry, e: Entity, k: nat)
    ensures RemoveFrom(RemovedUpTo(r, e, k), ListAt(k), e).attachments == RemovedUpTo(r, e, k + 1).attachments
  {
    var c := ListAt(k);
    var l := RemoveFrom(RemovedUpTo(r, e, k), c, e).attachments;
    var m := RemovedUpTo(r, e, k + 1).attachments;
    assert Done(k + 1) == Done(k) + {c};
    if c == Attachments {
      assert l.Keys == m.Keys;
    }
  }

  lemma RemovedUpToAll(r: Registry, e: Entity)
    ensures RemovedUpTo(r, e, 35) == RemoveSet(r, {e})
  {
    assert RemovedUpTo(r, e, 35).members == RemoveSet(r, {e}).members by {
      forall c | c in r.members ensures RemovedUpTo(r, e, 35).members[c] == RemoveSet(r, {e}).members[c] {
        DoneBelow(35, c);
      }
    }
    assert RemovedUpTo(r, e, 35).attachments == RemoveSet(r, {e}).attachments by {
      DoneBelow(35, Attachments);
    }
  }

  lemma RemovedNothing(r: Registry, e: Entity)
    ensures RemovedUpTo(r, e, 0) == r
  {
    var l := RemovedUpTo(r, e, 0);
    assert l.members == r.members;
  }

  /**
   * `remove_all_components_of`: visit every listed container and drop `e`
   * from it. Containers off the list keep `e`; no other entity is touched.
   */
  method RemoveAllComponentsOf(r: Registry, e: Entity) returns (r': Registry)
    ensures r' == RemoveSet(r, {e})
    ensures forall c :: Registered(c) ==> !Has(r', c, e)
    ensures forall c :: !Registered(c) && c in r.members ==> r'.members[c] == r.members[c]
    ensures forall c, f :: f != e ==> (Has(r', c, f) <==> Has(r, c, f))
  {
    r' := r;
    RemovedNothing(r, e);
    for k := 0 to 35
      invariant r' == RemovedUpTo(r, e, k)
    {
      RemovedUpToStep(r, e, k);
      r' := RemoveFrom(r', ListAt(k), e);
    }
    RemovedUpToAll(r, e);
  }

  /** `clear_all_components`: every listed container becomes empty. */
  function ClearAll(r: Registry): (r': Registry)
    ensures forall c :: c in r'.members <==> c in r.members
    ensures forall c :: c in r.members && Registered(c) ==> r'.members[c] == []
    ensures forall c :: c in r.members && !Registered(c) ==> r'.members[c] == r.members[c]
    ensures r'.attachments == map[]
  {
    Registry(map c | c in r.members :: if Registered(c) then [] else r.members[c], map[])
  }

  /** Clearing leaves nothing in a listed container, so removing afterwards changes nothing. */
  lemma ClearAllAbsorbs(r: Registry, gone: set<Entity>)
    ensures RemoveSet(ClearAll(r), gone) == ClearAll(r)
  {
    var l := RemoveSet(ClearAll(r), gone);
    forall c | c in r.members ensures l.members[c] == ClearAll(r).members[c] {
      if !Registered(c) {
        assert l.members[c] == ClearAll(r).members[c];
      }
    }
    assert l.members == ClearAll(r).members;
  }

  /** One line of the debug listing: a container and how many components it holds. */
  datatype SizeLine = SizeLine(container: ContainerId, size: nat)

  /** The sizes `list_all_components` reports: the listed containers that are not empty. */
  function ListAll(r: Registry): (lines: seq<SizeLine>)
    ensures forall l :: l in lines ==> Registered(l.container) && l.container in r.members && l.size == |r.members[l.container]| > 0
    ensures forall c :: Registered(c) && c in r.members && |r.members[c]| > 0 ==> SizeLine(c, |r.members[c]|) in lines
  {
    ListFrom(r, 0)
  }

  /** The listing from position `k` of the list onwards. */
  function ListFrom(r: Registry, k: nat): (lines: seq<SizeLine>)
    requires k <= 35
    ensures forall l :: l in lines ==> k <= ListPosition(l.container) < 35 && l.container in r.members && l.size == |r.members[l.container]| > 0
    ensures forall c :: k <= ListPosition(c) < 35 && c in r.members && |r.members[c]| > 0 ==> SizeLine(c, |r.members[c]|) in lines
    decreases 35 - k
  {
    if k == 35 then []
    else
      var c := ListAt(k);
      PositionOfListAt(k);
      assert forall d :: ListPosition(d) == k ==> d == c by {
        forall d | ListPosition(d) == k ensures d == c { ListAtPosition(d); }
      }
      if c in r.members && |r.members[c]| > 0 then [SizeLine(c, |r.members[c]|)] + ListFrom(r, k + 1)
      else ListFrom(r, k + 1)
  }

  /** The containers `list_all_components_of(e)` reports: the listed ones holding `e`. */
  function ListOf(r: Registry, e: Entity): (cs: seq<ContainerId>)
    ensures forall c :: c in cs <==> Registered(c) && Has(r, c, e)
  {
    ListOfFrom(r, e, 0)
  }

  function ListOfFrom(r: Registry, e: Entity, k: nat): (cs: seq<ContainerId>)
    requires k <= 35
    ensures forall c :: c in cs <==> k <= ListPosition(c) < 35 && Has(r, c, e)
    decreases 35 - k
  {
    if k == 35 then []
    else
      var c := ListAt(k);
      PositionOfListAt(k);
      assert forall d :: ListPosition(d) == k ==> d == c by {
        forall d | ListPosition(d) == k ensures d == c { ListAtPosition(d); }
      }
      if Has(r, c, e) then [c] + ListOfFrom(r, e, k + 1)
      else ListOfFrom(r, e, k + 1)
  }

}
