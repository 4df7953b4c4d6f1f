# CytotoxicCataclysm simulation core in Dafny

CytotoxicCataclysm is a top-down shooter. The player is an immune cell that
moves through a circular map of the human body. The map is cut into six
wedge-shaped regions. The game is built on a small entity–component registry:
an entity is a number, and every kind of component lives in its own container.

This project models the part of each frame that is deterministic simulation.
Rendering, sound, menus and input devices are not part of it. The model covers:

- the component registry: removing, clearing and listing components, removing
  an entity together with every attachment hanging from it, and finding an
  attachment;
- the physics system:
  - the collision circles an entity's box is split into;
  - circle, box, map-boundary, segment–circle, triangle and mesh tests;
  - the knock-back at a region edge during a boss fight;
  - the pairwise scan that raises collision events, and how they are
    classified;
  - the movement step, with speed clamping and turning;
  - articulated attachments (gun, sword, dash trail, boss arms), which swing,
    are clamped to their freedom and are placed relative to their parent;
- the world system:
  - the player's movement controls;
  - the attack and dash cooldowns;
  - timed events and their callbacks;
  - how resolving a collision changes its owner's velocity: the wall and
    region-edge bounces and the knock-backs a player takes;
  - where a waypoint icon is placed on the screen edge;
- world creation:
  - gun, sword and dash trail;
  - the boss's eighteen arm parts;
  - the random regions and the cysts scattered in them;
  - bullets, both the player's fan of bullets and the enemies' shots;
- the AI system: chasing, retracting boss arms, keeping enemies apart,
  crowding them around the nearest interest point, enemy shooting and boss
  dashes;
- the cyst effects: picking a random inactive effect, applying it, and the
  timed callback that undoes it;
- the sprite-sheet animation step and the animation switch;
- the OBJ mesh loader's index conversion and its rescaling into the unit box.

Modelling choices:

- **Floats.** Floating-point numbers are modelled as reals, so there is no
  rounding and no NaN.
- **Math library.** The C math functions the game calls (`sqrt`, `sin`,
  `cos`, `atan2`, `pow`, `fmod`) form a record, `Vectors.Libm`, that every
  operation needing them receives as a parameter. The laws those functions
  obey (`SqrtLaw`, `TrigLaw`, `FmodLaw`, `PowLaw`, `SquareLaw`) are required
  only by the lemmas that use them.
- **Randomness.** Random draws are explicit parameters or finite sequences of
  draws.
- **Region-edge gate.** The collision scan takes its region-edge gate as a
  parameter. `AsWritten` is the source's test (`src/physics_system.cpp:498`);
  `Intended` is the corrected one (see Findings).
- **Registry.** Each component container is an insertion-ordered sequence of
  entities. Attachment components are kept as a map beside it
  (`Registry.Registry`).
- **Modules.** There is one module per source subsystem. `Vectors`, `Common`
  and `Components` hold the shared data model. `Registry` and `Forest` model
  the component store. `Geometry`, `Collisions`, `Motions` and `Articulation`
  model the physics system. `Controls`, `Timers`, `Resolution` and `Waypoints`
  model the world system. `WorldInit`, `Regions` and `Bullets` model world
  creation. `EnemyAi`, `EnemyAttacks` and `Swarming` model the AI system.
  `Effects`, `Animations` and `Meshes` model the remaining subsystems.

Some behaviour of the code is easy to misread; the model follows the code:

- `step_movement` applies no velocity decay.
- An attachment's clamp bounds `|new angle|`, not its distance from the
  offset.
- The wall bounce clears the world system's `allow_accel` flag
  (`src/world_system.hpp:125`), not the `allow_accel` field of the entity's
  `Motion`.
- `getAttachment` (`src/world_system.cpp:2178-2186`) returns a reference to
  its local variable, which dangles once the function returns. The model
  returns the entity found. That is what callers evidently expect, not what
  the code guarantees.

The boss-dash test `angleRemaining - M_PI < ANGLE_PRECISION`
(`src/ai_system.cpp:222`) accepts almost every angle. It is modelled as
written.

## Model

| member | source | states |
|---|---|---|
| Common.ScreenRadiusSquared | src/common.hpp:63 | the screen radius, half the screen diagonal, is positive and its square is 1920² + 1080² over 4 |
| Common.Translate | src/common.hpp:44-49 | translating a transformation moves its origin to where the old matrix sends the offset and keeps its determinant |
| Common.ScaleBy | src/common.hpp:44-49 | scaling keeps the origin and multiplies the determinant by the product of the two scale factors |
| Common.Rotate | src/common.hpp:44-49 | rotating a transformation keeps its origin |
| Common.RotationDet | src/common.hpp:44-49 | a rotation matrix has determinant 1, so rotating never mirrors |
| Common.DetMul | src/common.hpp:44-49 | the determinant of a product of transformations is the product of their determinants |
| Common.ApplyMul | src/common.hpp:44-49 | applying a product of transformations to a point is applying them one after the other |
| Common.MulShift | src/common.hpp:44-49 | shifting the left factor of a product shifts the product by the same vector |
| Common.Shift | src/common.hpp:44-49 | shifting a transformation moves its origin by the vector and keeps its determinant |
| Common.TranslateIdentity | src/common.hpp:44-49 | translating the identity gives the matrix that adds the offset to every point |
| Vectors.Normalize | src/physics_system.cpp:146 | the zero vector normalizes to zero; any other vector is its normalized form scaled by its length |
| Vectors.NormalizeIsUnit | src/physics_system.cpp:146 | the normalized form of a non-zero vector has length 1 |
| Vectors.NormalizeZero | src/world_system.cpp:1164 | normalizing the zero vector gives the zero vector |
| Vectors.LengthCompare | src/physics_system.cpp:366 | comparing a length with a bound is the same as comparing the squared length with the squared bound, in both directions |
| Vectors.ClampSpeed | src/physics_system.cpp:364-369 | a velocity no faster than the limit is unchanged; under a non-negative limit the result is the velocity scaled by a factor in [0, 1]; a faster one has each component in the ratio limit / speed to the input's |
| Vectors.ClampSpeedBound | src/physics_system.cpp:364-369 | the clamped velocity never exceeds the limit, points the same way as the input, and is the input itself when that is within the limit |
| Vectors.SignAbs | src/physics_system.cpp:336 | sign times absolute value gives the number back, and the sign has magnitude at most 1 |
| Components.CollisionCode | src/components.hpp:51-66 | the fourteen collision types are numbered 0 to 13, from WITH_BOUNDARY to SWORD_WITH_CYST |
| Components.CollisionCodesEnumerate | src/components.hpp:51-66 | the collision types listed in enumeration order have exactly their codes, and the code is injective |
| Components.EffectCode | src/components.hpp:68-84 | every cyst effect has a code below the effect count |
| Components.EffectOfCode | src/components.hpp:68-84 | a number names an effect exactly when it is below the effect count, and it is that effect's code |
| Components.EffectCodeRoundTrip | src/components.hpp:68-84 | decoding an effect's code gives the effect back |
| Components.DefaultTransform | src/components.hpp:413-419 | a default transform sits at the origin, unrotated, with equal positive scales |
| Components.DefaultMotion | src/components.hpp:422-431 | a default motion is at rest, has speed limit 400, turn limit 2π, unit acceleration, a deceleration factor in (0, 1), and may accelerate |
| Components.NewAttachment | src/components.hpp:433-441 | a new attachment hangs from its parent with identity relative transforms, no swing, no offset and no freedom |
| Components.CollisionWith | src/components.hpp:452-455 | a collision with another entity records its kind and that entity |
| Components.CollisionAlone | src/components.hpp:456-461 | a collision without another entity exists only for the two boundary kinds |
| Components.CollisionKnockback | src/components.hpp:462-465 | a knock-back collision records its kind and direction and no other entity |
| Components.DefaultDash | src/components.hpp:574-580 | a default dash is not active, is ready at once, waits 800 ms between dashes and lasts 100 ms |
| Components.DefaultGun | src/components.hpp:609-617 | a default gun is ready, fires every 300 ms, deals 10 damage at bullet speed 500 |
| Geometry.BoundingBox | src/physics_system.cpp:6-10 | the bounding box has non-negative sides whose squares are the squares of the scales, whatever the facing |
| Geometry.Row | src/physics_system.cpp:41-51 | the circles laid along the long axis sit at the successive quarter-short-edge steps that are still short of the far end, and the next step reaches it |
| Geometry.CollisionCircles | src/physics_system.cpp:27-60 | a square box gets one circle of half its side at the centre; otherwise at least two circles of half the short edge run from one end of the long axis to the other |
| Geometry.CirclesLayout | src/physics_system.cpp:41-57 | every circle but the last sits at one step of the walk along the long axis; the last sits at the far end, which the walk has reached |
| Geometry.DefaultTransformOneCircle | src/physics_system.cpp:32-33 | a default 10 × 10 entity is one circle of radius 5 at its position |
| Geometry.CircleOffset | src/physics_system.cpp:41-57 | every circle of a non-square box lies on the long axis, within half the span of the centre |
| Geometry.CirclesOnAxis | src/physics_system.cpp:41-57 | every circle centre is within half the long-axis span of the entity's position |
| Geometry.CollidesSymmetric | src/physics_system.cpp:62-75 | circle collision between two entities does not depend on their order |
| Geometry.OverlapSquared | src/physics_system.cpp:68-69 | two circles overlap exactly when the squared distance between the centres is below the squared sum of the radii |
| Geometry.BoxesMeetSymmetric | src/physics_system.cpp:79-95 | the bounding-box test does not depend on the order of the two entities |
| Geometry.OutsideMapSquared | src/physics_system.cpp:97-106 | a circle crosses the map boundary exactly when its centre's squared distance from the origin exceeds (MAP_RADIUS − radius)² |
| Geometry.PointNeverHits | src/physics_system.cpp:111-126 | a segment of zero length never meets a circle |
| Geometry.InsideSegmentMisses | src/physics_system.cpp:111-126 | a segment with both ends strictly inside the circle does not meet its rim |
| Geometry.HitRoot | src/physics_system.cpp:111-126 | when the test reports a hit, there is a parameter strictly between 0 and 1 where the segment's quadratic vanishes |
| Geometry.QuadraticMeaning | src/physics_system.cpp:114-117 | the quadratic built from the segment is the squared distance from the circle centre along the segment minus the squared radius |
| Geometry.HitMeetsCircle | src/physics_system.cpp:111-126 | a reported hit means that a point strictly inside the segment lies exactly on the circle |
| Geometry.OrientSymmetries | src/physics_system.cpp:167-170 | the side-of-line quantity is unchanged when the three points are cycled and changes sign when the first two are swapped |
| Geometry.OrientTranslated | src/physics_system.cpp:167-170 | the side-of-line quantity does not change when every point is moved by the same vector |
| Geometry.SegmentsCrossSymmetric | src/physics_system.cpp:173-175 | the segment-crossing test does not depend on which segment comes first |
| Geometry.SegmentsCrossTranslated | src/physics_system.cpp:173-175 | the segment-crossing test does not change when both segments are moved together |
| Geometry.TrianglesCrossTranslated | src/physics_system.cpp:178-207 | the triangle-edge test does not change when both triangles are moved together |
| Geometry.InteriorEnclosed | src/physics_system.cpp:273-279 | a point strictly inside a non-degenerate triangle is on the same side of all three edges |
| Geometry.CentreInsideHits | src/physics_system.cpp:249-284 | a circle whose centre is strictly inside a non-degenerate mesh triangle collides with it, whatever its radius |
| Geometry.ReflectUnit | src/physics_system.cpp:147-148 | reflecting across a unit normal keeps the speed and reverses the normal component |
| Geometry.RegionStart | src/physics_system.cpp:133-140 | the search takes the first region whose span, recentred to (−π, π], contains the angle; when none does, it takes the last region's start |
| Geometry.KnockbackScan | src/physics_system.cpp:141-161 | the knock-back is zero, or the reflection of a velocity heading into one of the two edges; a non-zero one means that some collision circle touches that edge |
| Geometry.EdgeNormalUnit | src/physics_system.cpp:146 | the region edge's normal has length 1 |
| Geometry.KnockbackIsBounce | src/physics_system.cpp:129-162 | a non-zero knock-back has the speed of the velocity and is its bounce off a unit edge normal that the velocity was heading into |
| Geometry.BounceOff | src/physics_system.cpp:141-161 | either edge's reflection keeps the speed and turns an approaching velocity into a receding one |
| Geometry.RegionKnockback | src/physics_system.cpp:129-162 | the knock-back is zero, or the velocity reflected in the inward normal of the found wedge's lower or upper edge that it was heading against; with no regions both edges are the one at angle 0, where the source's min and max start |
| Collisions.Classify | src/physics_system.cpp:287-326 | each collision type is raised only when its guard's component tests hold, and bullet kinds exactly when the first entity is a bullet; boundary kinds are never raised here |
| Collisions.BulletHits | src/physics_system.cpp:289-302 | a bullet meets a bullet exactly when the other entity is a bullet; the other bullet kinds need their collide-with components |
| Collisions.PlayerHits | src/physics_system.cpp:304-313 | a player meets an enemy exactly when the other is an enemy, and meets nothing when the other is no enemy, cyst, chest or cure |
| Collisions.SwordHits | src/physics_system.cpp:319-325 | a sword hit needs the sword to collide with enemies and the target to collide with players; an enemy target gives SWORD_WITH_ENEMY exactly |
| Collisions.BodyHits | src/physics_system.cpp:303-325 | a non-bullet first entity yields only player, enemy–enemy or sword kinds, under their guards |
| Collisions.ClassifyComplete | src/physics_system.cpp:287-313 | a bullet that collides with players and meets a non-bullet player yields BULLET_WITH_PLAYER; a player meeting a colliding enemy yields PLAYER_WITH_ENEMY |
| Collisions.HelperEvents | src/physics_system.cpp:287-326 | the helper adds at most one event, exactly when the pair classifies, owned by the first entity and naming the second |
| Collisions.BulletsBothNotified | src/physics_system.cpp:289-291 | two colliding bullets each receive a BULLET_WITH_BULLET event naming the other |
| Collisions.PlayerEnemyOneEvent | src/physics_system.cpp:303-306 | a player–enemy contact gives exactly one event, owned by the player |
| Collisions.AsWrittenGateDropsBounce | src/physics_system.cpp:498 | in reals, a bounce straight off a horizontal edge, with an x component of zero, is dropped by the source's gate and kept by the corrected one |
| Collisions.BoundaryCollision | src/physics_system.cpp:486-493 | a bullet at the map boundary gets BULLET_WITH_BOUNDARY, any other entity WITH_BOUNDARY, with no other entity and no knock-back |
| Collisions.OwnEvents | src/physics_system.cpp:485-501 | an entity's own checks give at most two events, both its own and naming no other entity; the boundary event comes exactly when it is not a cyst and crosses the map's edge; a region event comes only to a player in an activated boss fight, carries its knock-back, needs the gate to pass it, and always comes then |
| Collisions.PairEvents | src/physics_system.cpp:512-556 | a pair gives at most two events and none when culled or not touching; each is owned by one of the two, names the other and has the kind the helper classifies in that order; every kind the helper classifies for an unculled touching pair is there |
| Collisions.Scan | src/physics_system.cpp:476-559 | every event of the scan is owned by a moving entity and is one of its own events or an event of a pair whose first entity is on screen; every own event of every moving entity and every such pair event is in it |
| Collisions.CheckOwn | src/physics_system.cpp:485-501 | the per-entity checks emit only the entity's own events, naming no other entity: the boundary event exactly when it is not a cyst and crosses the map's edge, and the region event exactly when a player in an activated boss fight has a knock-back the gate passes |
| Collisions.CheckPair | src/physics_system.cpp:512-556 | the pair test emits nothing unless the second entity is on screen, the boxes meet and neither is attached to the other; every event belongs to one of the two, names the other and has the helper's kind; an unculled touching pair gets the helper's events for both orders |
| Collisions.CheckRow | src/physics_system.cpp:507-557 | the inner loop emits only events of pairs of the entity with a later entity, and every such event |
| Collisions.RowExact | src/physics_system.cpp:507-557 | the events of one row are exactly the events of the pairs with later entities |
| Collisions.RowOrigin | src/physics_system.cpp:507-557 | an event of a row comes from a pair with a later entity |
| Collisions.PairInRow | src/physics_system.cpp:507-557 | every event of a pair with a later entity is in the row |
| Collisions.CheckCollision | src/physics_system.cpp:476-559 | the whole scan, with the gate as written or as intended, emits every own event of every moving entity and every event of a pair whose first entity is on screen, and nothing else |
| Collisions.PairOwner | src/physics_system.cpp:509-557 | a pair event comes from an unculled pair, through the helper in one order or the other, and is owned by one entity of the pair and names the other |
| Collisions.EventOrigin | src/physics_system.cpp:476-559 | every event the outer loop collects is owned by a moving entity and comes from its own checks or from a pair |
| Collisions.OwnInScan | src/physics_system.cpp:485-501 | every own event of a moving entity is collected by the outer loop |
| Collisions.PairInScan | src/physics_system.cpp:502-557 | every event of a pair whose first entity is on screen is collected by the outer loop |
| Collisions.ScanEventsSound | src/physics_system.cpp:476-559 | every pair event in the scan joins two moving entities that are both on screen, whose boxes meet and that are not attached to each other, and its kind is their classification; an event naming no other entity is an own event |
| Collisions.PairSound | src/physics_system.cpp:504-557 | the same soundness for the events of one pair |
| Collisions.BoundaryEventsExact | src/physics_system.cpp:486-493 | an entity's boundary event is in the scan exactly when it is not a cyst and its circles cross the map boundary |
| Collisions.RegionEventsExact | src/physics_system.cpp:496-501 | a region-edge event belongs to a player during an activated boss fight and carries that player's knock-back, which the scan's gate passes |
| Collisions.RegionEventComplete | src/physics_system.cpp:496-501 | with the corrected gate, a player with a non-zero knock-back in an activated boss fight always gets a region-edge event |
| Collisions.AsWrittenScanDropsBounce | src/physics_system.cpp:496-501 | as written, a player whose knock-back is non-zero but has a zero component gets no region-edge event from the scan, while the corrected scan gives it one |
| Resolution.WallBounce | src/world_system.cpp:1163-1172 | a velocity not heading out of the map is kept; one heading out is replaced and blocks acceleration |
| Resolution.WallBounceUnit | src/world_system.cpp:1166-1170 | against a unit normal, the bounce heads back into the map at 0.95 of the speed |
| Resolution.BounceTurnsInward | src/world_system.cpp:1163-1172 | an entity away from the centre that heads outward is turned back inward at 0.95 of its speed |
| Resolution.NormalAtCentre | src/world_system.cpp:1164 | at the exact centre the inward normal is zero, so nothing bounces there |
| Resolution.InwardUnit | src/world_system.cpp:1164 | away from the centre, the inward normal has length 1 |
| Resolution.BounceOffRegionEdge | src/world_system.cpp:1173-1176 | the region-edge bounce takes the knock-back at 0.95 of its speed and blocks acceleration |
| Resolution.ResolveMovement | src/world_system.cpp:1155-1439 | the two bounce kinds bounce; a vulnerable player is knocked away from an enemy it collides with at the enemy's top speed plus 1000, or from a cyst at 150; a bullet reaching a vulnerable player that collides with enemies only clears the flag; every other kind changes neither the owner's velocity nor the flag, and a changed velocity always clears it |
| Resolution.KnockAwayMeets | src/world_system.cpp:1189-1191 | away from the other entity's centre the knock-back has exactly the given speed and points away from that entity |
| Resolution.PlayerKnockedAway | src/world_system.cpp:1409-1416 | a vulnerable player touching a cyst, or an enemy while colliding with enemies, ends the frame moving straight away from it at the cyst speed or the enemy's top speed plus 1000, with acceleration off |
| Motions.Rewrap | src/physics_system.cpp:334-337 | a remaining angle within π is kept; a larger one is taken the other way round, and for a remainder within 3π the result lies within π |
| Motions.TurnSpeed | src/physics_system.cpp:338-340 | the turn speed is the cap, or exactly what finishes the turn within the frame, and never overshoots |
| Motions.TurnRate | src/physics_system.cpp:329-341 | below the angle precision the entity stops turning; otherwise it turns towards the target, at most at its turn limit and never past the target |
| Motions.StepBodyFrame | src/physics_system.cpp:354-377 | one step changes only velocity, turn rate, position and angle; without force the motion is unchanged; the position moves by velocity × seconds |
| Motions.StepBodySpeed | src/physics_system.cpp:359-369 | a pushed entity that is not dashing ends the step no faster than its speed limit |
| Motions.PushedVelocity | src/physics_system.cpp:359-369 | the new velocity of a pushed entity is the old one plus force × ms × acceleration, clamped to the speed limit |
| Motions.StepBodyAngle | src/physics_system.cpp:374-375 | after the step the angle lies strictly within (−2π, 2π) |
| Motions.StepBodyTurn | src/physics_system.cpp:359-370 | a pushed entity never turns faster than its turn limit |
| Motions.StepMovement | src/physics_system.cpp:344-377 | every moving entity is stepped; every other entity is left alone |
| Motions.StepMovementSpeed | src/physics_system.cpp:344-377 | after the movement step a pushed, unattached, non-dashing entity respects its speed limit |
| Articulation.ForcelessSwing | src/physics_system.cpp:413-416 | with no force, the swing advances by angular velocity × seconds |
| Articulation.SwingForcePriority | src/physics_system.cpp:409-412 | when a force is applied, the stored angular velocity is ignored |
| Articulation.SwingBounded | src/physics_system.cpp:409-412 | a force-driven swing moves at most the turn limit × seconds, and at most the remaining angle |
| Articulation.TurnStep | src/physics_system.cpp:329-341 | one frame's turn is within both the turn limit and the remaining angle |
| Articulation.Clamped | src/physics_system.cpp:417-423 | near the offset the angle snaps to the offset; otherwise it keeps its sign and is the swing itself or the freedom bound, never beyond the freedom |
| Articulation.NoFreedomStaysStraight | src/physics_system.cpp:417-423 | an attachment with no freedom and no offset never swings |
| Articulation.PlacementDet | src/physics_system.cpp:400-428 | the placement's determinant is the product of the two relative transforms' determinants, since the rotations keep orientation |
| Articulation.PlacementFollowsParent | src/physics_system.cpp:400-428 | moving the parent moves the attachment's placement by the same vector |
| Articulation.Decompose | src/physics_system.cpp:430-453 | the decomposed transform sits at the matrix origin, with the column lengths as scales, the x scale negated when the matrix mirrors, and a dash trail facing along its parent's velocity |
| Articulation.DecomposeFlip | src/physics_system.cpp:430-443 | the decomposed x scale is negative exactly when the matrix mirrors, and the y scale is never negative |
| Articulation.UpdateAttachment | src/physics_system.cpp:392-455 | updating one attachment changes only that attachment's angle and transform; its angle is the clamped swing within its freedom, and it sits where its parent's placement puts it |
| Articulation.SweepTo | src/physics_system.cpp:457-464 | updating attachments in turn keeps every listed attachment hanging from a parent |
| Articulation.SweepLeaves | src/physics_system.cpp:457-464 | an entity the sweep has not reached keeps its transform and attachment |
| Articulation.SweepBounds | src/physics_system.cpp:457-464 | every attachment already swept lies within its freedom |
| Articulation.StepAttachmentMovement | src/physics_system.cpp:457-464 | the attachment step updates every attachment in container order |
| Articulation.SweepWithinFreedom | src/physics_system.cpp:457-464 | after the attachment step every movable attachment lies within its freedom |
| Controls.AxisVelocity | src/world_system.cpp:1795-1832 | with an effective key or stick input the axis accelerates by input × ms × acceleration; when coasting it decays by deceleration^ms |
| Controls.BothKeysCancel | src/world_system.cpp:1795-1832 | holding both opposite keys acts like holding neither |
| Controls.AxisMirror | src/world_system.cpp:1795-1832 | swapping the two keys and negating the stick and velocity negates the result |
| Controls.CoastingSlows | src/world_system.cpp:1795-1832 | when coasting the axis never speeds up and never reverses |
| Controls.ControlMovement | src/world_system.cpp:1795-1832 | only the velocity changes; both axes update, and the result is clamped to the speed limit unless a dash is active |
| Controls.ControlSpeedBound | src/world_system.cpp:1795-1832 | without an active dash the controlled velocity respects the speed limit |
| Controls.IdlePlayerSlows | src/world_system.cpp:1795-1832 | with no input, neither velocity component grows |
| Timers.Countdown | src/world_system.cpp:561 | a countdown never goes below zero, reaches zero exactly when the elapsed time covers it, and never grows |
| Timers.CountdownAdds | src/world_system.cpp:561 | counting down by a and then by b is counting down by a + b |
| Timers.StepAttack | src/world_system.cpp:559-586 | the gun timer counts down; the sword's timers count down only while running; when the swing animation ends the sword stops and returns to its offset; otherwise the sword is untouched |
| Timers.StepAttackSettles | src/world_system.cpp:559-586 | attack timers stay non-negative and never grow |
| Timers.StepDash | src/world_system.cpp:588-600 | both dash timers count down, and the trail is shown exactly while the dash is active |
| Timers.StepDashAdds | src/world_system.cpp:588-600 | two dash steps equal one step of the combined time, and the trail shows exactly while time remains on the active timer |
| Timers.Fired | src/world_system.cpp:699-712 | no more callbacks fire than there are timed events |
| Timers.Due | src/world_system.cpp:699-712 | the garbage list holds exactly the entities whose timers expire |
| Timers.Survivors | src/world_system.cpp:699-712 | every surviving timed event has time left |
| Timers.FiredOrSurvives | src/world_system.cpp:699-712 | the fired callbacks and the surviving events together account for every timed event, with one collected entity per fired callback |
| Timers.ScanTimedEvents | src/world_system.cpp:701-708 | the scan fires exactly the expired callbacks, keeps the others and collects the expired entities |
| Timers.RemoveEach | src/world_system.cpp:709-711 | removing the garbage one entity at a time is removing the set of garbage entities |
| Timers.StepTimedEvents | src/world_system.cpp:699-712 | the timer step fires the expired callbacks, keeps the other events and strips every component from the expired entities |
| Timers.SurvivorsAligned | src/world_system.cpp:699-712 | the surviving events are exactly the timed-event container with the collected entities removed |
| Registry.PositionOfListAt | src/tiny_ecs_registry.hpp:56-93 | the container list and container positions are inverse for all 35 registered containers |
| Registry.ListAtPosition | src/tiny_ecs_registry.hpp:56-93 | every registered container sits at its position in the list |
| Registry.Unlisted | src/tiny_ecs_registry.hpp:14-93 | exactly the health bars, triple bullets and lots-of-bullets containers are left out of the list |
| Registry.Without | src/tiny_ecs_registry.hpp:114-117 | removal keeps exactly the entities not removed, in order |
| Registry.WithoutDistinct | src/tiny_ecs_registry.hpp:114-117 | removal keeps a container free of duplicates |
| Registry.WithoutTwice | src/tiny_ecs_registry.hpp:114-117 | removing two sets in turn is removing their union |
| Registry.RemoveSet | src/tiny_ecs_registry.hpp:114-117 | removal strips the removed entities from every registered container and from the attachments, and leaves all else |
| Registry.RemoveSetValid | src/tiny_ecs_registry.hpp:114-117 | removal keeps the registry well-formed |
| Registry.RemoveSetTwice | src/tiny_ecs_registry.hpp:114-117 | two removals combine into one |
| Registry.RemoveAllComponentsOf | src/tiny_ecs_registry.hpp:114-117 | after the loop the entity is in no registered container; unregistered containers and other entities are untouched |
| Registry.ClearAll | src/tiny_ecs_registry.hpp:95-98 | clearing empties every registered container and the attachments, and leaves the unregistered ones |
| Registry.ClearAllAbsorbs | src/tiny_ecs_registry.hpp:95-98 | removing anything from a cleared registry changes nothing |
| Registry.ListAll | src/tiny_ecs_registry.hpp:100-105 | the listing has one line per non-empty registered container, with its size, and no others |
| Registry.ListOf | src/tiny_ecs_registry.hpp:107-112 | the listing for an entity names exactly the registered containers that hold it |
| Forest.BelowTrans | src/world_system.cpp:334-346 | hanging below is transitive along attachment chains |
| Forest.SubtreeClosed | src/world_system.cpp:334-346 | an attachment whose parent is in an entity's subtree is in the subtree too |
| Forest.RemovedAll | src/world_system.cpp:334-346 | once no attachment hangs directly from the entity, everything below it has been removed |
| Forest.SubtreeDone | src/world_system.cpp:334-346 | when the backward scan ends, the removed set plus the entity is the entity's whole subtree |
| Forest.RemoveChild | src/world_system.cpp:341-343 | removing one child's subtree keeps the registry well-formed and ranked and extends the removed part |
| Forest.RemoveEntity | src/world_system.cpp:334-346 | removing an entity removes exactly its subtree of attachments and itself, and no other entity's components |
| Forest.GetAttachment | src/world_system.cpp:2178-2186 | the lookup finds nothing exactly when no attachment of that kind hangs from the character, else the last one in container order |
| WorldInit.Ensure | src/world_init.cpp:51-53 | after ensuring, the entity has the component, and attachments are untouched |
| WorldInit.HangValid | src/world_init.cpp:54-57 | hanging a fresh attachment keeps the registry well-formed |
| WorldInit.HangRanked | src/world_init.cpp:54-57 | hanging a fresh attachment below its parent keeps the ranking and puts it in the parent's subtree |
| WorldInit.ComposeDet | src/world_init.cpp:91-93 | the determinant of a composed relative transform is the product of its scale steps' areas |
| WorldInit.HolderGun | src/world_init.cpp:80-85 | the holder's gun is ready, fires every 300 ms, deals 10 damage at bullet speed 1400 and is angled like the sprite |
| WorldInit.GunAttachment | src/world_init.cpp:87-93 | the gun hangs from its holder with no freedom and no offset |
| WorldInit.SwordAttachment | src/world_init.cpp:120-128 | the sword hangs from its holder with freedom π/2 and no offset |
| WorldInit.DashingAttachment | src/world_init.cpp:55-58 | the dash trail hangs from the dasher with no freedom and only a scaling |
| WorldInit.SwordMotion | src/world_init.cpp:131-132 | the sword starts still, with turn limit 5π |
| WorldInit.DashingAnimation | src/world_init.cpp:60-62 | the dash trail animates 8 frames at 50 ms each, from the first frame |
| WorldInit.CreateGun | src/world_init.cpp:79-108 | creating a gun gives the holder a gun and adds one fixed gun attachment hanging from it |
| WorldInit.CreateSword | src/world_init.cpp:110-147 | creating a sword gives the holder a melee, and adds one enemy-hitting sword attachment with freedom π/2 |
| WorldInit.CreateDashing | src/world_init.cpp:50-76 | creating a dash gives the dasher a dash and adds one animated trail attachment |
| WorldInit.SingleLevelAttachmentsHang | src/world_init.cpp:50-147 | each single-level attachment keeps the registry well-formed and ranked and hangs in the holder's subtree |
| WorldInit.FixedAttachmentsStayStraight | src/world_init.cpp:50-147 | the gun and dash trail never swing; the sword swings at most π/2 |
| WorldInit.SingleLevelNotFlipped | src/world_init.cpp:50-147 | none of the single-level attachments' relative transforms mirrors |
| WorldInit.ChainPart | src/world_init.cpp:213-257 | an arm part hangs from its parent with freedom π/12 × (part + 2) and its joint angle as offset |
| WorldInit.NthPart | src/world_init.cpp:208-273 | the n-th part created hangs from the boss or from the part before it, with its part's freedom |
| WorldInit.ArmPlan | src/world_init.cpp:208-276 | the plan has eighteen parts, in creation order |
| WorldInit.PlanChained | src/world_init.cpp:208-276 | each arm's first part hangs from the boss and each later part from the one before it |
| WorldInit.CreateBossArms | src/world_init.cpp:201-279 | eighteen new arm attachments hang in chains from the boss; every other attachment is unchanged |
| WorldInit.HangAllAttached | src/world_init.cpp:208-276 | hanging the plan attaches each new part as planned and changes no other attachment |
| WorldInit.HangAllValid | src/world_init.cpp:208-276 | hanging the plan keeps the registry well-formed |
| WorldInit.HangAllRanked | src/world_init.cpp:208-276 | hanging the chained plan keeps a ranking in which every part ranks below its parent |
| WorldInit.ArmsHangFromBoss | src/world_init.cpp:201-279 | after creation the registry is well-formed and ranked, and every arm part is in the boss's subtree, so removing the boss removes its arms |
| WorldInit.ChainsHang | src/world_init.cpp:208-276 | every part of a chained plan ends up in the boss's subtree |
| WorldInit.ChainBelow | src/world_init.cpp:208-276 | every arm part hangs, through its chain, below the boss |
| WorldInit.FreedomIncreases | src/world_init.cpp:222 | freedom grows along each arm, starting at π/6 |
| WorldInit.FirstJointsFan | src/world_init.cpp:231-237 | the first joints fan out from π/6 downwards in steps of π/9 |
| WorldInit.OnlyOddArmsFlip | src/world_init.cpp:225-229 | exactly the odd arms are mirrored, and no arm sprite mirrors |
| WorldInit.PartSizeArea | src/world_init.cpp:245-250 | every arm part's size has a non-negative area |
| Regions.BossFor | src/world_init.cpp:565-571 | the cure region has the bacteriophage boss and the cancer-cell region the friend boss, and only those |
| Regions.BossForInjective | src/world_init.cpp:565-571 | two regions with the same real boss have the same goal |
| Regions.Round | src/world_init.cpp:579 | rounding moves a number by at most one half and keeps its sign |
| Regions.SectorsTile | src/world_init.cpp:573-603 | the n sectors start in [0, 2π), stay within 2π, and the last ends exactly at 2π |
| Regions.InterestPointInside | src/world_init.cpp:574-579 | every interest point lies within 6000 of the centre on each axis |
| Regions.NthRegion | src/world_init.cpp:553-603 | the k-th region has the given theme and goal, the boss that goes with the goal, starts uncleared at angle k × 2π/n, and has its interest point at the sector's centre angle |
| Regions.NthRegionAt | src/world_init.cpp:553-603 | the k-th region is completely determined by its theme, goal and start angle |
| Regions.CreateRandomRegions | src/world_init.cpp:531-605 | n regions are created from the back of the shuffled themes and goals; no two share a theme, a goal or a real boss |
| Regions.RegionsDistinct | src/world_init.cpp:556-571 | regions taken from distinct shuffles never share a theme, a goal or a real boss |
| Regions.PerRegion | src/world_init.cpp:622 | each region gets 132 ÷ regions cysts, the integer quotient |
| Regions.TooClose | src/world_init.cpp:634-640 | a candidate is rejected exactly when some earlier cyst is closer than half the screen radius |
| Regions.DrawRadius | src/world_init.cpp:624-627 | radii out of the band are redrawn; a found radius is MAP_RADIUS minus its draw and lies in the band |
| Regions.SpreadAppend | src/world_init.cpp:634-648 | accepting a candidate that is not too close keeps all cysts at least half the screen radius apart |
| Regions.SitedAppend | src/world_init.cpp:634-648 | accepting a well-placed candidate keeps every cyst in its own region's sector and band, in region order |
| Regions.CreateRandomCysts | src/world_init.cpp:607-651 | all cysts are spread apart and sited in their regions' sectors; on completion each region has exactly its share, and no cysts lie beyond the last region |
| Regions.SpreadSquared | src/world_init.cpp:634-644 | any two cysts are at least half the screen radius apart |
| Regions.CystsInsideMap | src/world_init.cpp:625-633 | every cyst lies between the lower and upper radius, inside the map |
| Regions.NewCyst | src/world_init.cpp:653-682 | a new cyst has the given health and position, cannot move, is four times the texture size, and shines 4 frames at 80 ms every 1500 ms |
| Regions.CystAnimationWellFormed | src/world_init.cpp:675-677 | a new cyst's animation is well-formed |
| Regions.CystStaysPut | src/world_init.cpp:659-664 | whatever force is applied, a cyst does not move |
| Bullets.Fan | src/world_init.cpp:796-817 | lots-of-bullets fires 10 shots, triple fires 3, otherwise 1, all at offsets within [−π, π] |
| Bullets.FanSpread | src/world_init.cpp:796-817 | no two shots of a fan share an offset |
| Bullets.FanSymmetric | src/world_init.cpp:796-817 | every shot except the one at π has a mirror shot of the same size at the opposite offset |
| Bullets.MuzzleTurnsOffset | src/world_init.cpp:832-838 | the bullet starts at the gun offset turned by the shooter's angle and moved to the shooter |
| Bullets.RotatedNorm | src/world_init.cpp:834 | turning keeps length |
| Bullets.MuzzleDistance | src/world_init.cpp:832-838 | the bullet starts at the gun offset's distance from the shooter |
| Bullets.NewBullet | src/world_init.cpp:820-885 | a bullet starts at the muzzle, at the shot's size, unrotated, with the gun's damage and the colour; enemy and player bullets get their own velocities |
| Bullets.EnemyBulletSpeed | src/world_init.cpp:844-846 | an enemy bullet flies at exactly the gun's bullet speed |
| Bullets.EnemyFanParallel | src/world_init.cpp:844-846 | an enemy's bullets ignore the shot offset, so a fan of them flies parallel |
| Bullets.AimIsUnit | src/world_init.cpp:850 | the aim direction has length 1 |
| Bullets.DriftAcross | src/world_init.cpp:852-863 | the inherited drift is perpendicular to the aim and within the shooter's speed limit |
| Bullets.ShooterBulletSpeed | src/world_init.cpp:848-866 | a player bullet moves at exactly the bullet speed along the aim, plus a sideways drift within the shooter's speed limit |
| Bullets.StillShooterNoDrift | src/world_init.cpp:848-866 | a shooter at rest fires at exactly bullet speed along the aim |
| Bullets.BulletContainers | src/world_init.cpp:825-875 | a bullet joins the bullet containers, and the collide-with containers exactly when the shooter is in them |
| Bullets.EnrolHas | src/world_init.cpp:825-875 | enrolling an entity adds it to exactly the chosen containers and changes nothing else |
| Bullets.EnrolValid | src/world_init.cpp:825-875 | enrolling a fresh entity keeps the registry well-formed |
| Bullets.EnrolRangeStep | src/world_init.cpp:796-817 | enrolling n + 1 bullets is enrolling n and then one more |
| Bullets.EnrolRangeHas | src/world_init.cpp:796-817 | after enrolling a run of bullets, exactly those new ids are added to the chosen containers |
| Bullets.EnrolRangeValid | src/world_init.cpp:796-817 | enrolling a run of fresh bullets keeps the registry well-formed |
| Bullets.FireShots | src/world_init.cpp:796-817 | one bullet per shot, in order, each made by the helper, and all enrolled |
| Bullets.CreateBullet | src/world_init.cpp:796-885 | the shooter fires its fan of 10, 3 or 1 bullets, each with the gun's damage, all enrolled |
| Bullets.BulletsInherit | src/world_init.cpp:867-875 | new bullets are projectiles that collide with what their shooter collides with, and no older entity changes |
| EnemyAi.ChaseMotion | src/ai_system.cpp:20-70 | a bounced enemy only regains acceleration; otherwise an inactive boss is frozen and the force grows by the unit direction to the target, or to itself for a dashing friend boss |
| EnemyAi.ChaseTowardsPlayer | src/ai_system.cpp:62-67 | the added force is a unit vector towards the player, or nothing for a dashing friend boss |
| EnemyAi.ChaseAdds | src/ai_system.cpp:67 | the chase adds the normalized direction to the target |
| EnemyAi.MoveArticulatedPart | src/ai_system.cpp:72-93 | a part near the player reaches towards it; a far part turns back towards straight, never faster than its turn limit or past straight; a part already straight is reset to zero |
| EnemyAi.RetractionNeverOvershoots | src/ai_system.cpp:79-87 | a retracting part keeps its force and moves towards straight without crossing it |
| EnemyAi.MoveEnemies | src/ai_system.cpp:20-70 | every enemy's motion and attachment become its chased ones; other entities are untouched |
| EnemyAi.ChaseMotions | src/ai_system.cpp:20-70 | the motion pass updates exactly the enemies' motions |
| EnemyAi.ChaseAttachments | src/ai_system.cpp:27-30 | the attachment pass updates exactly the articulated enemies' attachments |
| EnemyAi.BouncedEnemyRests | src/ai_system.cpp:32-42 | a bounced enemy only regains acceleration this frame; an inactive boss is frozen |
| EnemyAttacks.Volley | src/ai_system.cpp:171-190 | ordinary enemies fire one standard bullet; inactive bosses fire nothing; the friend boss's special attack fires exactly when the draw exceeds 0.7 |
| EnemyAttacks.GunStep | src/ai_system.cpp:164-196 | an enemy fires at most one volley, and only when ready and in sight |
| EnemyAttacks.GunDiscipline | src/ai_system.cpp:171-193 | only the timer changes; a ready gun reloads to its delay minus the frame, any other counts down, and neither goes below zero |
| EnemyAttacks.CooldownHolds | src/ai_system.cpp:190-193 | a gun that has just fired with a delay longer than the frame cannot fire on the next frame |
| EnemyAttacks.RearmedTurned | src/ai_system.cpp:165-195 | each gun already visited has its stepped state |
| EnemyAttacks.RearmedUntouched | src/ai_system.cpp:165-195 | a gun not yet visited is unchanged |
| EnemyAttacks.VolleysFromReadyGuns | src/ai_system.cpp:165-195 | every shot comes from a visited gun that was ready, and there are no more shots than guns visited |
| EnemyAttacks.EnemyShoot | src/ai_system.cpp:164-196 | the pass steps every gun and collects every volley, in order |
| EnemyAttacks.DashStopsAtPlayer | src/ai_system.cpp:222-232 | a dash towards the player never carries the boss past the player, and uses full speed only when that falls short |
| EnemyAttacks.DashTimers | src/ai_system.cpp:200-243 | a ready boss launches and restarts both timers; a waiting one counts them down; a non-hunting entity is idle; an abandoning one was ready |
| EnemyAttacks.Apply | src/ai_system.cpp:236-243 | applying one boss's turn changes only that boss's dash and motion |
| EnemyAttacks.AppliedStays | src/ai_system.cpp:236-243 | a later turn that keeps a boss's state keeps its applied turn |
| EnemyAttacks.EnemyDash | src/ai_system.cpp:198-247 | every boss before a refusal takes its turn; the refusal ends the whole pass, leaving later bosses untouched |
| Swarming.NearestIsFirstNearest | src/ai_system.cpp:108-120 | the nearest-enemy search finds nothing exactly when there is no neighbouring enemy, and otherwise the first of the nearest |
| Swarming.RepulsionFrame | src/ai_system.cpp:121-125 | keeping apart changes only the force, and not at all when no other enemy exists |
| Swarming.RepulsionPointsAway | src/ai_system.cpp:124 | the added force has length one half and points away from the nearest enemy |
| Swarming.FindNearest | src/ai_system.cpp:108-120 | the loop finds the defined nearest enemy |
| Swarming.SwarmKeepDistance | src/ai_system.cpp:96-128 | every movable, non-boss, unattached enemy is pushed away from its nearest neighbour; others are untouched |
| Swarming.NearestWaypointIsLastNearest | src/ai_system.cpp:136-142 | with waypoints present the search finds the last of the nearest, because ties replace the earlier choice |
| Swarming.FindNearestWaypoint | src/ai_system.cpp:136-142 | the loop finds the defined nearest waypoint |
| Swarming.PullBounded | src/ai_system.cpp:156-159 | within range the pull is the offset divided by the screen radius, has length at most 1.5, and points to the waypoint |
| Swarming.Target | src/ai_system.cpp:132-140 | the point pulled towards is a waypoint at least as near the player as every other, or, with no waypoint, the never-assigned initial value of the local |
| Swarming.SwarmBlockInterestPoint | src/ai_system.cpp:131-161 | every eligible enemy, and only those, is pulled towards the target point when in range, even when there is no waypoint; nothing but forces changes |
| Swarming.NoWaypointStillPulls | src/ai_system.cpp:132-160 | with no waypoint, an eligible enemy in range of the never-assigned point still has its force changed |
| Swarming.SwarmBlockInterestPointIntended | src/ai_system.cpp:131-161 | with the missing early return added, no waypoint means nothing changes; otherwise every eligible enemy is pulled towards the nearest waypoint, and only those |
| Effects.CountsSplit | src/sub_systems/effects_system.cpp:254-271 | positive and negative active counts add up to the total and never exceed the number of effects of their kind |
| Effects.InactiveExists | src/sub_systems/effects_system.cpp:29-38 | when fewer effects of a kind are active than exist, one of them is inactive |
| Effects.ShapedCounts | src/sub_systems/effects_system.hpp:74-82 | the effect table has five positive and four negative effects |
| Effects.GetEffect | src/sub_systems/effects_system.cpp:273-281 | the lookup finds the first effect with the id, or reports none |
| Effects.ShapedLookup | src/sub_systems/effects_system.cpp:273-281 | in the effect table every effect sits at its own code |
| Effects.InitialShaped | src/sub_systems/effects_system.hpp:74-82 | the initial table lists every effect, in code order, with its kind |
| Effects.InitialActive | src/sub_systems/effects_system.hpp:76-81 | the table starts with exactly one active positive effect and one active negative effect, two in all |
| Effects.SetActive | src/sub_systems/effects_system.cpp:315-325 | activating sets exactly that effect's flag and keeps the table's shape |
| Effects.SetActiveTimer | src/sub_systems/effects_system.cpp:315-325 | activating an effect sets its flag, leaves every other effect, the player, the icons and the flags alone, and appends one timed event, keeping the earlier ones, that clears the flag after the given time when it is non-negative and after a non-negative default otherwise |
| Effects.Scheduled | src/sub_systems/effects_system.cpp:297-312 | scheduling a timed effect appends one timed event with its time and undo, and one icon of the effect's texture on the icon row, keeping everything already there and changing nothing else |
| Effects.IconsApart | src/sub_systems/effects_system.hpp:40-47 | the six icons have distinct slots on one row, at least an icon width plus padding apart |
| Effects.ClearedEnemies | src/sub_systems/effects_system.cpp:131-147 | clear screen removes only enemies that qualify |
| Effects.Handle | src/sub_systems/effects_system.cpp:56-87 | dispatching an effect keeps the table's shape |
| Effects.RunCallback | src/sub_systems/effects_system.cpp:94-250 | running an undo callback keeps the table's shape |
| Effects.DamageRoundTrip | src/sub_systems/effects_system.cpp:94-123 | the damage buff schedules its undo 5.5 s later, and the undo restores the player as it was and clears the flag |
| Effects.SlowRoundTrip | src/sub_systems/effects_system.cpp:181-200 | the slow effect schedules its undo 4 s later, and the undo restores the player as it was and clears the flag |
| Effects.NoAttackRestores | src/sub_systems/effects_system.cpp:229-250 | the no-attack effect schedules its undo 3.5 s later, and the undo restores the player with the gun ready to fire |
| Effects.SelectFrom | src/sub_systems/effects_system.cpp:41-50 | the draw loop picks an inactive effect of the chosen kind from the draws, or none when every drawn effect is active |
| Effects.ApplyChoosesInactive | src/sub_systems/effects_system.cpp:18-90 | a newly applied effect has the drawn polarity, was inactive and becomes active; nothing is applied only when every effect of that kind is active |
| Effects.ApplyRandomEffect | src/sub_systems/effects_system.cpp:18-90 | when nothing is applied the world is as the heal lock-out leaves it for a positive draw, and untouched for a negative one; a negative draw changes the field-of-view flag only by applying the field-of-view effect |
| Effects.AllActive | src/sub_systems/effects_system.cpp:29-33 | when the active count reaches the kind's size, every effect of that kind is active |
| Effects.InactiveBelow | src/sub_systems/effects_system.cpp:29-33 | one inactive effect makes the active count smaller than the kind's size |
| Effects.HandleKeepsFlag | src/sub_systems/effects_system.cpp:53-87 | handling an effect never clears its own active flag |
| Effects.FullHealthSkipsHeal | src/sub_systems/effects_system.cpp:25-28 | a player at full health never receives the heal effect |
| Animations.Trunc | src/animation_system.cpp:64 | the cast to int truncates towards zero |
| Animations.CRem | src/animation_system.cpp:71 | C's remainder takes the dividend's sign and is smaller than the divisor |
| Animations.StepKeepsWellFormed | src/animation_system.cpp:56-81 | a step keeps the animation well-formed, changes only the timer and frame, and a paused animation rests at frame 0 with timer 0 |
| Animations.Step | src/animation_system.cpp:56-81 | a step changes only the timer and the frame; a paused animation rests at frame 0 with timer 0; a running one's timer stays between 0 and the old timer plus the elapsed time |
| Animations.FrameIsPeriodsModFrames | src/animation_system.cpp:62-71 | a running animation shows the number of elapsed periods modulo the frame count |
| Animations.RestingHoldsFirstFrame | src/animation_system.cpp:64-69 | between loops the first frame is shown and the timer restarts once the loop interval has passed |
| Animations.FramesRepeat | src/animation_system.cpp:62-71 | without a loop interval the frames repeat every full cycle |
| Animations.FrameOfPeriods | src/animation_system.cpp:71 | the frame is the non-negative period count modulo the frame count |
| Animations.StepAll | src/animation_system.cpp:56-81 | every animation is stepped in place, and well-formedness is kept |
| Animations.Frames | src/components.hpp:274-282 | every animation has a positive frame count |
| Animations.SheetsDistinct | src/components.hpp:323-341 | each animation has its own sprite sheet |
| Animations.FirstWithCount | src/components.hpp:323-341 | a lookup keyed by frame count finds the first table entry with that count, or nothing |
| Animations.TableAsWritten | src/components.hpp:323-341 | as written, the maps give every animation its own sheet except the cyst shine, which gets the green enemy's |
| Animations.SwitchAnimation | src/animation_system.cpp:83-100 | switching shows the animation's own sheet, restarts at frame 0 unpaused with its frame count and period, and keeps the loop interval |
| Animations.Switch | src/animation_system.cpp:83-100 | the switch shows the given sheet's geometry and texture and restarts the animation unpaused at frame 0 with the kind's frame count and the given period, keeping its other fields |
| Animations.SwitchAnimationAsWritten | src/animation_system.cpp:83-100 | as written, the switch leaves the animation as the corrected one does and shows the sheet of some animation with the same frame count |
| Animations.SwitchShowsOwnSheet | src/animation_system.cpp:83-100 | switching to two animations shows the same sheet exactly when they are the same animation |
| Animations.AsWrittenAgreesElsewhere | src/animation_system.cpp:87-88 | the source's switch agrees with the corrected one for every animation but the cyst shine |
| Animations.CystShineShowsGreenEnemy | src/animation_system.cpp:87-88 | as written, switching to the cyst shine shows the green enemy's sheet |
| Meshes.ObjIndex | src/components.cpp:88-90 | a one-based OBJ index becomes zero-based, wrapping through 16 bits |
| Meshes.IndicesShape | src/components.cpp:88-90 | each face contributes its three converted indices, in order |
| Meshes.IndicesInRange | src/components.cpp:88-90 | faces that name existing vertices give indices below the vertex count |
| Meshes.ReadObj | src/components.cpp:35-107 | reading succeeds exactly when no face line is unreadable, and then yields the vertices and the converted indices, three per face |
| Meshes.FacesPrefix | src/components.cpp:35-107 | every face of a prefix of the file is a face of the file |
| Meshes.Hi | src/components.cpp:111-118 | the upper bound is at least every vertex on every axis, and is a vertex coordinate or the −99999 start |
| Meshes.Lo | src/components.cpp:111-118 | the lower bound is at most every vertex on every axis, and is a vertex coordinate or the 99999 start |
| Meshes.Top | src/components.cpp:120-121 | the top corner takes the upper x and y bounds; a flat mesh's top z is one above its lower z |
| Meshes.Extent | src/components.cpp:120-124 | the size spans the bounds, and a flat mesh gets depth 1, so it is never zero |
| Meshes.RescaleAll | src/components.cpp:126-133 | every vertex is rescaled in place |
| Meshes.LoadMesh | src/components.cpp:16-136 | loading fails exactly on an unreadable face; otherwise indices are converted, the 2D size is recorded, every vertex is rescaled by the bounds, and the coloured copy exists exactly when colours are asked for |
| Meshes.RescaleInBox | src/components.cpp:126-128 | a vertex within the bounds lands within [−0.5, 0.5] on every axis |
| Meshes.RescaledInUnitBox | src/components.cpp:110-128 | every loaded vertex lies in the unit box centred on the origin |
| Meshes.RescaleEnds | src/components.cpp:126-128 | a coordinate lands on −0.5 exactly at the lower bound and on 0.5 exactly at the upper bound |
| Meshes.RescaledCorners | src/components.cpp:110-128 | a loaded vertex touches a side of the unit box exactly when it was extreme on that axis |
| Waypoints.RowCross | src/world_system.cpp:725-736 | a row crossing lies on the ray strictly before the interest point, on that row, strictly between the side edges |
| Waypoints.ColumnCross | src/world_system.cpp:737-748 | a column crossing lies on the ray strictly before the interest point, on that column, strictly between the top and bottom edges |
| Waypoints.IntersectionOnEdge | src/world_system.cpp:722-750 | the icon is at the interest point, or on an edge of the padded screen where the ray to the interest point crosses it first |
| Waypoints.IntersectionPoint | src/world_system.cpp:722-750 | the corrected placement leaves the icon at the interest point or puts it on an edge of the padded screen |
| Waypoints.IntersectionPointAsWritten | src/world_system.cpp:722-750 | the source's placement also leaves the icon at the interest point or puts it on an edge of the padded screen |
| Waypoints.OnScreenStays | src/world_system.cpp:722-750 | an interest point on the screen keeps its icon where it is |
| Waypoints.MovedIconsOnScreen | src/world_system.cpp:722-750 | an icon placed away from its interest point is on the screen, and the interest point is not |
| Waypoints.AsWrittenAgreesOffAxes | src/world_system.cpp:722-750 | off the axes, the source's placement is the corrected one |
| Waypoints.StraightUpOrDown | src/world_system.cpp:715-750 | an interest point straight above or below, beyond the padded screen, gets its icon on the top or bottom edge |
| Waypoints.StraightUpOrDownAsWritten | src/world_system.cpp:727-745 | as written, such an interest point keeps its icon off the screen |

## Left out

- Rendering, OpenGL, shaders, audio, menus, dialogs, fonts and input devices. They have no bearing on the simulation state.
- Saving and loading games as JSON. It is file I/O.
- Floating-point rounding, NaN and infinities. Reals stand in for floats. `normalize` of the zero vector, which is NaN in glm, is modelled as the zero vector.
- The bodies of `Transformation::scale`, `rotate` and `translate`: `src/common.cpp` is not part of this model. They are modelled as multiplication on the right, the usual convention for this matrix class.
- `ComponentContainer`'s hashing: `src/tiny_ecs.hpp` is not part of this model. Containers are insertion-ordered sequences, and removal is an order-preserving filter.
- The random distributions themselves (shuffles, exponential and uniform draws, `rand()`). Their outcomes are parameters.
- The animation switch inside `step_movement` (`src/physics_system.cpp:379-388`). It only picks a sprite sheet.
- The uv and colour-vertex parsing of the OBJ reader, and the file reading itself. Lines arrive already parsed. Which face lines the reader rejects is not modelled: only a first scan matching exactly one integer leads to the other formats and the failure (`src/components.cpp:69-83`), and a line matching no or two integers is accepted with unset indices.
- `createBoss`, `createSecondBoss`, `createBossClone`, the enemy, chest and cure constructors, and the UI entity constructors. They are fixed component data and are not named in the core.
- `enemy_special_attack`. It appears only as a `SpecialAttack` shot.
- The rest of `step_waypoints`: hiding icons when a boss is on screen, updating the icon entities, and removing waypoints whose target is gone. These are rendering bookkeeping.
- The other effects of `resolve_collisions` (damage, pick-ups, invincibility, health, sounds). They are game rules outside this core.
- Resolution.ResolveMovement: covers only the velocity of the record's owner and the acceleration flag. The knock-backs a collision gives the OTHER entity are not modelled: the enemy pushed by a bullet (`src/world_system.cpp:1310-1320`) or by the sword (`src/world_system.cpp:1344-1365`), and the player pushed by an enemy bullet (`src/world_system.cpp:1428-1429`). They act on a second entity's motion and would need the whole registry.
- Timed events created while the timers are scanned. A callback is data applied after the scan (`Timers.StepTimedEvents`), so a timed event that a callback emplaces during the scan (`src/world_system.cpp:2530`) is not seen by that scan in the model.
- Effects.Scheduled: the effect icon is appended to an icon list that only grows. In the source the icon's transform and render request sit on the timed event's own entity (`src/sub_systems/effects_system.cpp:297-312`) and disappear when that entity is removed on expiry.
- Health increments and multipliers, and the player's death handling.
- The sound and volume parts of the effect handlers, and the field-of-view effect's render uniform.
- The `atan2` angle extraction in attachment decomposition. The decomposed angle is stated only for the dash trail.
- Geometry.CollisionCircles: requires `Partitionable`, a square box or a positive short edge. On a non-square box whose short edge is 0 the source's loop (`src/physics_system.cpp:43-51`) steps by 0 and never ends, so there is no result to model.
- Meshes.LoadMesh: a readable file whose vertices have zero x or y extent is excluded. The source divides by that extent (`src/components.cpp:126-133`), which gives infinities or NaN in floats and has no value in reals. A file with an unreadable face is not excluded: it fails before any rescaling.
- Vectors.Normalize: only the length equation is stated, not the angle, because `sqrt` is a parameter.
- Common.Rotate: only the origin is stated, because `sin` and `cos` are parameters. RotationDet gives the determinant under the trigonometric law.
- Articulation.SweepTo: states only that the attachments still hang. What each step does is stated by UpdateAttachment, SweepLeaves and SweepBounds.
- Regions.CreateRandomCysts: the source redraws forever until every region is full. The model stops when a finite draw stream runs out and reports whether it completed.
- Regions.DrawRadius: stops when the draw stream runs out, instead of redrawing forever.
- Effects.Handle and Effects.RunCallback: state only that the effect table keeps its shape. What each handler does is stated by the round-trip lemmas.
- Timers.Fired: states only the count bound. Which callbacks fire is stated through ScanTimedEvents and FiredOrSurvives.
- Swarming.NearestIn and Swarming.NearestWaypoint: the functions state only bounds. The choice itself is stated by NearestIsFirstNearest and NearestWaypointIsLastNearest.

## Findings

| source | as written | input that shows it | evidently intended | confidence | as-written member | corrected member |
|---|---|---|---|---|---|---|
| src/physics_system.cpp:498 | a region-edge knock-back is raised only when both of its components are non-zero | in the reals of this model: velocity (0, −200) heading into an edge with normal (0, 1) bounces to (0, 200), which is dropped, so no bounce is applied. In floats the edge normal at angle 0 is about (−4.4e-8, 1), so that bounce is about (−1.75e-5, 200) and is raised; the defect shows only when a reflected component rounds to exactly 0 | raise it when either component is non-zero, i.e. whenever there is a knock-back | not executed; latent under float rounding | Collisions.AsWrittenScanDropsBounce | Collisions.RegionEventComplete |
| src/components.hpp:274-282 | the sprite-sheet maps are keyed by frame count, and CYST_SHINE and GREEN_ENEMY_MOVING both have 4 frames | switching any entity to CYST_SHINE | each animation shows its own sprite sheet | not executed | Animations.CystShineShowsGreenEnemy | Animations.SwitchShowsOwnSheet |
| src/world_system.cpp:727-745 | the ray parameter is taken from the coordinate the edge does not fix, so it divides by zero when the interest point lies on an axis | interest point (0, −1000): the parameter is 0/0, every test fails, and the icon stays at the interest point, off the screen | the parameter is the fixed coordinate over the interest point's one, which places the icon on the top edge | not executed | Waypoints.StraightUpOrDownAsWritten | Waypoints.StraightUpOrDown |
| src/ai_system.cpp:132 | `closest_interest_point` is declared without a value and the enemy loop runs even when no waypoint assigned it | no waypoints and one movable green enemy within 1.5 screen radii of whatever the uninitialised point holds (the map centre under zero-initialisation): the enemy is pulled towards it | with no waypoint nothing is pulled | not executed | Swarming.NoWaypointStillPulls | Swarming.SwarmBlockInterestPointIntended |
