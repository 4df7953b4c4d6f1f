/**
 * World generation: the regions that divide the map into equal sectors,
 * and the cysts scattered over those sectors.
 *
 * The random engine is a parameter. The shuffled theme and goal lists
 * arrive as arguments, and the cyst placement consumes two finite streams
 * of draws: one from the exponential radius distribution and one from the
 * uniform angle distribution. A run that exhausts a stream stops early
 * and says so.
 */
module Regions {
  import opened Vectors
  import opened Common
  import opened Components
  import opened Registry
  import Motions
  import Animations

  // ---------------------------------------------------------------- regions

  /** The boss guarding a region: the cure and the cancer cell are guarded. */
  function BossFor(g: RegionGoal): (b: BossId)
    ensures b == Bacteriophage <==> g == Cure
    ensures b == Friend <==> g == CancerCell
  {
    match g
    case Cure => Bacteriophage
    case CancerCell => Friend
    case _ => NoBoss
  }

  /** Distinct goals never share a boss, so each boss guards one region at most. */
  lemma BossForInjective(g1: RegionGoal, g2: RegionGoal)
    requires BossFor(g1) == BossFor(g2) != NoBoss
    ensures g1 == g2
  {
  }

  /** C `round`: to the nearest integer, halves away from zero. */
  function Round(x: real): (r: int)
    ensures -0.5 <= x - r as real <= 0.5
    ensures x >= 0.0 ==> r >= 0
    ensures x <= 0.0 ==> r <= 0
  {
    if x >= 0.0 then (x + 0.5).Floor else -((-x + 0.5).Floor)
  }

  /** Rounding keeps a value within any whole-number bound it was within. */
  lemma RoundWithin(x: real, bound: int)
    requires -bound as real <= x <= bound as real
    ensures -bound <= Round(x) <= bound
  {
  }

  /** Interest points sit at six tenths of the map radius from the centre. */
  const INTEREST_DISTANCE: real := MAP_RADIUS * 0.6

  /** The region triangles are drawn one and a half map radii long. */
  const REGION_SCALE: real := MAP_RADIUS * 1.5

  /** The angle each of `n` regions spans. */
  function Sector(n: nat): (s: real)
    requires n > 0
    ensures s > 0.0
  {
    2.0 * PI / n as real
  }

  /**
   * The sectors of `n` regions tile the full turn: the `k`-th starts
   * inside it and ends within it, and the last ends exactly at a full turn.
   */
  lemma SectorsTile(n: nat, k: nat)
    requires k < n
    ensures 0.0 <= k as real * Sector(n) < 2.0 * PI
    ensures k as real * Sector(n) + Sector(n) <= 2.0 * PI
    ensures k == n - 1 ==> k as real * Sector(n) + Sector(n) == 2.0 * PI
  {
    var s := Sector(n);
    assert n as real * s == 2.0 * PI;
    assert k as real * s + s == (k + 1) as real * s;
    assert (k + 1) as real * s <= n as real * s;
  }

  /** The interest point at angle `a`, its coordinates rounded to whole pixels. */
  function InterestPoint(lib: Libm, a: real): Vec2
  {
    Vec2(Round(INTEREST_DISTANCE * lib.cos(a)) as real, Round(INTEREST_DISTANCE * lib.sin(a)) as real)
  }

  /** A sine or cosine on the unit circle has magnitude at most one. */
  lemma UnitBound(c: real, s: real)
    requires s * s + c * c == 1.0
    ensures -1.0 <= c <= 1.0
  {
    assert c * c <= 1.0 by { assert s * s >= 0.0; }
    if Abs(c) > 1.0 {
      MulStrict(Abs(c), 1.0);
      assert false;
    }
  }

  /** Six thousand times a value of magnitude at most one rounds to within 6000. */
  lemma InterestAxis(c: real)
    requires -1.0 <= c <= 1.0
    ensures -6000.0 <= Round(INTEREST_DISTANCE * c) as real <= 6000.0
  {
    assert INTEREST_DISTANCE == 6000.0;
    RoundWithin(INTEREST_DISTANCE * c, 6000);
  }

  /** Every interest point lies in the square of half-width 6000 around the centre. */
  lemma InterestPointInside(lib: Libm, a: real)
    requires TrigLaw(lib)
    ensures -6000.0 <= InterestPoint(lib, a).x <= 6000.0
    ensures -6000.0 <= InterestPoint(lib, a).y <= 6000.0
  {
    var c, s := lib.cos(a), lib.sin(a);
    assert s * s + c * c == 1.0;
    UnitBound(c, s);
    UnitBound(s, c);
    InterestAxis(c);
    InterestAxis(s);
  }

  /** A region as created, with the transform of its background triangle. */
  datatype PlacedRegion = PlacedRegion(region: Region, transform: Transform)

  /**
   * The `k`-th of `n` regions, given its theme and goal: uncleared, guarded
   * by the boss its goal calls for, drawn from the centre at the start of
   * its sector, with its interest point half a sector further on.
   */
  function NthRegion(lib: Libm, n: nat, k: nat, theme: RegionTheme, goal: RegionGoal): (p: PlacedRegion)
    requires k < n
    ensures p.region.theme == theme && p.region.goal == goal
    ensures p.region.boss == BossFor(goal) && !p.region.isCleared
    ensures p.transform.angle == k as real * Sector(n)
    ensures p.transform.position == Zero && p.transform.scale == Vec2(REGION_SCALE, REGION_SCALE)
    ensures p.region.interestPoint == InterestPoint(lib, p.transform.angle + Sector(n) / 2.0)
  {
    var start := k as real * Sector(n);
    PlacedRegion(
      Region(theme, goal, BossFor(goal), false, InterestPoint(lib, start + Sector(n) / 2.0)),
      Transform(Zero, Vec2(REGION_SCALE, REGION_SCALE), start, false, 0.0))
  }

  /** The `k`-th region, built from the start angle of its sector. */
  lemma NthRegionAt(lib: Libm, n: nat, k: nat, theme: RegionTheme, goal: RegionGoal, start: real)
    requires k < n && start == k as real * Sector(n)
    ensures NthRegion(lib, n, k, theme, goal) == PlacedRegion(
      Region(theme, goal, BossFor(goal), false, InterestPoint(lib, start + Sector(n) / 2.0)),
      Transform(Zero, Vec2(REGION_SCALE, REGION_SCALE), start, false, 0.0))
  {
  }

  /**
   * `createRandomRegions`: region `i` takes the last theme and goal still
   * unused from the two shuffled lists of all six values. The lists are
   * popped from the back, so region `i` gets the `i`-th value counted from
   * the end; no two regions share a theme or a goal, and each boss guards
   * one region at most.
   */
  method CreateRandomRegions(lib: Libm, n: nat, themes: seq<RegionTheme>, goals: seq<RegionGoal>)
    returns (placed: seq<PlacedRegion>)
    requires n <= REGION_THEME_COUNT && n <= REGION_GOAL_COUNT
    requires |themes| == REGION_THEME_COUNT && Distinct(themes)
    requires |goals| == REGION_GOAL_COUNT && Distinct(goals)
    ensures |placed| == n
    ensures forall i :: 0 <= i < n ==>
      placed[i] == NthRegion(lib, n, i, themes[REGION_THEME_COUNT - 1 - i], goals[REGION_GOAL_COUNT - 1 - i])
    ensures forall i, j :: 0 <= i < j < n ==>
      && placed[i].region.theme != placed[j].region.theme
      && placed[i].region.goal != placed[j].region.goal
      && (placed[i].region.boss == NoBoss || placed[i].region.boss != placed[j].region.boss)
  {
    var angle := 0.0;
    placed := [];
    var i := 0;
    while i < n
      invariant 0 <= i <= n && |placed| == i
      invariant n > 0 ==> angle == i as real * Sector(n)
      invariant forall k :: 0 <= k < i ==>
        placed[k] == NthRegion(lib, n, k, themes[REGION_THEME_COUNT - 1 - k], goals[REGION_GOAL_COUNT - 1 - k])
    {
      var theme := themes[REGION_THEME_COUNT - 1 - i];
      var goal := goals[REGION_GOAL_COUNT - 1 - i];
      var step := Sector(n);
      var centre := angle + step / 2.0;
      var region := Region(theme, goal, BossFor(goal), false, InterestPoint(lib, centre));
      var transform := Transform(Zero, Vec2(REGION_SCALE, REGION_SCALE), angle, false, 0.0);
      NthRegionAt(lib, n, i, theme, goal, angle);
      placed := placed + [PlacedRegion(region, transform)];
      assert angle + step == (i + 1) as real * Sector(n);
      angle := angle + step;
      i := i + 1;
    }
    RegionsDistinct(lib, n, themes, goals, placed);
  }

  /** Regions made from distinct themes and goals share neither, nor a boss. */
  lemma RegionsDistinct(lib: Libm, n: nat, themes: seq<RegionTheme>, goals: seq<RegionGoal>, placed: seq<PlacedRegion>)
    requires n <= REGION_THEME_COUNT && n <= REGION_GOAL_COUNT && |placed| == n
    requires |themes| == REGION_THEME_COUNT && Distinct(themes)
    requires |goals| == REGION_GOAL_COUNT && Distinct(goals)
    requires forall i :: 0 <= i < n ==>
      placed[i] == NthRegion(lib, n, i, themes[REGION_THEME_COUNT - 1 - i], goals[REGION_GOAL_COUNT - 1 - i])
    ensures forall i, j :: 0 <= i < j < n ==>
      && placed[i].region.theme != placed[j].region.theme
      && placed[i].region.goal != placed[j].region.goal
      && (placed[i].region.boss == NoBoss || placed[i].region.boss != placed[j].region.boss)
  {
    forall i, j | 0 <= i < j < n
      ensures placed[i].region.theme != placed[j].region.theme
      ensures placed[i].region.goal != placed[j].region.goal
      ensures placed[i].region.boss == NoBoss || placed[i].region.boss != placed[j].region.boss
    {
      var pi, pj := placed[i], placed[j];
      assert pi.region.theme == themes[REGION_THEME_COUNT - 1 - i];
      assert pj.region.theme == themes[REGION_THEME_COUNT - 1 - j];
      assert pi.region.goal == goals[REGION_GOAL_COUNT - 1 - i];
      assert pj.region.goal == goals[REGION_GOAL_COUNT - 1 - j];
      if pi.region.boss != NoBoss && pi.region.boss == pj.region.boss {
        BossForInjective(pi.region.goal, pj.region.goal);
      }
    }
  }

  // ---------------------------------------------------------------- cysts

  /** The number of cysts the map is meant to hold, shared among the regions. */
  const TOTAL_CYSTS: nat := 132

  /** The angle of a sector when the map has its full six regions. */
  const CYST_SECTOR: real := 2.0 * PI / NUM_REGIONS as real

  /** Cysts keep between these distances from the centre. */
  const LOWER_RADIUS: real := 0.17 * MAP_RADIUS
  const UPPER_RADIUS: real := 0.98 * MAP_RADIUS

  /** Two cysts are at least half a screen radius apart. */
  function MaxCloseness(lib: Libm): real
  {
    ScreenRadius(lib) / 2.0
  }

  /** The cysts each region gets: the total, shared out and rounded down. */
  function PerRegion(regions: nat): (k: nat)
    requires regions > 0
    ensures k * regions <= TOTAL_CYSTS < (k + 1) * regions
  {
    TOTAL_CYSTS / regions
  }

  predicate InBand(radius: real)
  {
    LOWER_RADIUS <= radius <= UPPER_RADIUS
  }

  /** The point at `radius` from the centre in the direction `angle`. */
  function PolarPoint(lib: Libm, angle: real, radius: real): Vec2
  {
    Scale(Vec2(lib.cos(angle), lib.sin(angle)), radius)
  }

  /** A placed cyst: its region, its polar coordinates and its position. */
  datatype CystSite = CystSite(region: nat, radius: real, angle: real, position: Vec2)

  /** Some site already placed is closer to `pos` than the minimum distance. */
  predicate Crowds(lib: Libm, pos: Vec2, sites: seq<CystSite>)
  {
    exists k :: 0 <= k < |sites| && Length(lib, Sub(pos, sites[k].position)) < MaxCloseness(lib)
  }

  /** Every two sites keep the minimum distance. */
  predicate Spread(lib: Libm, sites: seq<CystSite>)
  {
    forall a, b :: 0 <= a < b < |sites| ==>
      Length(lib, Sub(sites[b].position, sites[a].position)) >= MaxCloseness(lib)
  }

  /** The sites in region `g`. */
  function CountIn(sites: seq<CystSite>, g: nat): (k: nat)
    ensures k <= |sites|
  {
    if sites == [] then 0
    else CountIn(sites[..|sites| - 1], g) + (if sites[|sites| - 1].region == g then 1 else 0)
  }

  /** The scan over the placed positions, stopping at the first that is too close. */
  method TooClose(lib: Libm, pos: Vec2, sites: seq<CystSite>) returns (close: bool)
    ensures close <==> Crowds(lib, pos, sites)
  {
    close := false;
    var k := 0;
    while k < |sites|
      invariant 0 <= k <= |sites|
      invariant forall m :: 0 <= m < k ==> !(Length(lib, Sub(pos, sites[m].position)) < MaxCloseness(lib))
    {
      if Length(lib, Sub(pos, sites[k].position)) < MaxCloseness(lib) {
        close := true;
        return;
      }
      k := k + 1;
    }
  }

  /**
   * The radius draw: the map radius less an exponential draw, drawn again
   * while it falls outside the band. Reports whether the stream held an
   * acceptable draw, and where the next unused draw is.
   */
  method DrawRadius(draws: seq<real>, from: nat) returns (found: bool, radius: real, next: nat)
    requires from <= |draws|
    ensures from <= next <= |draws|
    ensures found ==> from < next && radius == MAP_RADIUS - draws[next - 1] && InBand(radius)
    ensures forall k :: from <= k < next - (if found then 1 else 0) ==> !InBand(MAP_RADIUS - draws[k])
    ensures !found ==> next == |draws|
  {
    found, radius, next := false, 0.0, from;
    while next < |draws|
      invariant from <= next <= |draws|
      invariant forall k :: from <= k < next ==> !InBand(MAP_RADIUS - draws[k])
    {
      radius := MAP_RADIUS - draws[next];
      next := next + 1;
      if !(radius > UPPER_RADIUS || radius < LOWER_RADIUS) {
        found := true;
        return;
      }
    }
  }

  /** Appending a site adds one to its own region's count and nothing to the others. */
  lemma CountInAppend(sites: seq<CystSite>, s: CystSite, g: nat)
    ensures CountIn(sites + [s], g) == CountIn(sites, g) + (if s.region == g then 1 else 0)
  {
    assert (sites + [s])[..|sites + [s]| - 1] == sites;
  }

  /** Where the sector of region `g` of a six-region map starts. */
  function SectorStart(g: nat): real
  {
    CYST_SECTOR * g as real
  }

  /** Each sector ends where the next starts. */
  lemma SectorStartNext(g: nat)
    ensures SectorStart(g + 1) == SectorStart(g) + CYST_SECTOR
  {
  }

  /** One placed cyst: inside the band, inside its region's sector, at its polar point. */
  predicate SiteOk(lib: Libm, s: CystSite, regions: nat)
  {
    && InBand(s.radius)
    && s.region < regions
    && SectorStart(s.region) <= s.angle < SectorStart(s.region + 1)
    && s.position == PolarPoint(lib, s.angle, s.radius)
  }

  /** Sites come region by region. */
  predicate InRegionOrder(sites: seq<CystSite>)
  {
    forall a, b :: 0 <= a < b < |sites| ==> sites[a].region <= sites[b].region
  }

  /** What every prefix of the cyst placement keeps true of the sites so far. */
  predicate Sited(lib: Libm, sites: seq<CystSite>, regions: nat)
  {
    && (forall k :: 0 <= k < |sites| ==> SiteOk(lib, sites[k], regions))
    && InRegionOrder(sites)
    && Spread(lib, sites)
  }

  /** A site far enough from all earlier ones keeps them spread. */
  lemma SpreadAppend(lib: Libm, sites: seq<CystSite>, s: CystSite)
    requires Spread(lib, sites) && !Crowds(lib, s.position, sites)
    ensures Spread(lib, sites + [s])
  {
    var t := sites + [s];
    forall a, b | 0 <= a < b < |t|
      ensures Length(lib, Sub(t[b].position, t[a].position)) >= MaxCloseness(lib)
    {
      if b == |sites| {
        assert t[a] == sites[a];
        assert !(Length(lib, Sub(s.position, sites[a].position)) < MaxCloseness(lib));
      } else {
        assert t[a] == sites[a] && t[b] == sites[b];
      }
    }
  }

  /** A site in a region no earlier site exceeds keeps the region order. */
  lemma OrderAppend(sites: seq<CystSite>, s: CystSite)
    requires InRegionOrder(sites)
    requires forall k :: 0 <= k < |sites| ==> sites[k].region <= s.region
    ensures InRegionOrder(sites + [s])
  {
    var t := sites + [s];
    forall a, b | 0 <= a < b < |t|
      ensures t[a].region <= t[b].region
    {
      assert t[a] == sites[a];
    }
  }

  /** A site accepted after the scan keeps every placement fact. */
  lemma SitedAppend(lib: Libm, sites: seq<CystSite>, regions: nat, s: CystSite)
    requires Sited(lib, sites, regions) && !Crowds(lib, s.position, sites) && SiteOk(lib, s, regions)
    requires forall k :: 0 <= k < |sites| ==> sites[k].region <= s.region
    ensures Sited(lib, sites + [s], regions)
  {
    SpreadAppend(lib, sites, s);
    OrderAppend(sites, s);
    var t := sites + [s];
    assert forall k :: 0 <= k < |sites| ==> t[k] == sites[k];
  }

  /** Sites placed for fewer regions are placed for more. */
  lemma SitedWiden(lib: Libm, sites: seq<CystSite>, regions: nat, more: nat)
    requires Sited(lib, sites, regions) && regions <= more
    ensures Sited(lib, sites, more)
  {
    forall k | 0 <= k < |sites|
      ensures SiteOk(lib, sites[k], more)
    {
      assert SiteOk(lib, sites[k], regions);
    }
  }

  /**
   * `createRandomCysts`: for each region in turn, place its share of the
   * cysts. A cyst takes the first radius draw inside the band and the next
   * angle draw, shifted into its region's sector (the sector of a six-region
   * map, whatever the region count); it is dropped and drawn again when it
   * comes closer than the minimum distance to a cyst already placed.
   * Angle draws are the uniform distribution's, in `[0, CYST_SECTOR)`.
   * `complete` is false when a stream of draws ran out first.
   */
  method CreateRandomCysts(lib: Libm, regions: nat, radiusDraws: seq<real>, angleDraws: seq<real>)
    returns (sites: seq<CystSite>, complete: bool)
    requires forall k :: 0 <= k < |angleDraws| ==> 0.0 <= angleDraws[k] < CYST_SECTOR
    ensures Sited(lib, sites, regions)
    ensures complete && regions > 0 ==> forall g :: 0 <= g < regions ==> CountIn(sites, g) == PerRegion(regions)
    ensures forall g :: regions <= g ==> CountIn(sites, g) == 0
  {
    sites, complete := [], true;
    var ri, ai := 0, 0;
    var i := 0;
    while i < regions
      invariant 0 <= i <= regions && ri <= |radiusDraws| && ai <= |angleDraws|
      invariant Sited(lib, sites, i)
      invariant forall g :: 0 <= g < i ==> CountIn(sites, g) == PerRegion(regions)
      invariant forall g :: i <= g ==> CountIn(sites, g) == 0
    {
      SitedWiden(lib, sites, i, i + 1);
      var j := 0;
      while j < TOTAL_CYSTS / regions
        invariant 0 <= j <= TOTAL_CYSTS / regions && ri <= |radiusDraws| && ai <= |angleDraws|
        invariant Sited(lib, sites, i + 1)
        invariant forall k :: 0 <= k < |sites| ==> sites[k].region <= i
        invariant forall g :: 0 <= g < i ==> CountIn(sites, g) == PerRegion(regions)
        invariant CountIn(sites, i) == j
        invariant forall g :: i < g ==> CountIn(sites, g) == 0
        decreases |angleDraws| - ai
      {
        var found, radius, next := DrawRadius(radiusDraws, ri);
        ri := next;
        if !found || ai == |angleDraws| {
          SitedWiden(lib, sites, i + 1, regions);
          complete := false;
          return;
        }
        var angle := angleDraws[ai] + SectorStart(i);
        ai := ai + 1;
        var pos := PolarPoint(lib, angle, radius);
        var tooClose := TooClose(lib, pos, sites);
        if !tooClose {
          var s := CystSite(i, radius, angle, pos);
          SectorStartNext(i);
          SitedAppend(lib, sites, i + 1, s);
          CountsAppend(sites, s);
          sites := sites + [s];
          j := j + 1;
        }
      }
      i := i + 1;
    }
  }

  /** Appending a site changes only its own region's count. */
  lemma CountsAppend(sites: seq<CystSite>, s: CystSite)
    ensures forall g: nat :: CountIn(sites + [s], g) == CountIn(sites, g) + (if s.region == g then 1 else 0)
  {
    forall g: nat
      ensures CountIn(sites + [s], g) == CountIn(sites, g) + (if s.region == g then 1 else 0)
    {
      CountInAppend(sites, s, g);
    }
  }

  /** Under the square-root law, placed cysts are apart by at least a quarter of the screen radius squared. */
  lemma SpreadSquared(lib: Libm, sites: seq<CystSite>, a: nat, b: nat)
    requires SqrtLaw(lib) && Spread(lib, sites) && a < b < |sites|
    ensures Norm2(Sub(sites[b].position, sites[a].position)) >= SCREEN_RADIUS_SQ / 4.0
  {
    ScreenRadiusSquared(lib);
    var m := MaxCloseness(lib);
    assert m * m == SCREEN_RADIUS_SQ / 4.0;
    LengthCompare(lib, Sub(sites[b].position, sites[a].position), m);
  }

  /** A point at `radius` from the centre is exactly that far, by the unit circle. */
  lemma PolarNorm(lib: Libm, angle: real, radius: real)
    requires TrigLaw(lib)
    ensures Norm2(PolarPoint(lib, angle, radius)) == radius * radius
  {
    var u := Vec2(lib.cos(angle), lib.sin(angle));
    ScaledNorm(u, radius);
    assert Norm2(u) == 1.0;
  }

  /** Every placed cyst lies inside the band, and so well inside the map. */
  lemma CystsInsideMap(lib: Libm, sites: seq<CystSite>, regions: nat, k: nat)
    requires TrigLaw(lib) && Sited(lib, sites, regions) && k < |sites|
    ensures LOWER_RADIUS * LOWER_RADIUS <= Norm2(sites[k].position) <= UPPER_RADIUS * UPPER_RADIUS
    ensures Norm2(sites[k].position) < MAP_RADIUS * MAP_RADIUS
  {
    var r := sites[k].radius;
    PolarNorm(lib, sites[k].angle, r);
    assert LOWER_RADIUS * LOWER_RADIUS <= r * r by { MulMono(LOWER_RADIUS, r); }
    assert r * r <= UPPER_RADIUS * UPPER_RADIUS by { MulMono(r, UPPER_RADIUS); }
  }

  lemma MulMono(a: real, b: real)
    requires 0.0 <= a <= b
    ensures a * a <= b * b
  {
    if a < b { MulStrict(b, a); }
  }

  // ---------------------------------------------------------------- one cyst

  /** A cyst sprite is its texture scaled four times. */
  const CYST_TEXTURE_SIZE: Vec2 := Vec2(23.0, 22.0)

  /** A cyst starts at half health unless told otherwise. */
  const CYST_DEFAULT_HEALTH: real := 50.0

  /** The components `createCyst` gives a new cyst. */
  datatype CystParts = CystParts(health: Health, motion: Motion, transform: Transform, animation: Animation)

  /**
   * `createCyst`: a cyst at `pos` with `health` out of the default maximum,
   * a motion that cannot move (it is there for the collision check), and
   * the shine animation, replayed every second and a half.
   */
  function NewCyst(pos: Vec2, health: real): (c: CystParts)
    ensures c.health.health == health && c.health.maxHealth == 100.0
    ensures c.motion.velocity == Zero && c.motion.force == Zero && c.motion.maxVelocity == 0.0
    ensures !c.motion.allowAccel && c.motion.accelerationUnit == 0.0
    ensures c.transform.position == pos && c.transform.scale == Scale(CYST_TEXTURE_SIZE, 4.0)
    ensures c.animation.totalFrame == Animations.Frames(Animations.CystShine)
    ensures c.animation.updatePeriodMs == 80 && c.animation.loopInterval == 1500.0
  {
    CystParts(
      Health(health, 100.0),
      DefaultMotion().(velocity := Zero, maxVelocity := 0.0, accelerationUnit := 0.0,
                       decelerationUnit := 0.0, allowAccel := false),
      DefaultTransform().(position := pos, scale := Scale(CYST_TEXTURE_SIZE, 4.0)),
      Animation(4, 0, 0.0, 80, false, 1500.0))
  }

  /** A new cyst's animation steps like any well-formed one. */
  lemma CystAnimationWellFormed(pos: Vec2, health: real)
    ensures Animations.WellFormed(NewCyst(pos, health).animation)
  {
  }

  /** A sum of two squares that is not positive leaves the first one zero. */
  lemma SquareZero(a: real, b: real)
    requires a * a + b * b <= 0.0
    ensures a == 0.0
  {
    assert Abs(a) * Abs(a) == a * a;
    assert b * b >= 0.0;
    if a != 0.0 {
      MulStrict(Abs(a), 0.0);
      assert false;
    }
  }

  /** Only the zero vector has no squared length. */
  lemma ZeroNorm(v: Vec2)
    requires Norm2(v) <= 0.0
    ensures v == Zero
  {
    SquareZero(v.x, v.y);
    SquareZero(v.y, v.x);
  }

  /** Clamping to speed zero stops any velocity. */
  lemma ClampToZero(lib: Libm, v: Vec2)
    requires SqrtLaw(lib)
    ensures ClampSpeed(lib, v, 0.0) == Zero
  {
    ClampSpeedBound(lib, v, 0.0);
    ZeroNorm(ClampSpeed(lib, v, 0.0));
  }

  /** A body at rest and capped at speed zero is still at rest after a step. */
  lemma StillVelocity(lib: Libm, b: Motions.Body, elapsedMs: real)
    requires SqrtLaw(lib) && b.motion.velocity == Zero && b.motion.maxVelocity == 0.0
    ensures Motions.StepVelocity(lib, b.motion, false, elapsedMs) == Zero
  {
    if Length(lib, b.motion.force) > 0.0 {
      ClampToZero(lib, Motions.Pushed(b.motion, elapsedMs));
    }
  }

  /** A body at rest and capped at speed zero does not move, whatever force acts on it. */
  lemma StillBody(lib: Libm, b: Motions.Body, elapsedMs: real)
    requires SqrtLaw(lib) && b.motion.velocity == Zero && b.motion.maxVelocity == 0.0
    ensures Motions.StepBody(lib, b, false, elapsedMs).transform.position == b.transform.position
  {
    StillVelocity(lib, b, elapsedMs);
    Motions.StepBodyFrame(lib, b, false, elapsedMs);
  }

  /**
   * A cyst stays where it was made: whatever force a collision leaves on
   * it, the physics step caps its speed at zero and its position holds.
   */
  lemma CystStaysPut(lib: Libm, pos: Vec2, health: real, force: Vec2, elapsedMs: real)
    requires SqrtLaw(lib)
    ensures var c := NewCyst(pos, health);
      Motions.StepBody(lib, Motions.Body(c.transform, c.motion.(force := force)), false, elapsedMs).transform.position == pos
  {
    var c := NewCyst(pos, health);
    StillBody(lib, Motions.Body(c.transform, c.motion.(force := force)), elapsedMs);
  }
}
