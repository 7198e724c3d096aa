/**
 * The Skills section's choice of layout: the viewport-width classifier,
 * the view each tier renders, the per-tier orb and camera constants, and
 * the assignment of orbs to concentric layers.
 */
module DeviceTier {

  /** The five device tiers, in increasing width. */
  datatype Tier = Mobile | Tablet | Laptop | SmallDesktop | Desktop

  /** The width at which each tier after the first begins, in tier order. */
  const Breakpoints: seq<int> := [640, 1024, 1200, 1440]

  /** Number of entries in the skill list the orbs are built from. */
  const SkillCount: nat := 14

  /** Orbs per layer before the next, smaller layer starts. */
  const OrbsPerLayer: nat := 8

  /** How much smaller each successive layer's radius is. */
  const LayerStep: int := 2

  /** Position of a tier in the order mobile < tablet < laptop < small-desktop < desktop. */
  function Rank(t: Tier): (n: nat)
    ensures n <= |Breakpoints|
  {
    match t
    case Mobile => 0
    case Tablet => 1
    case Laptop => 2
    case SmallDesktop => 3
    case Desktop => 4
  }

  /** How many of the breakpoints bs a width has reached. */
  function Passed(bs: seq<int>, width: int): (n: nat)
    ensures n <= |bs|
  {
    if bs == [] then 0
    else (if bs[0] <= width then 1 else 0) + Passed(bs[1..], width)
  }

  /** The band of widths a tier covers: from the breakpoint before it, inclusive, to the one after it, exclusive. */
  predicate InBand(width: int, t: Tier) {
    (Rank(t) == 0 || Breakpoints[Rank(t) - 1] <= width) &&
    (Rank(t) == |Breakpoints| || width < Breakpoints[Rank(t)])
  }

  /** The resize handler's classification of window.innerWidth. */
  function Classify(width: int): (t: Tier)
    ensures InBand(width, t)
  {
    if width < 640 then Mobile
    else if width < 1024 then Tablet
    else if width < 1200 then Laptop
    else if width < 1440 then SmallDesktop
    else Desktop
  }

  /** The tier of a width is determined by how many breakpoints it has reached. */
  lemma ClassifyCountsBreakpoints(width: int)
    ensures Rank(Classify(width)) == Passed(Breakpoints, width)
  {
    var one := if 640 <= width then 1 else 0;
    var two := if 1024 <= width then 1 else 0;
    var three := if 1200 <= width then 1 else 0;
    var four := if 1440 <= width then 1 else 0;
    assert [1440][1..] == [];
    assert Passed([1440], width) == four;
    assert [1200, 1440][1..] == [1440];
    assert Passed([1200, 1440], width) == three + four;
    assert [1024, 1200, 1440][1..] == [1200, 1440];
    assert Passed([1024, 1200, 1440], width) == two + three + four;
    assert Breakpoints[1..] == [1024, 1200, 1440];
    assert Passed(Breakpoints, width) == one + two + three + four;
  }

  /** Every width lies in the band of exactly one tier, and that tier is the one chosen. */
  lemma ClassifyUnique(width: int, t: Tier)
    ensures InBand(width, t) <==> t == Classify(width)
  {
  }

  /** The five bands, written out. */
  lemma ClassifyBands(width: int)
    ensures Classify(width) == Mobile <==> width < 640
    ensures Classify(width) == Tablet <==> 640 <= width < 1024
    ensures Classify(width) == Laptop <==> 1024 <= width < 1200
    ensures Classify(width) == SmallDesktop <==> 1200 <= width < 1440
    ensures Classify(width) == Desktop <==> 1440 <= width
  {
  }

  /** A wider window never gets a smaller tier. */
  lemma ClassifyMonotone(narrow: int, wide: int)
    requires narrow <= wide
    ensures Rank(Classify(narrow)) <= Rank(Classify(wide))
  {
    ClassifyCountsBreakpoints(narrow);
    ClassifyCountsBreakpoints(wide);
    PassedMonotone(Breakpoints, narrow, wide);
  }

  lemma {:induction false} PassedMonotone(bs: seq<int>, narrow: int, wide: int)
    requires narrow <= wide
    ensures Passed(bs, narrow) <= Passed(bs, wide)
  {
    if bs != [] {
      PassedMonotone(bs[1..], narrow, wide);
    }
  }

  /** What the Skills section renders for each tier. */
  datatype View =
    | OrbsWithJoystick  // the 3D orbs with the on-screen joystick
    | SkillGrid         // the flat three-column grid, no 3D
    | OrbCanvas(size: Tier)  // the 3D orbs with orbit controls, laid out for the tier

  function ViewFor(t: Tier): (v: View)
    ensures v.OrbsWithJoystick? <==> t == Mobile
    ensures v.SkillGrid? <==> t == Tablet
    ensures v.OrbCanvas? <==> Rank(t) >= 2
    ensures v.OrbCanvas? ==> v.size == t
  {
    match t
    case Mobile => OrbsWithJoystick
    case Tablet => SkillGrid
    case _ => OrbCanvas(t)
  }

  /** The ring radius, vertical spread and orb scale of a 3D orb layout. */
  datatype OrbLayout = OrbLayout(radius: int, verticalSpread: real, orbScale: real)

  /** The desktop-family layout; laptop and small-desktop are tightened, every other tier falls through to the default. */
  function LayoutFor(t: Tier): (l: OrbLayout)
    ensures t == Laptop ==> l == OrbLayout(6, 2.5, 0.8)
    ensures t == SmallDesktop ==> l == OrbLayout(7, 3.0, 0.9)
    ensures t != Laptop && t != SmallDesktop ==> l == OrbLayout(8, 4.0, 1.0)
  {
    match t
    case Laptop => OrbLayout(6, 2.5, 0.8)
    case SmallDesktop => OrbLayout(7, 3.0, 0.9)
    case _ => OrbLayout(8, 4.0, 1.0)
  }

  /** The fixed layout of the mobile orbs: radius 6, spread 3, scale 0.85. */
  const MobileLayout: OrbLayout := OrbLayout(6, 3.0, 0.85)

  /**
   * The mobile ring shares the laptop radius, is spread like the
   * small-desktop one, and its orbs are sized between those two tiers'.
   */
  lemma MobileLayoutAmongTiers()
    ensures MobileLayout == OrbLayout(6, 3.0, 0.85)
    ensures MobileLayout.radius == LayoutFor(Laptop).radius
    ensures MobileLayout.verticalSpread == LayoutFor(SmallDesktop).verticalSpread
    ensures LayoutFor(Laptop).orbScale < MobileLayout.orbScale < LayoutFor(SmallDesktop).orbScale
  {
  }

  /** The camera's distance along z for the desktop-family canvas; it sits on the z axis. */
  function CameraDistance(t: Tier): (z: int)
    ensures t == Laptop ==> z == 18
    ensures t == SmallDesktop ==> z == 16
    ensures t != Laptop && t != SmallDesktop ==> z == 14
  {
    match t
    case Laptop => 18
    case SmallDesktop => 16
    case _ => 14
  }

  /**
   * Across the tiers that render the orb canvas, a wider tier gets a larger
   * ring, a larger spread and larger orbs, with the camera brought closer;
   * and the camera always stays outside the ring.
   */
  lemma LayoutGrowsWithTier(t: Tier, u: Tier)
    requires 2 <= Rank(t) <= Rank(u)
    ensures LayoutFor(t).radius <= LayoutFor(u).radius
    ensures LayoutFor(t).verticalSpread <= LayoutFor(u).verticalSpread
    ensures LayoutFor(t).orbScale <= LayoutFor(u).orbScale
    ensures CameraDistance(u) <= CameraDistance(t)
    ensures CameraDistance(t) > LayoutFor(t).radius
  {
  }

  /** The layer an orb sits in: Math.floor(index / 8) for a non-negative index. */
  function Layer(index: nat): (layer: nat)
    ensures OrbsPerLayer * layer <= index < OrbsPerLayer * layer + OrbsPerLayer
  {
    index / OrbsPerLayer
  }

  /** The ring radius of each orb: a layer's ring is LayerStep smaller than the one before. */
  function LayerRadii(radius: int, count: nat): (rs: seq<int>)
    ensures |rs| == count
    ensures forall i :: 0 <= i < count ==> rs[i] == radius - LayerStep * Layer(i)
  {
    seq(count, i requires 0 <= i => radius - LayerStep * Layer(i))
  }

  /** Later orbs never sit on a larger ring, and the first eight sit on the full radius. */
  lemma LayerRadiiShrink(radius: int, count: nat, i: nat, j: nat)
    requires i <= j < count
    ensures LayerRadii(radius, count)[j] <= LayerRadii(radius, count)[i]
    ensures j < OrbsPerLayer ==> LayerRadii(radius, count)[j] == radius
  {
    assert Layer(i) <= Layer(j);
  }

  /**
   * With the fourteen skills, the orbs form two layers: eight on the full
   * radius and six on a ring two units smaller, and every ring of every
   * layout, the mobile one included, has a positive radius.
   */
  lemma SkillRings(l: OrbLayout, i: nat)
    requires l == MobileLayout || exists t :: l == LayoutFor(t)
    requires i < SkillCount
    ensures i < 8 ==> LayerRadii(l.radius, SkillCount)[i] == l.radius
    ensures 8 <= i ==> LayerRadii(l.radius, SkillCount)[i] == l.radius - 2
    ensures LayerRadii(l.radius, SkillCount)[i] > 0
  {
    assert Layer(i) == if i < 8 then 0 else 1;
  }
}
