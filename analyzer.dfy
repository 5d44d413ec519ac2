/** The pixel-scanning mob analyzer of analyzer.go: avoided areas, colour
    scanning, clustering of name pixels, mob acceptance and the choice of
    the closest mob. Time is an integer count of milliseconds. */
module Analyzer {
  import opened GoInt
  import opened Sorting
  import opened Data
  import opened Wrappers

  // ---------------------------------------------------------------------
  // Avoided areas

  datatype AvoidedArea = AvoidedArea(bounds: Bounds, createdAt: int, duration: int)

  /** An area is still in force while its age has not passed its duration;
      both IsAvoided and CleanExpired use this one boundary. */
  predicate Active(area: AvoidedArea, now: int)
  {
    now - area.createdAt <= area.duration
  }

  /** Open rectangles overlap: strict inequalities on all four sides. */
  predicate BoundsOverlap(a: Bounds, b: Bounds)
  {
    a.x < b.x + b.w && a.x + a.w > b.x && a.y < b.y + b.h && a.y + a.h > b.y
  }

  lemma BoundsOverlapSymmetric(a: Bounds, b: Bounds)
    ensures BoundsOverlap(a, b) <==> BoundsOverlap(b, a)
  {
  }

  /** Rectangles that only share an edge do not overlap. */
  lemma EdgeTouchingDoesNotOverlap(a: Bounds, b: Bounds)
    requires a.x + a.w == b.x || b.x + b.w == a.x || a.y + a.h == b.y || b.y + b.h == a.y
    ensures !BoundsOverlap(a, b)
  {
  }

  /** Two well-formed rectangles overlap exactly when some interior point
      lies strictly inside both. */
  lemma OverlapWitness(a: Bounds, b: Bounds)
    requires a.w > 0 && a.h > 0 && b.w > 0 && b.h > 0
    ensures BoundsOverlap(a, b) <==>
      Max(a.x, b.x) < Min(a.x + a.w, b.x + b.w) && Max(a.y, b.y) < Min(a.y + a.h, b.y + b.h)
  {
  }

  ghost predicate AvoidedBy(areas: seq<AvoidedArea>, b: Bounds, now: int)
  {
    exists i :: 0 <= i < |areas| && Active(areas[i], now) && BoundsOverlap(b, areas[i].bounds)
  }

  class AvoidanceList {
    var areas: seq<AvoidedArea>

    constructor ()
      ensures areas == []
    {
      areas := [];
    }

    method Add(bounds: Bounds, duration: int, now: int)
      modifies this
      ensures areas == old(areas) + [AvoidedArea(bounds, now, duration)]
    {
      areas := areas + [AvoidedArea(bounds, now, duration)];
    }

    /** True iff some area still in force overlaps `bounds`. */
    method IsAvoided(bounds: Bounds, now: int) returns (avoided: bool)
      ensures avoided <==> AvoidedBy(areas, bounds, now)
    {
      var i := 0;
      while i < |areas|
        invariant 0 <= i <= |areas|
        invariant forall j :: 0 <= j < i ==> !(Active(areas[j], now) && BoundsOverlap(bounds, areas[j].bounds))
      {
        var area := areas[i];
        if !Active(area, now) {
          i := i + 1;
          continue;
        }
        if BoundsOverlap(bounds, area.bounds) {
          return true;
        }
        i := i + 1;
      }
      return false;
    }

    /** Keeps, in order, exactly the areas still in force. */
    method CleanExpired(now: int)
      modifies this
      ensures areas == FilterActive(old(areas), now)
    {
      var active: seq<AvoidedArea> := [];
      var i := 0;
      while i < |areas|
        invariant 0 <= i <= |areas|
        invariant active == FilterActive(areas[..i], now)
      {
        assert areas[..i + 1][..i] == areas[..i];
        if Active(areas[i], now) {
          active := active + [areas[i]];
        }
        i := i + 1;
      }
      assert areas[..i] == areas;
      areas := active;
    }
  }

  function FilterActive(s: seq<AvoidedArea>, now: int): (r: seq<AvoidedArea>)
  {
    if s == [] then []
    else FilterActive(s[..|s| - 1], now) + (if Active(s[|s| - 1], now) then [s[|s| - 1]] else [])
  }

  /** FilterActive keeps exactly the active areas, as a subsequence. */
  lemma {:induction false} FilterActiveSpec(s: seq<AvoidedArea>, now: int)
    ensures forall a :: a in FilterActive(s, now) <==> a in s && Active(a, now)
    ensures |FilterActive(s, now)| <= |s|
  {
    if s != [] {
      FilterActiveSpec(s[..|s| - 1], now);
      assert s == s[..|s| - 1] + [s[|s| - 1]];
    }
  }

  /** Cleaning never changes which rectangles are avoided at the same
      instant, because both operations use the same boundary. */
  lemma CleanExpiredKeepsAvoidance(s: seq<AvoidedArea>, now: int, b: Bounds)
    ensures AvoidedBy(FilterActive(s, now), b, now) <==> AvoidedBy(s, b, now)
  {
    FilterActiveSpec(s, now);
    var f := FilterActive(s, now);
    if AvoidedBy(s, b, now) {
      var i :| 0 <= i < |s| && Active(s[i], now) && BoundsOverlap(b, s[i].bounds);
      assert s[i] in f;
      var j :| 0 <= j < |f| && f[j] == s[i];
    }
    if AvoidedBy(f, b, now) {
      var j :| 0 <= j < |f| && Active(f[j], now) && BoundsOverlap(b, f[j].bounds);
      assert f[j] in s;
      var i :| 0 <= i < |s| && s[i] == f[j];
    }
  }

  // ---------------------------------------------------------------------
  // Pixel scanning

  datatype RGBA = RGBA(r: Byte, g: Byte, b: Byte, a: Byte)

  /** A captured frame whose bounds start at the origin. */
  datatype Image = Image(width: nat, height: nat, at: (int, int) -> RGBA)

  /** Opaque enough (alpha at least 250) and every channel within the
      tolerance. */
  predicate ColorMatches(c: RGBA, target: Color, tolerance: Byte)
  {
    c.a >= 250 &&
    Abs(c.r - target.r) <= tolerance && Abs(c.g - target.g) <= tolerance &&
    Abs(c.b - target.b) <= tolerance
  }

  /** With enough alpha, the RGBA test is the colour test of data.go. */
  lemma ColorMatchesAgreesWithMatches(c: RGBA, target: Color, tolerance: Byte)
    ensures ColorMatches(c, target, tolerance) <==>
      c.a >= 250 && Matches(Color(c.r, c.g, c.b), target, tolerance)
  {
  }

  /** The HUD corner where the player's own bars are drawn. */
  predicate InHudCorner(x: int, y: int)
  {
    x <= 250 && y <= 110
  }

  ghost predicate ScanHit(img: Image, region: Bounds, colors: seq<Color>, tolerance: Byte, p: Point)
  {
    Max(region.x, 0) <= p.x < Min(region.x + region.w, img.width) &&
    Max(region.y, 0) <= p.y < Min(region.y + region.h, img.height) &&
    !InHudCorner(p.x, p.y) &&
    exists c :: c in colors && ColorMatches(img.at(p.x, p.y), c, tolerance)
  }

  /** Row-major order: by row, then by column. */
  predicate Before(p: Point, q: Point)
  {
    p.y < q.y || (p.y == q.y && p.x < q.x)
  }

  /** Scans the region clipped to the image, row by row, and returns every
      matching pixel outside the HUD corner, in row-major order. */
  method ScanPixelsForColors(img: Image, region: Bounds, colors: seq<Color>, tolerance: Byte)
    returns (points: seq<Point>)
    ensures forall p :: p in points <==> ScanHit(img, region, colors, tolerance, p)
    ensures forall i, j :: 0 <= i < j < |points| ==> Before(points[i], points[j])
  {
    points := [];
    var minX := Max(region.x, 0);
    var minY := Max(region.y, 0);
    var maxX := Min(region.x + region.w, img.width);
    var maxY := Min(region.y + region.h, img.height);
    var y := minY;
    while y < maxY
      invariant minY <= y
      invariant forall p :: p in points <==> ScanHit(img, region, colors, tolerance, p) && p.y < y
      invariant forall i, j :: 0 <= i < j < |points| ==> Before(points[i], points[j])
      invariant forall p :: p in points ==> p.y < y
    {
      var x := minX;
      while x < maxX
        invariant minX <= x
        invariant forall p :: p in points <==>
          ScanHit(img, region, colors, tolerance, p) && (p.y < y || (p.y == y && p.x < x))
        invariant forall i, j :: 0 <= i < j < |points| ==> Before(points[i], points[j])
        invariant forall p :: p in points ==> Before(p, Point(x, y))
      {
        if InHudCorner(x, y) {
          x := x + 1;
          continue;
        }
        var c := img.at(x, y);
        var k := 0;
        while k < |colors|
          invariant 0 <= k <= |colors|
          invariant forall m :: 0 <= m < k ==> !ColorMatches(c, colors[m], tolerance)
        {
          if ColorMatches(c, colors[k], tolerance) {
            points := points + [Point(x, y)];
            break;
          }
          k := k + 1;
        }
        x := x + 1;
      }
      y := y + 1;
    }
  }

  // ---------------------------------------------------------------------
  // Clustering and mob identification

  /** clusterPoints: an exchange-sorted copy is cut into X runs whose
      neighbours are at most `distanceX` apart, and each X run, sorted by Y,
      into boxes whose neighbours are at most `distanceY` apart. */
  method ClusterPoints(points: seq<Point>, distanceX: int, distanceY: int)
    returns (bounds: seq<Bounds>, clusters: seq<seq<Point>>, byX: seq<Point>,
             xRuns: seq<seq<Point>>, byY: seq<seq<Point>>)
    ensures points == [] ==> bounds == []
    ensures points != [] ==> SortedBy(byX, (p: Point) => p.x) && multiset(byX) == multiset(points)
    ensures points != [] ==> RunsOf(xRuns, byX, AbsNearX(distanceX))
    ensures |byY| == |xRuns|
    ensures forall k :: 0 <= k < |xRuns| ==>
              SortedBy(byY[k], (p: Point) => p.y) && multiset(byY[k]) == multiset(xRuns[k])
    ensures clusters == RunsEach(byY, AbsNearY(distanceY))
    ensures |bounds| == |clusters| <= |points|
    ensures multiset(Flatten(clusters)) == multiset(points)
    ensures forall k :: 0 <= k < |clusters| ==>
              clusters[k] != [] && bounds[k] == BoundsOf(clusters[k])
    ensures forall k :: 0 <= k < |clusters| ==>
              forall i :: 0 < i < |clusters[k]| ==>
                clusters[k][i - 1].y <= clusters[k][i].y <= clusters[k][i - 1].y + distanceY
    ensures forall p :: p in points ==> exists k :: 0 <= k < |bounds| && Contains(bounds[k], p)
  {
    bounds, clusters, byX, xRuns, byY := TwoPassCluster(points, AbsNearX(distanceX), AbsNearY(distanceY));
    if points != [] {
      RunsAreRunsOf(byX, AbsNearX(distanceX));
    }
    forall k | 0 <= k < |clusters|
      ensures forall i :: 0 < i < |clusters[k]| ==>
                clusters[k][i - 1].y <= clusters[k][i].y <= clusters[k][i - 1].y + distanceY
    {
      assert GoodCluster(clusters[k], bounds[k], AbsNearY(distanceY));
    }
  }

  /** The neighbour tests of clusterPoints, which take the absolute
      difference of the coordinates. */
  function AbsNearX(distanceX: int): (Point, Point) -> bool
  {
    (p: Point, q: Point) => Abs(q.x - p.x) <= distanceX
  }

  function AbsNearY(distanceY: int): (Point, Point) -> bool
  {
    (p: Point, q: Point) => Abs(q.y - p.y) <= distanceY
  }

  /** On the sorted copies the scan compares, the absolute test is the
      plain difference test of `PointCloud.ClusterByDistance`, so the two
      clusterings cut at the same places. */
  lemma AbsNearAgrees(p: Point, q: Point, distanceX: int, distanceY: int)
    ensures p.x <= q.x ==> (AbsNearX(distanceX)(p, q) <==> NearX(distanceX)(p, q))
    ensures p.y <= q.y ==> (AbsNearY(distanceY)(p, q) <==> NearY(distanceY)(p, q))
  {
  }

  /** A name-pixel cluster is a mob when its width lies strictly between
      the configured limits and it is not above the HUD line. */
  predicate AcceptName(b: Bounds, minWidth: int, maxWidth: int)
  {
    b.w > minWidth && b.w < maxWidth && b.y >= 110
  }

  function AcceptedTargets(bs: seq<Bounds>, kind: MobType, minWidth: int, maxWidth: int): (r: seq<Target>)
    ensures |r| <= |bs|
  {
    if bs == [] then []
    else
      AcceptedTargets(bs[..|bs| - 1], kind, minWidth, maxWidth) +
      (if AcceptName(bs[|bs| - 1], minWidth, maxWidth) then [Target(kind, bs[|bs| - 1])] else [])
  }

  /** Every accepted target has the given kind, passes the filter and comes
      from the input; every input box that passes is kept. */
  lemma {:induction false} AcceptedTargetsSpec(bs: seq<Bounds>, kind: MobType, minWidth: int, maxWidth: int)
    ensures forall t :: t in AcceptedTargets(bs, kind, minWidth, maxWidth) <==>
              t.kind == kind && t.bounds in bs && AcceptName(t.bounds, minWidth, maxWidth)
  {
    if bs != [] {
      AcceptedTargetsSpec(bs[..|bs| - 1], kind, minWidth, maxWidth);
      assert bs == bs[..|bs| - 1] + [bs[|bs| - 1]];
    }
  }

  /** The acceptance step of IdentifyMobs, given the clusters of each
      colour: passive mobs first, then aggressive ones; violet clusters are
      only logged and never returned. */
  method IdentifyMobs(passiveClusters: seq<Bounds>, aggressiveClusters: seq<Bounds>,
                      violetClusters: seq<Bounds>, minWidth: int, maxWidth: int)
    returns (mobs: seq<Target>)
    ensures mobs == AcceptedTargets(passiveClusters, Passive, minWidth, maxWidth) +
                    AcceptedTargets(aggressiveClusters, Aggressive, minWidth, maxWidth)
  {
    mobs := [];
    var i := 0;
    while i < |passiveClusters|
      invariant 0 <= i <= |passiveClusters|
      invariant mobs == AcceptedTargets(passiveClusters[..i], Passive, minWidth, maxWidth)
    {
      assert passiveClusters[..i + 1][..i] == passiveClusters[..i];
      if AcceptName(passiveClusters[i], minWidth, maxWidth) {
        mobs := mobs + [Target(Passive, passiveClusters[i])];
      }
      i := i + 1;
    }
    assert passiveClusters[..i] == passiveClusters;
    ghost var passive := mobs;
    i := 0;
    while i < |aggressiveClusters|
      invariant 0 <= i <= |aggressiveClusters|
      invariant mobs == passive + AcceptedTargets(aggressiveClusters[..i], Aggressive, minWidth, maxWidth)
    {
      assert aggressiveClusters[..i + 1][..i] == aggressiveClusters[..i];
      if AcceptName(aggressiveClusters[i], minWidth, maxWidth) {
        mobs := mobs + [Target(Aggressive, aggressiveClusters[i])];
      }
      i := i + 1;
    }
    assert aggressiveClusters[..i] == aggressiveClusters;
  }

  /** No violet target is ever identified, and each identified one passed
      the width and height filter. */
  lemma IdentifiedMobsAreFiltered(passive: seq<Bounds>, aggressive: seq<Bounds>,
                                  minWidth: int, maxWidth: int, t: Target)
    requires t in AcceptedTargets(passive, Passive, minWidth, maxWidth) +
                  AcceptedTargets(aggressive, Aggressive, minWidth, maxWidth)
    ensures t.kind != Violet
    ensures minWidth < t.bounds.w < maxWidth && t.bounds.y >= 110
    ensures t.kind == Passive ==> t.bounds in passive
    ensures t.kind == Aggressive ==> t.bounds in aggressive
  {
    AcceptedTargetsSpec(passive, Passive, minWidth, maxWidth);
    AcceptedTargetsSpec(aggressive, Aggressive, minWidth, maxWidth);
  }

  // ---------------------------------------------------------------------
  // Closest mob

  /** Largest distance, in pixels, at which a mob is still chosen. */
  const MaxMobDistance := 325

  /** Squared distance from the screen centre to the mob's centre; the
      source compares square roots, which order the same way. */
  function DistanceSquared(t: Target, screenWidth: int, screenHeight: int): (d: int)
    ensures d >= 0
  {
    var dx := Center(t.bounds).x - Div(screenWidth, 2);
    var dy := Center(t.bounds).y - Div(screenHeight, 2);
    dx * dx + dy * dy
  }

  predicate InReach(t: Target, screenWidth: int, screenHeight: int)
  {
    DistanceSquared(t, screenWidth, screenHeight) <= MaxMobDistance * MaxMobDistance
  }

  /** Among the first `n` mobs, `c` is within reach, no mob within reach is
      nearer, and every earlier mob within reach is strictly farther. */
  ghost predicate IsClosest(mobs: seq<Target>, n: int, c: int, screenWidth: int, screenHeight: int)
    requires 0 <= n <= |mobs|
  {
    0 <= c < n && InReach(mobs[c], screenWidth, screenHeight) &&
    (forall j :: 0 <= j < n && InReach(mobs[j], screenWidth, screenHeight) ==>
       DistanceSquared(mobs[c], screenWidth, screenHeight) <= DistanceSquared(mobs[j], screenWidth, screenHeight)) &&
    (forall j :: 0 <= j < c && InReach(mobs[j], screenWidth, screenHeight) ==>
       DistanceSquared(mobs[c], screenWidth, screenHeight) < DistanceSquared(mobs[j], screenWidth, screenHeight))
  }

  /** The index of the first mob attaining the smallest distance among those
      within reach, or None when none is within reach. */
  method FindClosestMob(mobs: seq<Target>, screenWidth: int, screenHeight: int)
    returns (closest: Option<nat>)
    ensures closest.None? <==>
      forall i :: 0 <= i < |mobs| ==> !InReach(mobs[i], screenWidth, screenHeight)
    ensures closest.Some? ==> IsClosest(mobs, |mobs|, closest.value, screenWidth, screenHeight)
  {
    closest := None;
    if |mobs| == 0 {
      return;
    }
    var i := 0;
    while i < |mobs|
      invariant 0 <= i <= |mobs|
      invariant closest.None? <==>
        forall j :: 0 <= j < i ==> !InReach(mobs[j], screenWidth, screenHeight)
      invariant closest.Some? ==> IsClosest(mobs, i, closest.value, screenWidth, screenHeight)
    {
      var d := DistanceSquared(mobs[i], screenWidth, screenHeight);
      if d > MaxMobDistance * MaxMobDistance {
        i := i + 1;
        continue;
      }
      if closest.None? || d < DistanceSquared(mobs[closest.value], screenWidth, screenHeight) {
        closest := Some(i);
      }
      i := i + 1;
    }
  }
}
