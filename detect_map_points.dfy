/** The coloured-dot detector of map/detect_map_points.py after the OpenCV
    calls: contour measurements are inputs, and the colour masks, the
    contour filter and the proximity merge are modelled. */
module MapPoints {
  import opened GoInt

  /** The labels points carry: both red hue ranges are labelled red. */
  datatype Colour = Orange | Red | Yellow

  /** A detected point: centre, colour label and equivalent radius. */
  datatype Point = Point(x: int, y: int, colour: Colour, radius: real)

  /** The names of the HSV ranges of MapPointDetector. */
  datatype RangeName = OrangeRange | Red1 | Red2 | YellowRange

  /** An inclusive HSV box, as cv2.inRange tests it. */
  datatype HsvRange = HsvRange(lowH: int, lowS: int, lowV: int, highH: int, highS: int, highV: int)

  function RangeOf(name: RangeName): HsvRange
  {
    match name
    case OrangeRange => HsvRange(10, 100, 100, 25, 255, 255)
    case Red1 => HsvRange(0, 100, 100, 10, 255, 255)
    case Red2 => HsvRange(170, 100, 100, 180, 255, 255)
    case YellowRange => HsvRange(25, 100, 100, 35, 255, 255)
  }

  predicate InHsvRange(r: HsvRange, h: int, s: int, v: int)
  {
    r.lowH <= h <= r.highH && r.lowS <= s <= r.highS && r.lowV <= v <= r.highV
  }

  /** `extract_color_mask` at one pixel: whether the pixel is set, and the
      label of the mask. Either red name selects the union of both red
      ranges. */
  function MaskPixel(name: RangeName, h: int, s: int, v: int): (bool, Colour)
  {
    match name
    case Red1 => (InHsvRange(RangeOf(Red1), h, s, v) || InHsvRange(RangeOf(Red2), h, s, v), Red)
    case Red2 => (InHsvRange(RangeOf(Red1), h, s, v) || InHsvRange(RangeOf(Red2), h, s, v), Red)
    case OrangeRange => (InHsvRange(RangeOf(OrangeRange), h, s, v), Orange)
    case YellowRange => (InHsvRange(RangeOf(YellowRange), h, s, v), Yellow)
  }

  /** The red mask wraps around the hue circle: a saturated, bright pixel
      is red iff its hue is at most 10 or at least 170; both red names give
      the same mask. */
  lemma RedMaskSpec(h: int, s: int, v: int)
    ensures MaskPixel(Red1, h, s, v) == MaskPixel(Red2, h, s, v)
    ensures MaskPixel(Red1, h, s, v).1 == Red
    ensures 100 <= s <= 255 && 100 <= v <= 255 && 0 <= h <= 180 ==>
            (MaskPixel(Red1, h, s, v).0 <==> h <= 10 || h >= 170)
  {
  }

  /** The inclusive bounds overlap: hue 10 is both orange and red, hue 25
      both orange and yellow, so one dot can be found under two colours
      and then merged by proximity. */
  lemma SharedHueBoundaries()
    ensures MaskPixel(OrangeRange, 10, 100, 100).0 && MaskPixel(Red1, 10, 100, 100).0
    ensures MaskPixel(OrangeRange, 25, 100, 100).0 && MaskPixel(YellowRange, 25, 100, 100).0
    ensures forall h :: 11 <= h <= 24 ==> !MaskPixel(Red1, h, 100, 100).0 && !MaskPixel(YellowRange, h, 100, 100).0
  {
  }

  /** The order in which `detect` walks the colours. */
  const DetectOrder: seq<RangeName> := [OrangeRange, Red1, YellowRange]

  const MinArea: real := 10.0
  const MaxArea: real := 200.0
  const MinCircularity: real := 0.5
  const MergeDistance: int := 10
  const Pi: real := 3.141592653589793

  /** `calculate_circularity`: 4*pi*area/perimeter^2, and 0 for a zero
      perimeter. */
  function Circularity(area: real, perimeter: real): (r: real)
    ensures perimeter == 0.0 ==> r == 0.0
    ensures perimeter != 0.0 ==> r * (perimeter * perimeter) == 4.0 * Pi * area
  {
    if perimeter == 0.0 then 0.0
    else 4.0 * Pi * area / (perimeter * perimeter)
  }

  /** What cv2 measures of one contour: area, perimeter and the moments
      m00, m10, m01. */
  datatype ContourMeasure = ContourMeasure(area: real, perimeter: real, m00: real, m10: real, m01: real)

  /** The three filters of `detect_points_from_mask`, in their order. */
  predicate Accepted(c: ContourMeasure)
  {
    !(c.area < MinArea || c.area > MaxArea) && !(Circularity(c.area, c.perimeter) < MinCircularity) && c.m00 != 0.0
  }

  /** The point reported for an accepted contour: the truncated centroid
      and the radius of the circle of equal area (`sqrt` is numpy's). */
  function PointOf(c: ContourMeasure, colour: Colour, sqrt: real -> real): Point
    requires c.m00 != 0.0
  {
    Point(Trunc(c.m10 / c.m00), Trunc(c.m01 / c.m00), colour, sqrt(c.area / Pi))
  }

  /** The points `detect_points_from_mask` reports for `contours`. */
  function PointsFromMask(contours: seq<ContourMeasure>, colour: Colour, sqrt: real -> real): (r: seq<Point>)
  {
    if contours == [] then []
    else
      var prev := PointsFromMask(contours[..|contours| - 1], colour, sqrt);
      var c := contours[|contours| - 1];
      if Accepted(c) then prev + [PointOf(c, colour, sqrt)] else prev
  }

  /** Each reported point comes from an accepted contour, in contour order,
      every accepted contour is reported, and all points carry the mask's
      label. */
  lemma {:induction false} PointsFromMaskSpec(contours: seq<ContourMeasure>, colour: Colour, sqrt: real -> real)
    ensures var r := PointsFromMask(contours, colour, sqrt);
            |r| <= |contours| &&
            (forall p :: p in r ==> p.colour == colour) &&
            (forall p :: p in r ==> exists c :: c in contours && Accepted(c) && p == PointOf(c, colour, sqrt)) &&
            (forall c :: c in contours && Accepted(c) ==> PointOf(c, colour, sqrt) in r)
  {
    if contours != [] {
      var init := contours[..|contours| - 1];
      PointsFromMaskSpec(init, colour, sqrt);
      assert forall c :: c in init ==> c in contours;
      assert contours == init + [contours[|contours| - 1]];
    }
  }

  /** `detect_points_from_mask` after contour extraction. */
  method DetectPointsFromMask(contours: seq<ContourMeasure>, colour: Colour, sqrt: real -> real)
    returns (points: seq<Point>)
    ensures points == PointsFromMask(contours, colour, sqrt)
  {
    points := [];
    for i := 0 to |contours|
      invariant points == PointsFromMask(contours[..i], colour, sqrt)
    {
      assert contours[..i + 1][..i] == contours[..i];
      var c := contours[i];
      if c.area < MinArea || c.area > MaxArea {
        continue;
      }
      var circularity := Circularity(c.area, c.perimeter);
      if circularity < MinCircularity {
        continue;
      }
      if c.m00 == 0.0 {
        continue;
      }
      var cx := Trunc(c.m10 / c.m00);
      var cy := Trunc(c.m01 / c.m00);
      var radius := sqrt(c.area / Pi);
      points := points + [Point(cx, cy, colour, radius)];
    }
    assert contours[..|contours|] == contours;
  }

  // ---------------------------------------------------------------------
  // merge_overlapping_points

  /** Closer than the merge distance. The source compares the square root
      of the squared distance with 10; for an integer square that is the
      same as comparing the square with 100. */
  predicate Close(p: Point, q: Point)
  {
    (p.x - q.x) * (p.x - q.x) + (p.y - q.y) * (p.y - q.y) < MergeDistance * MergeDistance
  }

  /** The later points that join the cluster of `seed`, among the indices
      below `j`: unused, and close to the seed itself. */
  function Members(points: seq<Point>, seed: nat, used: set<nat>, j: nat): (r: seq<nat>)
    requires seed < j <= |points|
    ensures forall k :: 0 <= k < |r| ==> seed < r[k] < j
    decreases j
  {
    if j == seed + 1 then []
    else
      var prev := Members(points, seed, used, j - 1);
      if j - 1 !in used && Close(points[seed], points[j - 1]) then prev + [j - 1] else prev
  }

  /** The used set once a cluster's members are added. */
  function UsedAfter(used: set<nat>, members: seq<nat>): (r: set<nat>)
    ensures forall k :: k in r <==> k in used || k in members
  {
    used + set k | k in members
  }

  ghost predicate Increasing(s: seq<nat>)
  {
    forall a, b :: 0 <= a < b < |s| ==> s[a] < s[b]
  }

  /** Star clustering: an index joins iff it is later than the seed,
      unused, and close to the seed (not to the other members); members
      come in index order. */
  lemma {:induction false} MembersSpec(points: seq<Point>, seed: nat, used: set<nat>, j: nat)
    requires seed < j <= |points|
    ensures forall k :: k in Members(points, seed, used, j) <==>
                        seed < k < j && k !in used && Close(points[seed], points[k])
    ensures Increasing(Members(points, seed, used, j))
    decreases j
  {
    if j > seed + 1 {
      MembersSpec(points, seed, used, j - 1);
      var prev := Members(points, seed, used, j - 1);
      forall a | 0 <= a < |prev| ensures prev[a] < j - 1 {
        assert prev[a] in prev;
      }
    }
  }

  /** The clusters, as index lists seed first, that the outer loop builds
      from index `i` on, given the indices already used. */
  function ClustersFrom(points: seq<Point>, i: nat, used: set<nat>): (cs: seq<seq<nat>>)
    requires i <= |points|
    ensures |cs| <= |points| - i
    ensures forall a :: 0 <= a < |cs| ==> cs[a] != [] && forall k :: 0 <= k < |cs[a]| ==> cs[a][k] < |points|
    decreases |points| - i
  {
    if i == |points| then []
    else if i in used then ClustersFrom(points, i + 1, used)
    else
      var m := Members(points, i, used, |points|);
      [[i] + m] + ClustersFrom(points, i + 1, UsedAfter(used, m))
  }

  /** Every index in the clusters is at least `i`, below `n` and unused. */
  ghost predicate WithinFrom(cs: seq<seq<nat>>, i: nat, n: nat, used: set<nat>)
  {
    forall a, k :: 0 <= a < |cs| && 0 <= k < |cs[a]| ==> i <= cs[a][k] < n && cs[a][k] !in used
  }

  /** No index lies in two clusters. */
  ghost predicate Disjoint(cs: seq<seq<nat>>)
  {
    forall a, b, k, l :: 0 <= a < b < |cs| && 0 <= k < |cs[a]| && 0 <= l < |cs[b]| ==> cs[a][k] != cs[b][l]
  }

  /** Index `x` lies in some cluster. */
  ghost predicate InSomeCluster(cs: seq<seq<nat>>, x: nat)
  {
    exists a, k :: 0 <= a < |cs| && 0 <= k < |cs[a]| && cs[a][k] == x
  }

  /** Every unused index from `i` on lies in some cluster. */
  ghost predicate CoversFrom(cs: seq<seq<nat>>, i: nat, n: nat, used: set<nat>)
  {
    forall x {:trigger InSomeCluster(cs, x)} :: i <= x < n && x !in used ==> InSomeCluster(cs, x)
  }

  /** Each cluster is its seed followed by later indices close to it. */
  ghost predicate StarShaped(points: seq<Point>, cs: seq<seq<nat>>)
  {
    forall a :: 0 <= a < |cs| ==>
      cs[a] != [] && Increasing(cs[a]) && (forall k :: 0 <= k < |cs[a]| ==> cs[a][k] < |points|) &&
      forall k :: 1 <= k < |cs[a]| ==> Close(points[cs[a][0]], points[cs[a][k]])
  }

  /** Clusters come in the order of their seeds. */
  ghost predicate SeedOrder(cs: seq<seq<nat>>)
  {
    forall a, b :: 0 <= a < b < |cs| && cs[a] != [] && cs[b] != [] ==> cs[a][0] < cs[b][0]
  }

  /** The clusters partition the unused indices from `i` on: every such
      index lies in exactly one cluster, each cluster is a star around its
      seed, and clusters follow seed order. */
  ghost predicate Partition(points: seq<Point>, cs: seq<seq<nat>>, i: nat, used: set<nat>)
  {
    WithinFrom(cs, i, |points|, used) && Disjoint(cs) && CoversFrom(cs, i, |points|, used) &&
    StarShaped(points, cs) && SeedOrder(cs)
  }

  lemma {:induction false} ClustersPartition(points: seq<Point>, i: nat, used: set<nat>)
    requires i <= |points|
    ensures Partition(points, ClustersFrom(points, i, used), i, used)
    decreases |points| - i
  {
    if i == |points| {
    } else if i in used {
      ClustersPartition(points, i + 1, used);
      SkipUsed(points, i, used);
    } else {
      var m := Members(points, i, used, |points|);
      ClustersPartition(points, i + 1, UsedAfter(used, m));
      PrependPartition(points, i, used);
    }
  }

  lemma SkipUsed(points: seq<Point>, i: nat, used: set<nat>)
    requires i < |points| && i in used
    requires Partition(points, ClustersFrom(points, i + 1, used), i + 1, used)
    ensures Partition(points, ClustersFrom(points, i, used), i, used)
  {
    var cs := ClustersFrom(points, i + 1, used);
    assert ClustersFrom(points, i, used) == cs;
    assert CoversFrom(cs, i, |points|, used) by {
      forall x | i <= x < |points| && x !in used ensures InSomeCluster(cs, x) {
        assert x != i;
        assert InSomeCluster(cs, x);
      }
    }
  }

  lemma PrependPartition(points: seq<Point>, i: nat, used: set<nat>)
    requires i < |points| && i !in used
    requires var m := Members(points, i, used, |points|);
             Partition(points, ClustersFrom(points, i + 1, UsedAfter(used, m)), i + 1, UsedAfter(used, m))
    ensures Partition(points, ClustersFrom(points, i, used), i, used)
  {
    var m := Members(points, i, used, |points|);
    var rest := ClustersFrom(points, i + 1, UsedAfter(used, m));
    assert ClustersFrom(points, i, used) == [[i] + m] + rest;
    MembersSpec(points, i, used, |points|);
    HeadCluster(points, i, used, |points|);
    PrependWithin(points, i, used, m, rest);
    PrependCovers(points, i, used, m, rest);
    PrependStar(points, i, used, m, rest);
  }

  lemma PrependWithin(points: seq<Point>, i: nat, used: set<nat>, m: seq<nat>, rest: seq<seq<nat>>)
    requires forall k :: 0 <= k < |[i] + m| ==> i <= ([i] + m)[k] < |points| && ([i] + m)[k] !in used
    requires WithinFrom(rest, i + 1, |points|, UsedAfter(used, m)) && Disjoint(rest)
    ensures WithinFrom([[i] + m] + rest, i, |points|, used) && Disjoint([[i] + m] + rest)
  {
    var head := [i] + m;
    var cs := [head] + rest;
    var used' := UsedAfter(used, m);
    forall a, k | 0 <= a < |cs| && 0 <= k < |cs[a]| ensures i <= cs[a][k] < |points| && cs[a][k] !in used {
      if a > 0 {
        assert cs[a] == rest[a - 1];
      }
    }
    forall a, b, k, l | 0 <= a < b < |cs| && 0 <= k < |cs[a]| && 0 <= l < |cs[b]| ensures cs[a][k] != cs[b][l] {
      assert cs[b] == rest[b - 1];
      assert i + 1 <= cs[b][l] && cs[b][l] !in used';
      if a == 0 {
        if k > 0 {
          assert cs[a][k] == m[k - 1];
          assert m[k - 1] in used';
        }
      } else {
        assert cs[a] == rest[a - 1];
      }
    }
  }

  lemma PrependCovers(points: seq<Point>, i: nat, used: set<nat>, m: seq<nat>, rest: seq<seq<nat>>)
    requires CoversFrom(rest, i + 1, |points|, UsedAfter(used, m))
    ensures CoversFrom([[i] + m] + rest, i, |points|, used)
  {
    var cs := [[i] + m] + rest;
    var used' := UsedAfter(used, m);
    forall x | i <= x < |points| && x !in used ensures InSomeCluster(cs, x) {
      if x == i {
        assert cs[0][0] == x;
      } else if x in m {
        var k :| 0 <= k < |m| && m[k] == x;
        assert cs[0][k + 1] == x;
      } else {
        assert x !in used';
        assert InSomeCluster(rest, x);
        var a, k :| 0 <= a < |rest| && 0 <= k < |rest[a]| && rest[a][k] == x;
        assert cs[a + 1][k] == x;
      }
    }
  }

  lemma PrependStar(points: seq<Point>, i: nat, used: set<nat>, m: seq<nat>, rest: seq<seq<nat>>)
    requires i < |points|
    requires var head := [i] + m;
             Increasing(head) && (forall k :: 0 <= k < |head| ==> i <= head[k] < |points|) &&
             forall k :: 1 <= k < |head| ==> Close(points[i], points[head[k]])
    requires WithinFrom(rest, i + 1, |points|, UsedAfter(used, m))
    requires StarShaped(points, rest) && SeedOrder(rest)
    ensures StarShaped(points, [[i] + m] + rest) && SeedOrder([[i] + m] + rest)
  {
    var cs := [[i] + m] + rest;
    forall a | 0 <= a < |cs| ensures
      cs[a] != [] && Increasing(cs[a]) && (forall k :: 0 <= k < |cs[a]| ==> cs[a][k] < |points|) &&
      forall k :: 1 <= k < |cs[a]| ==> Close(points[cs[a][0]], points[cs[a][k]])
    {
      if a > 0 {
        assert cs[a] == rest[a - 1];
      }
    }
    forall a, b | 0 <= a < b < |cs| && cs[a] != [] && cs[b] != [] ensures cs[a][0] < cs[b][0] {
      assert cs[b] == rest[b - 1];
      assert i + 1 <= cs[b][0];
      if a > 0 {
        assert cs[a] == rest[a - 1];
      }
    }
  }

  /** The seed's own cluster: seed first, then its members. */
  lemma HeadCluster(points: seq<Point>, i: nat, used: set<nat>, n: nat)
    requires i < n == |points| && i !in used
    requires forall k :: k in Members(points, i, used, n) <==> i < k < n && k !in used && Close(points[i], points[k])
    requires Increasing(Members(points, i, used, n))
    ensures var head := [i] + Members(points, i, used, n);
            head != [] && head[0] == i && Increasing(head) &&
            (forall k :: 0 <= k < |head| ==> i <= head[k] < n && head[k] !in used) &&
            forall k :: 1 <= k < |head| ==> Close(points[i], points[head[k]])
  {
    var m := Members(points, i, used, n);
    var head := [i] + m;
    forall a, b | 0 <= a < b < |head| ensures head[a] < head[b] {
      assert head[b] == m[b - 1];
      assert head[b] in m;
      if a > 0 {
        assert head[a] == m[a - 1];
      }
    }
    forall k | 0 <= k < |head| ensures i <= head[k] < n && head[k] !in used {
      if k > 0 {
        assert head[k] == m[k - 1];
        assert head[k] in m;
      }
    }
    forall k | 1 <= k < |head| ensures Close(points[i], points[head[k]]) {
      assert head[k] == m[k - 1];
      assert head[k] in m;
    }
  }

  function SumX(ps: seq<Point>): int
  {
    if ps == [] then 0 else SumX(ps[..|ps| - 1]) + ps[|ps| - 1].x
  }

  function SumY(ps: seq<Point>): int
  {
    if ps == [] then 0 else SumY(ps[..|ps| - 1]) + ps[|ps| - 1].y
  }

  function SumRadius(ps: seq<Point>): real
  {
    if ps == [] then 0.0 else SumRadius(ps[..|ps| - 1]) + ps[|ps| - 1].radius
  }

  /** The merged point of a cluster: `int(np.mean(...))` of the
      coordinates (truncation toward zero), the mean radius, and the
      seed's colour. */
  function Centre(cluster: seq<Point>): Point
    requires cluster != []
  {
    var n := |cluster| as real;
    Point(Trunc(SumX(cluster) as real / n), Trunc(SumY(cluster) as real / n), cluster[0].colour, SumRadius(cluster) / n)
  }

  /** The truncated mean of integers is Go-style truncating division. */
  lemma TruncMean(s: int, n: int)
    requires n > 0
    ensures Trunc(s as real / n as real) == Div(s, n)
  {
    if s >= 0 {
      FloorDiv(s, n);
    } else {
      FloorDiv(-s, n);
      assert -(s as real / n as real) == (-s) as real / n as real;
    }
  }

  /** The truncated quotient of a sum of n values in [lo, hi] lies in
      [lo, hi]. */
  lemma DivBetween(s: int, n: int, lo: int, hi: int)
    requires n > 0 && n * lo <= s <= n * hi
    ensures lo <= Div(s, n) <= hi
  {
    if s >= 0 {
      DivBetweenNat(s, n, lo, hi);
    } else {
      assert n * -hi == -(n * hi) && n * -lo == -(n * lo);
      DivBetweenNat(-s, n, -hi, -lo);
    }
  }

  lemma RealMulCancel(a: real, b: real, n: real)
    requires n > 0.0 && a * n <= b * n
    ensures a <= b
  {
  }

  lemma RealMulCancelStrict(a: real, b: real, n: real)
    requires n > 0.0 && a * n < b * n
    ensures a < b
  {
  }

  lemma RealDivBounds(s: real, n: real, q: real)
    requires n > 0.0 && q * n <= s < (q + 1.0) * n
    ensures q <= s / n < q + 1.0
  {
    var x := s / n;
    assert x * n == s;
    RealMulCancel(q, x, n);
    RealMulCancelStrict(x, q + 1.0, n);
  }

  lemma MulMono(a: int, b: int, n: int)
    requires a <= b && n > 0
    ensures a * n <= b * n
  {
    assert (b - a) * n >= 0;
  }

  lemma FloorDiv(s: int, n: int)
    requires s >= 0 && n > 0
    ensures (s as real / n as real).Floor == s / n
  {
    var q := s / n;
    assert q * n <= s < (q + 1) * n;
    assert (q as real) * (n as real) == (q * n) as real;
    assert ((q + 1) as real) * (n as real) == ((q + 1) * n) as real;
    RealDivBounds(s as real, n as real, q as real);
  }

  lemma DivBetweenNat(s: int, n: int, lo: int, hi: int)
    requires s >= 0 && n > 0 && n * lo <= s <= n * hi
    ensures lo <= s / n <= hi
  {
    var q := s / n;
    assert q * n <= s < (q + 1) * n;
    if q < lo {
      MulMono(q + 1, lo, n);
    }
    if q > hi {
      MulMono(hi + 1, q, n);
    }
  }

  lemma MulSucc(n: int, a: int)
    ensures (n + 1) * a == n * a + a
  {
  }

  lemma {:induction false} SumXBounds(ps: seq<Point>, lo: int, hi: int)
    requires forall p :: p in ps ==> lo <= p.x <= hi
    ensures |ps| * lo <= SumX(ps) <= |ps| * hi
  {
    if ps != [] {
      var init := ps[..|ps| - 1];
      assert forall p :: p in init ==> p in ps;
      SumXBounds(init, lo, hi);
      assert ps[|ps| - 1] in ps;
      MulSucc(|init|, lo);
      MulSucc(|init|, hi);
    }
  }

  lemma {:induction false} SumYBounds(ps: seq<Point>, lo: int, hi: int)
    requires forall p :: p in ps ==> lo <= p.y <= hi
    ensures |ps| * lo <= SumY(ps) <= |ps| * hi
  {
    if ps != [] {
      var init := ps[..|ps| - 1];
      assert forall p :: p in init ==> p in ps;
      SumYBounds(init, lo, hi);
      assert ps[|ps| - 1] in ps;
      MulSucc(|init|, lo);
      MulSucc(|init|, hi);
    }
  }

  /** The merged point lies inside the bounding box of its cluster, and a
      cluster of one point merges to that point. */
  lemma CentreSpec(cluster: seq<Point>, loX: int, hiX: int, loY: int, hiY: int)
    requires cluster != []
    requires forall p :: p in cluster ==> loX <= p.x <= hiX && loY <= p.y <= hiY
    ensures var c := Centre(cluster);
            loX <= c.x <= hiX && loY <= c.y <= hiY && c.colour == cluster[0].colour
    ensures |cluster| == 1 ==> Centre(cluster) == cluster[0]
  {
    var n := |cluster|;
    SumXBounds(cluster, loX, hiX);
    SumYBounds(cluster, loY, hiY);
    TruncMean(SumX(cluster), n);
    TruncMean(SumY(cluster), n);
    DivBetween(SumX(cluster), n, loX, hiX);
    DivBetween(SumY(cluster), n, loY, hiY);
    if n == 1 {
      assert cluster[..0] == [];
      assert SumX(cluster) == cluster[0].x && SumY(cluster) == cluster[0].y;
      assert SumRadius(cluster) == cluster[0].radius;
      assert cluster[0].x as real / 1.0 == cluster[0].x as real;
      assert cluster[0].y as real / 1.0 == cluster[0].y as real;
      assert cluster[0].radius / 1.0 == cluster[0].radius;
    }
  }

  /** The points of a cluster of indices. */
  function Pick(points: seq<Point>, c: seq<nat>): (r: seq<Point>)
    requires forall k :: 0 <= k < |c| ==> c[k] < |points|
    ensures |r| == |c| && forall k :: 0 <= k < |c| ==> r[k] == points[c[k]]
  {
    seq(|c|, k requires 0 <= k < |c| => points[c[k]])
  }

  /** The merged points of a sequence of clusters. */
  function Centres(points: seq<Point>, cs: seq<seq<nat>>): (r: seq<Point>)
    requires forall a :: 0 <= a < |cs| ==> cs[a] != [] && forall k :: 0 <= k < |cs[a]| ==> cs[a][k] < |points|
    ensures |r| == |cs|
  {
    if cs == [] then [] else [Centre(Pick(points, cs[0]))] + Centres(points, cs[1..])
  }

  /** What `merge_overlapping_points` returns: the input itself when it
      holds at most one point, otherwise one merged point per cluster. */
  function Merged(points: seq<Point>): (r: seq<Point>)
  {
    if |points| <= 1 then points
    else
      Centres(points, ClustersFrom(points, 0, {}))
  }

  /** Merging never adds points, keeps short inputs, and each merged point
      takes the colour of its seed, which is an input point; merged points
      come in seed order. */
  lemma MergedSpec(points: seq<Point>)
    ensures |Merged(points)| <= |points|
    ensures |points| <= 1 ==> Merged(points) == points
    ensures |points| > 1 ==>
            var cs := ClustersFrom(points, 0, {});
            |Merged(points)| == |cs| &&
            forall a :: 0 <= a < |cs| ==> cs[a] != [] && cs[a][0] < |points| &&
                                          Merged(points)[a].colour == points[cs[a][0]].colour
  {
    if |points| > 1 {
      var cs := ClustersFrom(points, 0, {});
      ClustersPartition(points, 0, {});
      CentresColours(points, cs);
    }
  }

  lemma {:induction false} CentresColours(points: seq<Point>, cs: seq<seq<nat>>)
    requires forall a :: 0 <= a < |cs| ==> cs[a] != [] && forall k :: 0 <= k < |cs[a]| ==> cs[a][k] < |points|
    ensures forall a :: 0 <= a < |cs| ==> Centres(points, cs)[a].colour == points[cs[a][0]].colour
  {
    if cs != [] {
      CentresColours(points, cs[1..]);
      assert cs[0][0] in cs[0];
      forall a | 1 <= a < |cs| ensures Centres(points, cs)[a].colour == points[cs[a][0]].colour {
        assert cs[1..][a - 1] == cs[a];
      }
    }
  }

  lemma CentresAppend(points: seq<Point>, cs: seq<seq<nat>>, c: seq<nat>)
    requires forall a :: 0 <= a < |cs| ==> cs[a] != [] && forall k :: 0 <= k < |cs[a]| ==> cs[a][k] < |points|
    requires c != [] && forall k :: 0 <= k < |c| ==> c[k] < |points|
    ensures Centres(points, [c] + cs) == [Centre(Pick(points, c))] + Centres(points, cs)
  {
    assert ([c] + cs)[1..] == cs;
  }

  /** The cluster loop of `merge_overlapping_points`, on a set of used
      indices, for two or more points. */
  method MergeOverlappingPoints(points: seq<Point>) returns (merged: seq<Point>)
    ensures merged == Merged(points)
  {
    if |points| <= 1 {
      return points;
    }
    ghost var whole := Centres(points, ClustersFrom(points, 0, {}));
    merged := [];
    var used: set<nat> := {};
    var i := 0;
    while i < |points|
      invariant 0 <= i <= |points|
      invariant merged + Centres(points, ClustersFrom(points, i, used)) == whole
      decreases |points| - i
    {
      if i in used {
        CentresUnfold(points, i, used);
        i := i + 1;
        continue;
      }
      var cluster, members, used' := GrowCluster(points, i, used);
      MergeStep(points, i, used, merged, whole, cluster, members, used');
      merged := merged + [Centre(cluster)];
      used := used';
      i := i + 1;
    }
    assert merged + [] == merged;
  }

  /** One round of the outer loop keeps the merged prefix in step with the
      clusters still to come. */
  lemma MergeStep(points: seq<Point>, i: nat, used: set<nat>, merged: seq<Point>, whole: seq<Point>,
                  cluster: seq<Point>, members: seq<nat>, used': set<nat>)
    requires i < |points| && i !in used
    requires merged + Centres(points, ClustersFrom(points, i, used)) == whole
    requires members == Members(points, i, used, |points|)
    requires used' == UsedAfter(used, members)
    requires cluster == Pick(points, [i] + members)
    ensures merged + [Centre(cluster)] + Centres(points, ClustersFrom(points, i + 1, used')) == whole
  {
    CentresUnfold(points, i, used);
  }

  lemma CentresUnfold(points: seq<Point>, i: nat, used: set<nat>)
    requires i < |points|
    ensures i in used ==> Centres(points, ClustersFrom(points, i, used)) == Centres(points, ClustersFrom(points, i + 1, used))
    ensures i !in used ==>
            var m := Members(points, i, used, |points|);
            Centres(points, ClustersFrom(points, i, used)) ==
            [Centre(Pick(points, [i] + m))] + Centres(points, ClustersFrom(points, i + 1, UsedAfter(used, m)))
  {
    if i !in used {
      var m := Members(points, i, used, |points|);
      CentresAppend(points, ClustersFrom(points, i + 1, UsedAfter(used, m)), [i] + m);
    }
  }

  /** The inner loop: the seed's cluster of points, its member indices and
      the used set with the members added. */
  method GrowCluster(points: seq<Point>, i: nat, used: set<nat>)
    returns (cluster: seq<Point>, members: seq<nat>, used': set<nat>)
    requires i < |points|
    ensures members == Members(points, i, used, |points|)
    ensures used' == UsedAfter(used, members)
    ensures cluster == Pick(points, [i] + members)
  {
    cluster := [points[i]];
    members := [];
    used' := used;
    var j := i + 1;
    while j < |points|
      invariant i + 1 <= j <= |points|
      invariant members == Members(points, i, used, j)
      invariant used' == UsedAfter(used, members)
      invariant cluster == Pick(points, [i] + members)
      decreases |points| - j
    {
      GrowStep(points, i, used, j, members, used');
      if j in used' {
        j := j + 1;
        continue;
      }
      if Close(points[i], points[j]) {
        cluster := cluster + [points[j]];
        members := members + [j];
        used' := used' + {j};
      }
      j := j + 1;
    }
  }

  /** One step of the inner loop: index `j` is in the growing used set iff
      it was used before the round, and the member list grows by `j` iff
      `j` is unused and close to the seed. */
  lemma GrowStep(points: seq<Point>, i: nat, used: set<nat>, j: nat, members: seq<nat>, used': set<nat>)
    requires i < j < |points|
    requires members == Members(points, i, used, j)
    requires used' == UsedAfter(used, members)
    ensures j in used' <==> j in used
    ensures Members(points, i, used, j + 1) ==
            if j !in used && Close(points[i], points[j]) then members + [j] else members
    ensures UsedAfter(used, members + [j]) == used' + {j}
    ensures Pick(points, [i] + (members + [j])) == Pick(points, [i] + members) + [points[j]]
  {
    assert j !in members;
    assert [i] + (members + [j]) == ([i] + members) + [j];
  }

  /** Colour labels ranked in detection order. */
  function Rank(c: Colour): nat
  {
    match c
    case Orange => 0
    case Red => 1
    case Yellow => 2
  }

  function LabelOf(name: RangeName): Colour
  {
    MaskPixel(name, 0, 0, 0).1
  }

  /** `detect` after the image has been read and masked: the points of
      each colour in `DetectOrder`, concatenated and merged. `contoursOf`
      gives the measured contours of a colour's cleaned-up mask. */
  method Detect(contoursOf: RangeName -> seq<ContourMeasure>, sqrt: real -> real) returns (points: seq<Point>)
    ensures points == Merged(AllPoints(contoursOf, sqrt))
  {
    var allPoints: seq<Point> := [];
    for c := 0 to |DetectOrder|
      invariant allPoints == Gathered(contoursOf, sqrt, c)
    {
      var name := DetectOrder[c];
      var found := DetectPointsFromMask(contoursOf(name), LabelOf(name), sqrt);
      allPoints := allPoints + found;
    }
    points := MergeOverlappingPoints(allPoints);
  }

  /** The points of the first `c` colours of `DetectOrder`. */
  function Gathered(contoursOf: RangeName -> seq<ContourMeasure>, sqrt: real -> real, c: nat): seq<Point>
    requires c <= |DetectOrder|
  {
    if c == 0 then []
    else Gathered(contoursOf, sqrt, c - 1) +
         PointsFromMask(contoursOf(DetectOrder[c - 1]), LabelOf(DetectOrder[c - 1]), sqrt)
  }

  function AllPoints(contoursOf: RangeName -> seq<ContourMeasure>, sqrt: real -> real): seq<Point>
  {
    Gathered(contoursOf, sqrt, |DetectOrder|)
  }

  /** Before merging, points come orange first, then red, then yellow. */
  lemma AllPointsOrdered(contoursOf: RangeName -> seq<ContourMeasure>, sqrt: real -> real)
    ensures var ps := AllPoints(contoursOf, sqrt);
            forall a, b :: 0 <= a < b < |ps| ==> Rank(ps[a].colour) <= Rank(ps[b].colour)
  {
    var o := PointsFromMask(contoursOf(OrangeRange), Orange, sqrt);
    var r := PointsFromMask(contoursOf(Red1), Red, sqrt);
    var y := PointsFromMask(contoursOf(YellowRange), Yellow, sqrt);
    PointsFromMaskSpec(contoursOf(OrangeRange), Orange, sqrt);
    PointsFromMaskSpec(contoursOf(Red1), Red, sqrt);
    PointsFromMaskSpec(contoursOf(YellowRange), Yellow, sqrt);
    var ps := AllPoints(contoursOf, sqrt);
    assert LabelOf(Red1) == Red && LabelOf(OrangeRange) == Orange && LabelOf(YellowRange) == Yellow;
    assert Gathered(contoursOf, sqrt, 1) == [] + o;
    assert Gathered(contoursOf, sqrt, 2) == [] + o + r;
    assert ps == [] + o + r + y;
    forall a | 0 <= a < |ps| ensures Rank(ps[a].colour) == if a < |o| then 0 else if a < |o| + |r| then 1 else 2 {
      if a < |o| {
        assert ps[a] == o[a] && o[a] in o;
      } else if a < |o| + |r| {
        assert ps[a] == r[a - |o|] && r[a - |o|] in r;
      } else {
        assert ps[a] == y[a - |o| - |r|] && y[a - |o| - |r|] in y;
      }
    }
  }

  /** The merged points keep that order: a merged point takes its seed's
      colour, and seeds are increasing indices. */
  lemma MergedOrdered(points: seq<Point>)
    requires forall a, b :: 0 <= a < b < |points| ==> Rank(points[a].colour) <= Rank(points[b].colour)
    ensures var m := Merged(points);
            forall a, b :: 0 <= a < b < |m| ==> Rank(m[a].colour) <= Rank(m[b].colour)
  {
    if |points| > 1 {
      var cs := ClustersFrom(points, 0, {});
      ClustersPartition(points, 0, {});
      MergedSpec(points);
      var m := Merged(points);
      forall a, b | 0 <= a < b < |m| ensures Rank(m[a].colour) <= Rank(m[b].colour) {
        assert cs[a][0] < cs[b][0];
      }
    }
  }
}
