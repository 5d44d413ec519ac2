/** Geometric primitives, colours and the point cloud of data.go. */
module Data {
  import opened GoInt
  import opened Sorting

  datatype Point = Point(x: int, y: int)

  /** A rectangle given by its top-left corner, width and height. */
  datatype Bounds = Bounds(x: int, y: int, w: int, h: int)

  datatype MobType = Passive | Aggressive | Violet

  datatype Target = Target(kind: MobType, bounds: Bounds)

  type Byte = x: int | 0 <= x < 256

  datatype Color = Color(r: Byte, g: Byte, b: Byte)

  /** `Contains` is inclusive on all four edges. */
  predicate Contains(b: Bounds, p: Point)
  {
    b.x <= p.x <= b.x + b.w && b.y <= p.y <= b.y + b.h
  }

  function Center(b: Bounds): (p: Point)
    ensures b.w >= 0 && b.h >= 0 ==> Contains(b, p)
  {
    HalfBounds(b.w);
    HalfBounds(b.h);
    Point(b.x + Div(b.w, 2), b.y + Div(b.h, 2))
  }

  /** The middle of the bottom edge. */
  function BottomCenter(b: Bounds): (p: Point)
    ensures p.y == b.y + b.h
    ensures p.x == Center(b).x
    ensures b.w >= 0 && b.h >= 0 ==> Contains(b, p)
  {
    HalfBounds(b.w);
    Point(b.x + Div(b.w, 2), b.y + b.h)
  }

  function Size(b: Bounds): (s: int)
    ensures b.w >= 0 && b.h >= 0 ==> s >= 0
    ensures b.w == 0 || b.h == 0 ==> s == 0
  {
    b.w * b.h
  }

  /** Grows the rectangle by `amount` in width and height and moves the
      corner back by half of it (Go's truncating halving). */
  function Grow(b: Bounds, amount: int): (r: Bounds)
    ensures r.w == b.w + amount && r.h == b.h + amount
    ensures r.x == b.x - Div(amount, 2) && r.y == b.y - Div(amount, 2)
  {
    Bounds(b.x - Div(amount, 2), b.y - Div(amount, 2), b.w + amount, b.h + amount)
  }

  lemma GrowZero(b: Bounds)
    ensures Grow(b, 0) == b
  {
  }

  /** Growing by a non-negative amount never loses a point. */
  lemma GrowKeepsPoints(b: Bounds, amount: int, p: Point)
    requires amount >= 0 && Contains(b, p)
    ensures Contains(Grow(b, amount), p)
  {
    HalfBounds(amount);
  }

  /** The four corners of a well-formed rectangle are inside it. */
  lemma CornersContained(b: Bounds)
    requires b.w >= 0 && b.h >= 0
    ensures Contains(b, Point(b.x, b.y)) && Contains(b, Point(b.x + b.w, b.y))
    ensures Contains(b, Point(b.x, b.y + b.h)) && Contains(b, Point(b.x + b.w, b.y + b.h))
    ensures !Contains(b, Point(b.x - 1, b.y)) && !Contains(b, Point(b.x, b.y + b.h + 1))
  {
  }

  /** Where a target is clicked: the bottom centre of its name box. */
  function AttackCoords(t: Target): (p: Point)
    ensures p == BottomCenter(t.bounds)
    ensures t.bounds.w >= 0 && t.bounds.h >= 0 ==> Contains(t.bounds, p)
  {
    BottomCenter(t.bounds)
  }

  /** Absolute difference of two unsigned bytes, without wrap-around. */
  function AbsDiff(a: Byte, b: Byte): (d: Byte)
    ensures d == Abs(a - b)
  {
    if a > b then a - b else b - a
  }

  predicate Matches(c: Color, other: Color, tolerance: Byte)
  {
    AbsDiff(c.r, other.r) <= tolerance &&
    AbsDiff(c.g, other.g) <= tolerance &&
    AbsDiff(c.b, other.b) <= tolerance
  }

  lemma MatchesReflexive(c: Color, tolerance: Byte)
    ensures Matches(c, c, tolerance)
  {
  }

  lemma MatchesSymmetric(c: Color, other: Color, tolerance: Byte)
    ensures Matches(c, other, tolerance) <==> Matches(other, c, tolerance)
  {
  }

  /** Matching is a per-channel distance test on the integer values. */
  lemma MatchesPerChannel(c: Color, other: Color, tolerance: Byte)
    ensures Matches(c, other, tolerance) <==>
      (Abs(c.r - other.r) <= tolerance && Abs(c.g - other.g) <= tolerance &&
       Abs(c.b - other.b) <= tolerance)
  {
  }

  // ---------------------------------------------------------------------
  // Bounding box of a list of points

  function MinX(s: seq<Point>): int
    requires s != []
  {
    if |s| == 1 then s[0].x else Min(MinX(s[..|s| - 1]), s[|s| - 1].x)
  }

  function MaxX(s: seq<Point>): int
    requires s != []
  {
    if |s| == 1 then s[0].x else Max(MaxX(s[..|s| - 1]), s[|s| - 1].x)
  }

  function MinY(s: seq<Point>): int
    requires s != []
  {
    if |s| == 1 then s[0].y else Min(MinY(s[..|s| - 1]), s[|s| - 1].y)
  }

  function MaxY(s: seq<Point>): int
    requires s != []
  {
    if |s| == 1 then s[0].y else Max(MaxY(s[..|s| - 1]), s[|s| - 1].y)
  }

  /** The four extrema bound every point and are attained by one. */
  lemma {:induction false} Extrema(s: seq<Point>)
    requires s != []
    ensures forall p :: p in s ==> MinX(s) <= p.x <= MaxX(s) && MinY(s) <= p.y <= MaxY(s)
    ensures exists p :: p in s && p.x == MinX(s)
    ensures exists p :: p in s && p.x == MaxX(s)
    ensures exists p :: p in s && p.y == MinY(s)
    ensures exists p :: p in s && p.y == MaxY(s)
  {
    if |s| > 1 {
      var init := s[..|s| - 1];
      Extrema(init);
      assert s == init + [s[|s| - 1]];
      forall p | p in s
        ensures MinX(s) <= p.x <= MaxX(s) && MinY(s) <= p.y <= MaxY(s)
      {
        if p != s[|s| - 1] { assert p in init; }
      }
      var a :| a in init && a.x == MinX(init);
      var b :| b in init && b.x == MaxX(init);
      var c :| c in init && c.y == MinY(init);
      var d :| d in init && d.y == MaxY(init);
      assert a in s && b in s && c in s && d in s;
    } else {
      assert s[0] in s;
    }
  }

  /** The smallest rectangle holding every point; the zero rectangle for
      no points. */
  function BoundsOf(s: seq<Point>): Bounds
  {
    if s == [] then Bounds(0, 0, 0, 0)
    else Bounds(MinX(s), MinY(s), MaxX(s) - MinX(s), MaxY(s) - MinY(s))
  }

  /** BoundsOf is well-formed, holds every point and is tight: each of its
      edges touches one of the points. */
  lemma BoundsOfContainsAll(s: seq<Point>)
    ensures BoundsOf(s).w >= 0 && BoundsOf(s).h >= 0
    ensures forall p :: p in s ==> Contains(BoundsOf(s), p)
    ensures s != [] ==> exists p :: p in s && p.x == BoundsOf(s).x
    ensures s != [] ==> exists p :: p in s && p.x == BoundsOf(s).x + BoundsOf(s).w
    ensures s != [] ==> exists p :: p in s && p.y == BoundsOf(s).y
    ensures s != [] ==> exists p :: p in s && p.y == BoundsOf(s).y + BoundsOf(s).h
  {
    if s != [] {
      Extrema(s);
    }
  }

  /** BoundsOf depends only on which points there are, not on their order
      or repetition. */
  lemma {:induction false} BoundsOfBySet(s: seq<Point>, t: seq<Point>)
    requires forall p :: p in s <==> p in t
    ensures BoundsOf(s) == BoundsOf(t)
  {
    assert s == [] <==> t == [] by {
      if s != [] { assert s[0] in t; }
      if t != [] { assert t[0] in s; }
    }
    if s != [] {
      Extrema(s);
      Extrema(t);
      var a :| a in t && a.x == MinX(t);
      var b :| b in t && b.x == MaxX(t);
      var c :| c in t && c.y == MinY(t);
      var d :| d in t && d.y == MaxY(t);
      var a' :| a' in s && a'.x == MinX(s);
      var b' :| b' in s && b'.x == MaxX(s);
      var c' :| c' in s && c'.y == MinY(s);
      var d' :| d' in s && d'.y == MaxY(s);
      assert a in s && b in s && c in s && d in s;
      assert a' in t && b' in t && c' in t && d' in t;
      assert MinX(s) == MinX(t) && MaxX(s) == MaxX(t);
      assert MinY(s) == MinY(t) && MaxY(s) == MaxY(t);
    }
  }

  lemma ExtremaStep(s: seq<Point>, i: int)
    requires 0 < i < |s|
    ensures MinX(s[..i + 1]) == Min(MinX(s[..i]), s[i].x)
    ensures MaxX(s[..i + 1]) == Max(MaxX(s[..i]), s[i].x)
    ensures MinY(s[..i + 1]) == Min(MinY(s[..i]), s[i].y)
    ensures MaxY(s[..i + 1]) == Max(MaxY(s[..i]), s[i].y)
  {
    assert s[..i + 1][..i] == s[..i];
  }

  /** pointsToBounds: one pass updating the running minima and maxima. */
  method PointsToBounds(points: seq<Point>) returns (b: Bounds)
    ensures b == BoundsOf(points)
  {
    if |points| == 0 {
      return Bounds(0, 0, 0, 0);
    }
    var minX, minY := points[0].x, points[0].y;
    var maxX, maxY := points[0].x, points[0].y;
    var i := 0;
    while i < |points|
      invariant 0 <= i <= |points|
      invariant i == 0 ==> minX == maxX == points[0].x && minY == maxY == points[0].y
      invariant i > 0 ==> minX == MinX(points[..i]) && maxX == MaxX(points[..i])
      invariant i > 0 ==> minY == MinY(points[..i]) && maxY == MaxY(points[..i])
    {
      var p := points[i];
      if i > 0 { ExtremaStep(points, i); } else { assert points[..1] == [p]; }
      if p.x < minX { minX := p.x; }
      if p.x > maxX { maxX := p.x; }
      if p.y < minY { minY := p.y; }
      if p.y > maxY { maxY := p.y; }
      i := i + 1;
    }
    assert points[..i] == points;
    b := Bounds(minX, minY, maxX - minX, maxY - minY);
  }

  // ---------------------------------------------------------------------
  // Two-pass clustering

  /** The neighbour tests of `ClusterByDistance`. They compare a point with
      the one before it in a sorted copy, so the difference is never
      negative. */
  function NearX(distanceX: int): (Point, Point) -> bool
  {
    (p: Point, q: Point) => q.x - p.x <= distanceX
  }

  function NearY(distanceY: int): (Point, Point) -> bool
  {
    (p: Point, q: Point) => q.y - p.y <= distanceY
  }

  /** The boxes the second pass makes of X run `k` are exactly the pieces of
      its Y-sorted copy: together they hold that copy in order, every piece
      after the first starts more than `distanceY` below the end of the one
      before, and inside a piece no step is larger. So a box never ends
      while the next point is close, and two boxes of one X run are never
      close. */
  lemma BoxesOfOneRun(byY: seq<seq<Point>>, distanceY: int, k: int)
    requires 0 <= k < |byY| && byY[k] != []
    ensures var all, lo, hi := RunsEach(byY, NearY(distanceY)),
                               |RunsEach(byY[..k], NearY(distanceY))|,
                               |RunsEach(byY[..k + 1], NearY(distanceY))|;
            lo < hi <= |all| && YPieces(all[lo..hi], byY[k], distanceY)
  {
    var near := NearY(distanceY);
    var all: seq<seq<Point>> := RunsEach(byY, near);
    var lo, hi := |RunsEach(byY[..k], near)|, |RunsEach(byY[..k + 1], near)|;
    RunsEachBlock(byY, k, near);
    var piece: seq<seq<Point>> := all[lo..hi];
    forall c | 0 <= c < |piece|
      ensures forall i :: 0 < i < |piece[c]| ==> piece[c][i].y - piece[c][i - 1].y <= distanceY
    {
      assert Linked(piece[c], near);
    }
  }

  /** `pieces` cut `block` in order into non-empty pieces in which no step
      exceeds `distanceY`, each piece starting more than `distanceY` past
      the end of the one before. */
  ghost predicate YPieces(pieces: seq<seq<Point>>, block: seq<Point>, distanceY: int)
  {
    && pieces != []
    && Flatten(pieces) == block
    && (forall c :: 0 <= c < |pieces| ==> pieces[c] != [])
    && (forall c, i :: 0 <= c < |pieces| && 0 < i < |pieces[c]| ==>
          pieces[c][i].y - pieces[c][i - 1].y <= distanceY)
    && (forall c :: 0 < c < |pieces| ==>
          pieces[c][0].y - pieces[c - 1][|pieces[c - 1]| - 1].y > distanceY)
  }

  /** Clusters `points` in two passes: sort a copy by X and cut it into runs
      with `nearX`; then sort each X run by Y and cut it with `nearY`. Each
      Y run becomes one rectangle. Besides the rectangles the method returns
      what the passes build on the way: the X-sorted copy `byX`, its runs
      `xRuns`, the Y-sorted copy `byY[k]` of each X run and the Y runs
      `clusters`. */
  method TwoPassCluster(points: seq<Point>, nearX: (Point, Point) -> bool,
                        nearY: (Point, Point) -> bool)
    returns (result: seq<Bounds>, clusters: seq<seq<Point>>, byX: seq<Point>,
             xRuns: seq<seq<Point>>, byY: seq<seq<Point>>)
    ensures points == [] ==> result == [] && clusters == [] && xRuns == []
    ensures points != [] ==> SortedBy(byX, (p: Point) => p.x) && multiset(byX) == multiset(points)
    ensures points != [] ==> byX != [] && xRuns == Runs(byX, nearX)
    ensures |byY| == |xRuns|
    ensures forall k :: 0 <= k < |xRuns| ==>
              SortedBy(byY[k], (p: Point) => p.y) && multiset(byY[k]) == multiset(xRuns[k])
    ensures clusters == RunsEach(byY, nearY)
    ensures |result| == |clusters| <= |points|
    ensures multiset(Flatten(clusters)) == multiset(points)
    ensures forall k :: 0 <= k < |clusters| ==> GoodCluster(clusters[k], result[k], nearY)
    ensures forall p :: p in points ==> exists k :: 0 <= k < |result| && Contains(result[k], p)
  {
    result, clusters, byX, xRuns, byY := [], [], [], [], [];
    if |points| == 0 {
      return;
    }
    xRuns, byX := ClusterByX(points, nearX);
    RunsShape(byX, nearX);
    var k := 0;
    while k < |xRuns|
      invariant 0 <= k <= |xRuns|
      invariant |result| == |clusters| && |byY| == k
      invariant SortedCopies(byY, xRuns)
      invariant clusters == RunsEach(byY, nearY)
      invariant forall m :: 0 <= m < |clusters| ==> GoodCluster(clusters[m], result[m], nearY)
      invariant multiset(Flatten(clusters)) == multiset(Flatten(xRuns[..k]))
    {
      var bs, ys, sorted := ClusterByY(xRuns[k], nearY);
      AppendClusters(result, clusters, bs, ys, nearY);
      FlattenStep(clusters, ys, xRuns, k);
      RunsEachSnoc(byY, sorted, nearY);
      SortedCopiesSnoc(byY, xRuns, sorted);
      result, clusters, byY := result + bs, clusters + ys, byY + [sorted];
      k := k + 1;
    }
    assert xRuns[..k] == xRuns;
    RunsFlatten(byX, nearX);
    assert forall m :: 0 <= m < |xRuns| ==>
             SortedBy(byY[m], (p: Point) => p.y) && multiset(byY[m]) == multiset(xRuns[m]);
    CoverAll(points, result, clusters, nearY);
  }

  /** `byY` holds, one for each of the first blocks, a non-empty Y-sorted
      permutation of that block. */
  ghost predicate SortedCopies(byY: seq<seq<Point>>, blocks: seq<seq<Point>>)
  {
    && |byY| <= |blocks|
    && forall m :: 0 <= m < |byY| ==>
         byY[m] != [] && SortedBy(byY[m], (p: Point) => p.y) && multiset(byY[m]) == multiset(blocks[m])
  }

  lemma SortedCopiesSnoc(byY: seq<seq<Point>>, blocks: seq<seq<Point>>, next: seq<Point>)
    requires SortedCopies(byY, blocks) && |byY| < |blocks|
    requires next != [] && SortedBy(next, (p: Point) => p.y) && multiset(next) == multiset(blocks[|byY|])
    ensures SortedCopies(byY + [next], blocks)
  {
    var t := byY + [next];
    forall m | 0 <= m < |t|
      ensures t[m] != [] && SortedBy(t[m], (p: Point) => p.y) && multiset(t[m]) == multiset(blocks[m])
    {
      if m < |byY| {
        assert t[m] == byY[m];
      }
    }
  }

  /** The first pass: a copy of `points` sorted by X (returned as `byX`),
      cut into runs. */
  method ClusterByX(points: seq<Point>, nearX: (Point, Point) -> bool)
    returns (xClusters: seq<seq<Point>>, byX: seq<Point>)
    requires points != []
    ensures SortedBy(byX, (p: Point) => p.x) && multiset(byX) == multiset(points)
    ensures byX != [] && xClusters == Runs(byX, nearX)
  {
    var a := new Point[|points|](i requires 0 <= i < |points| => points[i]);
    assert a[..] == points;
    ExchangeSort(a, (p: Point) => p.x);
    byX := a[..];
    assert |multiset(byX)| == |multiset(points)|;
    xClusters := SplitRuns(byX, nearX);
  }

  /** One cluster of the second pass: non-empty, Y-sorted, linked by
      `nearY`, and `b` is its bounding box. */
  ghost predicate GoodCluster(c: seq<Point>, b: Bounds, nearY: (Point, Point) -> bool)
  {
    c != [] && b == BoundsOf(c) && SortedBy(c, (p: Point) => p.y) && Linked(c, nearY)
  }

  lemma AppendClusters(result: seq<Bounds>, clusters: seq<seq<Point>>,
                       bs: seq<Bounds>, ys: seq<seq<Point>>, nearY: (Point, Point) -> bool)
    requires |result| == |clusters| && |bs| == |ys|
    requires forall m :: 0 <= m < |clusters| ==> GoodCluster(clusters[m], result[m], nearY)
    requires forall m :: 0 <= m < |ys| ==> GoodCluster(ys[m], bs[m], nearY)
    ensures forall m :: 0 <= m < |clusters + ys| ==> GoodCluster((clusters + ys)[m], (result + bs)[m], nearY)
  {
    forall m | 0 <= m < |clusters + ys|
      ensures GoodCluster((clusters + ys)[m], (result + bs)[m], nearY)
    {
      if m >= |clusters| {
        assert (clusters + ys)[m] == ys[m - |clusters|];
        assert (result + bs)[m] == bs[m - |clusters|];
      }
    }
  }

  lemma CoverAll(points: seq<Point>, result: seq<Bounds>, clusters: seq<seq<Point>>,
                 nearY: (Point, Point) -> bool)
    requires |result| == |clusters|
    requires multiset(Flatten(clusters)) == multiset(points)
    requires forall k :: 0 <= k < |clusters| ==> GoodCluster(clusters[k], result[k], nearY)
    ensures |clusters| <= |points|
    ensures forall p :: p in points ==> exists k :: 0 <= k < |result| && Contains(result[k], p)
  {
    FlattenLength(clusters);
    assert |Flatten(clusters)| == |multiset(Flatten(clusters))| == |multiset(points)|;
    forall p | p in points
      ensures exists k :: 0 <= k < |result| && Contains(result[k], p)
    {
      assert p in multiset(Flatten(clusters));
      InFlatten(clusters, p);
      var j :| 0 <= j < |clusters| && p in clusters[j];
      BoundsOfContainsAll(clusters[j]);
    }
  }

  /** The second pass over one X run: sort a copy by Y (returned as
      `byY`), cut it into runs with `nearY`, box each run. */
  method ClusterByY(xc: seq<Point>, nearY: (Point, Point) -> bool)
    returns (bs: seq<Bounds>, ys: seq<seq<Point>>, byY: seq<Point>)
    requires xc != []
    ensures SortedBy(byY, (p: Point) => p.y) && multiset(byY) == multiset(xc) && |byY| == |xc|
    ensures byY != [] && ys == Runs(byY, nearY)
    ensures |bs| == |ys|
    ensures forall m :: 0 <= m < |ys| ==> GoodCluster(ys[m], bs[m], nearY)
    ensures multiset(Flatten(ys)) == multiset(xc)
  {
    byY := SortedCopyByY(xc);
    ys := SplitRuns(byY, nearY);
    RunsFlatten(byY, nearY);
    bs := [];
    var m := 0;
    while m < |ys|
      invariant 0 <= m <= |ys|
      invariant |bs| == m
      invariant forall q :: 0 <= q < m ==> GoodCluster(ys[q], bs[q], nearY)
    {
      RunIsGood(byY, nearY, m);
      var b := PointsToBounds(ys[m]);
      bs := bs + [b];
      m := m + 1;
    }
  }

  /** A run cut out of a Y-sorted sequence is non-empty, Y-sorted and
      linked. */
  lemma RunIsGood(s: seq<Point>, near: (Point, Point) -> bool, m: int)
    requires s != [] && SortedBy(s, (p: Point) => p.y)
    requires 0 <= m < |Runs(s, near)|
    ensures Runs(s, near)[m] != []
    ensures SortedBy(Runs(s, near)[m], (p: Point) => p.y)
    ensures Linked(Runs(s, near)[m], near)
  {
    RunOfSortedIsSorted(s, near, m);
    RunsLinked(s, near);
    RunsShape(s, near);
  }

  /** A copy of `s` exchange-sorted by Y. */
  method SortedCopyByY(s: seq<Point>) returns (r: seq<Point>)
    ensures SortedBy(r, (p: Point) => p.y)
    ensures multiset(r) == multiset(s) && |r| == |s|
  {
    var b := new Point[|s|](i requires 0 <= i < |s| => s[i]);
    assert b[..] == s;
    ExchangeSort(b, (p: Point) => p.y);
    r := b[..];
    assert |multiset(r)| == |multiset(s)|;
  }

  /** A run cut out of a Y-sorted sequence is Y-sorted. */
  lemma RunOfSortedIsSorted(s: seq<Point>, near: (Point, Point) -> bool, m: int)
    requires s != [] && SortedBy(s, (p: Point) => p.y)
    requires 0 <= m < |Runs(s, near)|
    ensures SortedBy(Runs(s, near)[m], (p: Point) => p.y)
  {
    var r := Runs(s, near);
    RunsFlatten(s, near);
    SubrunSorted(r, m);
  }

  lemma {:induction false} SubrunSorted(r: seq<seq<Point>>, m: int)
    requires 0 <= m < |r| && SortedBy(Flatten(r), (p: Point) => p.y)
    ensures SortedBy(r[m], (p: Point) => p.y)
  {
    var init := r[..|r| - 1];
    assert Flatten(r) == Flatten(init) + r[|r| - 1];
    if m == |r| - 1 {
      var off := |Flatten(init)|;
      forall p, q | 0 <= p < q < |r[m]| ensures r[m][p].y <= r[m][q].y {
        assert r[m][p] == Flatten(r)[off + p] && r[m][q] == Flatten(r)[off + q];
      }
    } else {
      forall p, q | 0 <= p < q < |Flatten(init)| ensures Flatten(init)[p].y <= Flatten(init)[q].y {
        assert Flatten(init)[p] == Flatten(r)[p] && Flatten(init)[q] == Flatten(r)[q];
      }
      SubrunSorted(init, m);
      assert init[m] == r[m];
    }
  }

  /** A mutable collection of pixel positions. */
  class PointCloud {
    var points: seq<Point>

    constructor ()
      ensures points == []
    {
      points := [];
    }

    method Add(p: Point)
      modifies this
      ensures points == old(points) + [p]
    {
      points := points + [p];
    }

    method Len() returns (n: int)
      ensures n == |points|
    {
      n := |points|;
    }

    method Clear()
      modifies this
      ensures points == []
    {
      points := points[..0];
    }

    method ToBounds() returns (b: Bounds)
      ensures b == BoundsOf(points)
    {
      b := PointsToBounds(points);
    }

    /** Groups the points into name boxes: the X-sorted copy `byX` is cut
        into runs `xRuns` wherever neighbours are more than `distanceX`
        apart; each run, sorted by Y into `byY[k]`, is cut wherever
        neighbours are more than `distanceY` apart, and each piece of
        `clusters` is boxed. Works on a copy; `points` is left as it is. */
    method ClusterByDistance(distanceX: int, distanceY: int)
      returns (result: seq<Bounds>, clusters: seq<seq<Point>>, byX: seq<Point>,
               xRuns: seq<seq<Point>>, byY: seq<seq<Point>>)
      ensures points == [] ==> result == []
      ensures points != [] ==> SortedBy(byX, (p: Point) => p.x) && multiset(byX) == multiset(points)
      ensures points != [] ==> RunsOf(xRuns, byX, NearX(distanceX))
      ensures |byY| == |xRuns|
      ensures forall k :: 0 <= k < |xRuns| ==>
                SortedBy(byY[k], (p: Point) => p.y) && multiset(byY[k]) == multiset(xRuns[k])
      ensures clusters == RunsEach(byY, NearY(distanceY))
      ensures |result| == |clusters| <= |points|
      ensures multiset(Flatten(clusters)) == multiset(points)
      ensures forall k :: 0 <= k < |clusters| ==>
                clusters[k] != [] && result[k] == BoundsOf(clusters[k])
      ensures forall k :: 0 <= k < |clusters| ==>
                forall i :: 0 < i < |clusters[k]| ==>
                  clusters[k][i - 1].y <= clusters[k][i].y <= clusters[k][i - 1].y + distanceY
      ensures forall p :: p in points ==> exists k :: 0 <= k < |result| && Contains(result[k], p)
    {
      result, clusters, byX, xRuns, byY := TwoPassCluster(points, NearX(distanceX), NearY(distanceY));
      if points != [] {
        RunsAreRunsOf(byX, NearX(distanceX));
      }
      forall k | 0 <= k < |clusters|
        ensures forall i :: 0 < i < |clusters[k]| ==>
                  clusters[k][i - 1].y <= clusters[k][i].y <= clusters[k][i - 1].y + distanceY
      {
        assert GoodCluster(clusters[k], result[k], NearY(distanceY));
      }
    }
  }
}
