/** The minimap arrow detectors: the compass-sector mapping, the
    conversion of mathematical angles to game angles (0 = North,
    clockwise), the HSV detector's best-contour scan with its three
    direction methods (rotated rectangle, convex-hull tip with a
    furthest-point fallback, principal axis) and the rotated, rescaled
    template search.  Contour measurements, hull points, the principal
    axis, `arctan2`/`arccos` in degrees and template-matching scores are
    inputs: they come from OpenCV and numpy. */
module TestArrow {
  import opened GoInt
  import opened Wrappers
  import opened Selection

  datatype Cardinal = N | NE | E | SE | S | SW | W | NW

  const Directions: seq<Cardinal> := [N, NE, E, SE, S, SW, W, NW]

  /** `int((angle + 22.5) / 45) % 8`: Python's `int` truncates, and its `%`
      by a positive modulus agrees with Dafny's. */
  function CardinalIndex(angle: real): (i: int)
    ensures 0 <= i < 8
  {
    Trunc((angle + 22.5) / 45.0) % 8
  }

  function AngleToCardinal(angle: real): Cardinal
  {
    Directions[CardinalIndex(angle)]
  }

  /** The compass labels the sources rely on; below -22.5 the truncation
      toward zero (not a floor) still yields North. */
  lemma CardinalExamples()
    ensures AngleToCardinal(0.0) == N
    ensures AngleToCardinal(44.0) == NE
    ensures AngleToCardinal(90.0) == E
    ensures AngleToCardinal(180.0) == S
    ensures AngleToCardinal(359.0) == N
    ensures AngleToCardinal(-30.0) == N
  {
    assert Trunc(22.5 / 45.0) == 0;
    assert Trunc(66.5 / 45.0) == 1;
    assert Trunc(112.5 / 45.0) == 2;
    assert Trunc(202.5 / 45.0) == 4;
    assert Trunc(381.5 / 45.0) == 8;
    assert Trunc(-7.5 / 45.0) == 0;
  }

  /** Every sector [45k - 22.5, 45k + 22.5) of [0, 360) has one label; the
      last half-sector [337.5, 360) is the k = 8 case, which wraps to North. */
  lemma CardinalSector(angle: real, k: int)
    requires 0 <= k <= 8
    requires 45.0 * k as real - 22.5 <= angle < 45.0 * k as real + 22.5
    ensures AngleToCardinal(angle) == Directions[k % 8]
  {
    var y := (angle + 22.5) / 45.0;
    assert k as real <= y < k as real + 1.0;
    assert Trunc(y) == k;
  }

  /** Before the `% 8`, the truncated quotient of an angle in [0, 360) lies
      in [0, 8], and is 8 exactly on the last half-sector. */
  lemma CardinalRawIndex(angle: real)
    requires 0.0 <= angle < 360.0
    ensures 0 <= Trunc((angle + 22.5) / 45.0) <= 8
    ensures Trunc((angle + 22.5) / 45.0) == 8 <==> angle >= 337.5
  {
  }

  /** Python's float `x % 360`: the representative of x in [0, 360). */
  function Mod360(x: real): (r: real)
    ensures 0.0 <= r < 360.0
    ensures (x - r) / 360.0 == ((x - r) / 360.0).Floor as real
  {
    x - 360.0 * (x / 360.0).Floor as real
  }

  /** The representative is unique: any r in [0, 360) a whole number of
      turns away from x is the result. */
  lemma Mod360Unique(x: real, q: int, r: real)
    requires 0.0 <= r < 360.0
    requires x == 360.0 * q as real + r
    ensures Mod360(x) == r
  {
    assert q as real <= x / 360.0 < q as real + 1.0;
    assert (x / 360.0).Floor == q;
  }

  /** `(90 - math_angle) % 360`: from mathematical angles (0 = East,
      counter-clockwise) to game angles (0 = North, clockwise). */
  function GameAngle(mathAngle: real): (r: real)
    ensures 0.0 <= r < 360.0
  {
    Mod360(90.0 - mathAngle)
  }

  /** The conversion on one turn, and its period. */
  lemma GameAngleSpec(mathAngle: real)
    ensures -270.0 < mathAngle <= 90.0 ==> GameAngle(mathAngle) == 90.0 - mathAngle
    ensures GameAngle(mathAngle + 360.0) == GameAngle(mathAngle)
  {
    if -270.0 < mathAngle <= 90.0 {
      Mod360Unique(90.0 - mathAngle, 0, 90.0 - mathAngle);
    }
    var x := 90.0 - mathAngle;
    var r := Mod360(x);
    var q := (x / 360.0).Floor;
    assert x == 360.0 * q as real + r;
    Mod360Unique(x - 360.0, q - 1, r);
  }

  /** OpenCV's rotated rectangle: size and angle in degrees. */
  datatype RotatedRect = RotatedRect(w: real, h: real, angle: real)

  /** The rotated-rectangle direction: a taller-than-wide rectangle has
      its angle turned by 90 degrees before conversion. */
  function DirectionMinAreaRect(rect: RotatedRect): (r: real)
    ensures 0.0 <= r < 360.0
    ensures rect.w < rect.h ==> r == Mod360(-rect.angle)
  {
    var angle := if rect.w < rect.h then rect.angle + 90.0 else rect.angle;
    assert rect.w < rect.h ==> 90.0 - angle == -rect.angle;
    GameAngle(angle)
  }

  datatype Pt = Pt(x: int, y: int)

  /** The floating-point primitives, as functions of their arguments:
      `degrees(arctan2(dy, dx))`, the angle in degrees between two integer
      vectors (`degrees(arccos(clip(cos)))`), and the Euclidean length
      `sqrt(dx**2 + dy**2)`. */
  datatype Trig = Trig(atan2Deg: (real, real) -> real, cornerDeg: (int, int, int, int) -> real, norm: (real, real) -> real)

  /** What OpenCV measures of one contour: area, bounding rectangle,
      moments, minimum-area rectangle, convex hull points (in hull order),
      whether `convexityDefects` raised, and the principal axis's
      mathematical angle. */
  datatype Contour = Contour(
    area: real, boxX: int, boxY: int, boxW: int, boxH: int,
    m00: real, m10: real, m01: real,
    rect: RotatedRect, hull: seq<Pt>, defectsFail: bool, axisAngle: real)

  /** Hull vertex i as a tip candidate: its neighbours are the previous
      (cyclically, as Python's index -1 does) and the next hull points
      (cyclically, as `% len` does); a
      vertex with a zero-length neighbour vector is skipped.  The key is
      the negated corner angle, so the sharpest corner is the largest key. */
  function CornerAt(hull: seq<Pt>, i: nat, trig: Trig): (c: Option<(Pt, real)>)
    requires i < |hull|
    ensures c.Some? <==> hull[if i == 0 then |hull| - 1 else i - 1] != hull[i] && hull[if i + 1 == |hull| then 0 else i + 1] != hull[i]
    ensures c.Some? ==> c.value.0 == hull[i]
  {
    var p1 := hull[if i == 0 then |hull| - 1 else i - 1];
    var p2 := hull[i];
    var p3 := hull[if i + 1 == |hull| then 0 else i + 1];
    var v1 := (p1.x - p2.x, p1.y - p2.y);
    var v2 := (p3.x - p2.x, p3.y - p2.y);
    if v1 == (0, 0) || v2 == (0, 0) then None
    else Some((p2, -trig.cornerDeg(v1.0, v1.1, v2.0, v2.1)))
  }

  /** The tip candidates of the first k hull vertices. */
  function Corners(hull: seq<Pt>, trig: Trig, k: nat): (r: seq<Option<(Pt, real)>>)
    requires k <= |hull|
    ensures |r| == k
    ensures forall i :: 0 <= i < k ==> r[i] == CornerAt(hull, i, trig)
  {
    if k == 0 then [] else Corners(hull, trig, k - 1) + [CornerAt(hull, k - 1, trig)]
  }

  /** Distance from the centroid. */
  function Dist(p: Pt, cx: real, cy: real, trig: Trig): real
  {
    trig.norm(p.x as real - cx, p.y as real - cy)
  }

  function FurthestCandidates(hull: seq<Pt>, cx: real, cy: real, trig: Trig, k: nat): (r: seq<Option<(Pt, real)>>)
    requires k <= |hull|
    ensures |r| == k
    ensures forall i :: 0 <= i < k ==> r[i] == Some((hull[i], Dist(hull[i], cx, cy, trig)))
  {
    if k == 0 then [] else FurthestCandidates(hull, cx, cy, trig, k - 1) + [Some((hull[k - 1], Dist(hull[k - 1], cx, cy, trig)))]
  }

  /** The direction from the centroid to a point. */
  function Towards(p: Pt, cx: real, cy: real, trig: Trig): real
  {
    GameAngle(trig.atan2Deg(p.y as real - cy, p.x as real - cx))
  }

  /** The fallback: the first hull point strictly further than all before
      it (and than 0); no such point means no direction. */
  function Furthest(hull: seq<Pt>, cx: real, cy: real, trig: Trig): Option<real>
  {
    var tip := Scan(FurthestCandidates(hull, cx, cy, trig, |hull|), Some(0.0)).0;
    if tip.Some? then Some(Towards(tip.value, cx, cy, trig)) else None
  }

  /** The fallback gives up only when every hull point sits on the
      centroid (at distance 0 or less). */
  lemma FurthestNone(hull: seq<Pt>, cx: real, cy: real, trig: Trig)
    ensures Furthest(hull, cx, cy, trig).None? <==> forall i :: 0 <= i < |hull| ==> Dist(hull[i], cx, cy, trig) <= 0.0
  {
    var s := FurthestCandidates(hull, cx, cy, trig, |hull|);
    ScanFinds(s, Some(0.0));
    if exists i :: 0 <= i < |hull| && Dist(hull[i], cx, cy, trig) > 0.0 {
      var i :| 0 <= i < |hull| && Dist(hull[i], cx, cy, trig) > 0.0;
      assert s[i].Some? && Beats(s[i].value.1, Some(0.0));
    }
  }

  /** The fallback points at a hull point that no other is further from. */
  lemma FurthestIsFurthest(hull: seq<Pt>, cx: real, cy: real, trig: Trig)
    requires Furthest(hull, cx, cy, trig).Some?
    ensures exists j :: 0 <= j < |hull| && Furthest(hull, cx, cy, trig) == Some(Towards(hull[j], cx, cy, trig)) &&
                        forall i :: 0 <= i < |hull| ==> Dist(hull[i], cx, cy, trig) <= Dist(hull[j], cx, cy, trig)
  {
    var s := FurthestCandidates(hull, cx, cy, trig, |hull|);
    var j := ScanSpec(s, Some(0.0));
    assert s[j] == Some((hull[j], Dist(hull[j], cx, cy, trig)));
    forall i | 0 <= i < |hull| ensures Dist(hull[i], cx, cy, trig) <= Dist(hull[j], cx, cy, trig) {
      assert s[i].Some?;
    }
  }

  /** The convex-hull direction: none without area or with fewer than 3
      hull points; the furthest point when the defect computation fails,
      when no vertex has two proper neighbours, or when the sharpest
      corner is wider than 120 degrees; otherwise towards the sharpest
      corner (the first one on ties). */
  function DirectionConvexHull(c: Contour, trig: Trig): Option<real>
  {
    if c.m00 == 0.0 then None
    else
      var cx := c.m10 / c.m00;
      var cy := c.m01 / c.m00;
      if |c.hull| < 3 then None
      else if c.defectsFail then Furthest(c.hull, cx, cy, trig)
      else
        var scan := Scan(Corners(c.hull, trig, |c.hull|), None);
        var tip := scan.0;
        var level := scan.1;
        if tip.None? || level.None? || -level.value > 120.0 then Furthest(c.hull, cx, cy, trig)
        else Some(Towards(tip.value, cx, cy, trig))
  }

  /** The tip search keeps nothing exactly when no hull vertex is a
      proper corner (both neighbours distinct from it). */
  lemma TipExists(hull: seq<Pt>, trig: Trig)
    ensures Scan(Corners(hull, trig, |hull|), None).0.None? <==> forall i :: 0 <= i < |hull| ==> CornerAt(hull, i, trig).None?
  {
    var j := ScanSpec(Corners(hull, trig, |hull|), None);
  }

  /** The kept tip is a proper corner whose angle, the final minimum, is
      no larger than any other proper corner's and strictly smaller than
      any earlier one's. */
  lemma TipIsSharpest(hull: seq<Pt>, trig: Trig)
    requires Scan(Corners(hull, trig, |hull|), None).0.Some?
    ensures exists j :: IsFirstBest(Corners(hull, trig, |hull|), None, j) &&
                        Scan(Corners(hull, trig, |hull|), None) == (Some(hull[j]), Some(CornerAt(hull, j, trig).value.1))
  {
    var j := ScanSpec(Corners(hull, trig, |hull|), None);
  }

  const MethodNames: seq<string> := ["MinAreaRect", "ConvexHull", "PCA"]

  /** Direction methods 0, 1 and 2; any other number gives no direction.
      Every direction found is a game angle in [0, 360). */
  function CalculateDirection(c: Contour, directionMethod: int, trig: Trig): (r: Option<real>)
    ensures r.Some? ==> 0 <= directionMethod <= 2 && 0.0 <= r.value < 360.0
    ensures directionMethod == 0 || directionMethod == 2 ==> r.Some?
  {
    if directionMethod == 0 then Some(DirectionMinAreaRect(c.rect))
    else if directionMethod == 1 then DirectionConvexHull(c, trig)
    else if directionMethod == 2 then Some(GameAngle(c.axisAngle))
    else None
  }

  /** The detector's answer for one contour. */
  datatype Arrow = Arrow(
    x: int, y: int, angle: real, cardinal: Cardinal, methodName: string,
    area: int, width: int, height: int, aspectRatio: real, confidence: real)

  datatype HsvParams = HsvParams(minArea: real, maxArea: real, directionMethod: int)

  /** A contour as a candidate arrow, scored by its area: it needs an area
      within the window, a non-zero area moment and a direction. */
  function HsvCandidate(c: Contour, p: HsvParams, trig: Trig): (r: Option<(Arrow, real)>)
    ensures r.Some? <==> p.minArea <= c.area <= p.maxArea && c.m00 != 0.0 && CalculateDirection(c, p.directionMethod, trig).Some?
    ensures r.Some? ==> r.value.1 == c.area && 0.0 <= r.value.0.angle < 360.0 &&
                        r.value.0.cardinal == AngleToCardinal(r.value.0.angle) &&
                        r.value.0.confidence <= 1.0 &&
                        (c.area <= 2000.0 ==> r.value.0.confidence == c.area / 2000.0)
  {
    if c.area < p.minArea || c.area > p.maxArea then None
    else if c.m00 == 0.0 then None
    else
      match CalculateDirection(c, p.directionMethod, trig)
      case None => None
      case Some(d) =>
        var angle := if d < 0.0 then d + 360.0 else d;
        var arrow := Arrow(
          Trunc(c.m10 / c.m00), Trunc(c.m01 / c.m00), angle, AngleToCardinal(angle), MethodNames[p.directionMethod],
          Trunc(c.area), c.boxW, c.boxH, if c.boxH > 0 then c.boxW as real / c.boxH as real else 0.0,
          if 1.0 < c.area / 2000.0 then 1.0 else c.area / 2000.0);
        Some((arrow, c.area))
  }

  function HsvCandidates(cs: seq<Contour>, p: HsvParams, trig: Trig): (r: seq<Option<(Arrow, real)>>)
    ensures |r| == |cs|
    ensures forall i :: 0 <= i < |cs| ==> r[i] == HsvCandidate(cs[i], p, trig)
  {
    if cs == [] then [] else HsvCandidates(cs[..|cs| - 1], p, trig) + [HsvCandidate(cs[|cs| - 1], p, trig)]
  }

  /** The HSV detector's choice: the running maximum starts at 0 and only
      a strictly larger area replaces it.  None is `{'found': False}`. */
  function HsvDetect(cs: seq<Contour>, p: HsvParams, trig: Trig): Option<Arrow>
  {
    Scan(HsvCandidates(cs, p, trig), Some(0.0)).0
  }

  /** The chosen arrow comes from an accepted contour of positive area
      that is at least as large as every accepted contour and strictly
      larger than every accepted one before it; nothing is found exactly
      when no accepted contour has positive area. */
  lemma HsvDetectSpec(cs: seq<Contour>, p: HsvParams, trig: Trig)
    ensures HsvDetect(cs, p, trig).Some? <==> exists j :: 0 <= j < |cs| && HsvCandidate(cs[j], p, trig).Some? && cs[j].area > 0.0
    ensures HsvDetect(cs, p, trig).Some? ==>
            exists j :: 0 <= j < |cs| && HsvCandidate(cs[j], p, trig) == Some((HsvDetect(cs, p, trig).value, cs[j].area)) &&
                        cs[j].area > 0.0 &&
                        (forall i :: 0 <= i < |cs| && HsvCandidate(cs[i], p, trig).Some? ==> cs[i].area <= cs[j].area) &&
                        (forall i :: 0 <= i < j && HsvCandidate(cs[i], p, trig).Some? ==> cs[i].area < cs[j].area)
  {
    var s := HsvCandidates(cs, p, trig);
    var j := ScanSpec(s, Some(0.0));
    if HsvDetect(cs, p, trig).Some? {
      assert HsvCandidate(cs[j], p, trig) == Some((HsvDetect(cs, p, trig).value, cs[j].area));
    } else {
      forall i | 0 <= i < |cs| && HsvCandidate(cs[i], p, trig).Some? ensures cs[i].area <= 0.0 {
        assert s[i].Some?;
      }
    }
  }

  /** The angle at hull vertex i, or None when a neighbour coincides with it. */
  method CornerAngle(hull: seq<Pt>, i: nat, trig: Trig) returns (p2: Pt, angle: Option<real>)
    requires i < |hull|
    ensures CornerAt(hull, i, trig) == if angle.Some? then Some((p2, -angle.value)) else None
  {
    var p1 := hull[if i == 0 then |hull| - 1 else i - 1];
    p2 := hull[i];
    var p3 := hull[if i + 1 == |hull| then 0 else i + 1];
    var v1 := (p1.x - p2.x, p1.y - p2.y);
    var v2 := (p3.x - p2.x, p3.y - p2.y);
    if v1 == (0, 0) || v2 == (0, 0) {
      return p2, None;
    }
    angle := Some(trig.cornerDeg(v1.0, v1.1, v2.0, v2.1));
  }

  /** The tip search over the hull vertices; `minAngle` None stands for
      the initial infinity. */
  method SharpestCorner(hull: seq<Pt>, trig: Trig) returns (tip: Option<Pt>, minAngle: Option<real>)
    ensures (tip, Negated(minAngle)) == Scan(Corners(hull, trig, |hull|), None)
  {
    ghost var s := Corners(hull, trig, |hull|);
    tip, minAngle := None, None;
    var i := 0;
    while i < |hull|
      invariant 0 <= i <= |hull|
      invariant (tip, Negated(minAngle)) == ScanPrefix(s, i, None)
    {
      var p2, angle := CornerAngle(hull, i, trig);
      ghost var state := (tip, Negated(minAngle));
      if angle.Some? && (minAngle.None? || angle.value < minAngle.value) {
        minAngle := angle;
        tip := Some(p2);
      }
      SharpestStep(s, i, state, (tip, Negated(minAngle)), p2, angle);
      i := i + 1;
    }
    ScanWhole(s, None);
  }

  /** One vertex of the tip search is one step of the scan on negated
      angles: a smaller angle is a larger negated key. */
  lemma SharpestStep(s: seq<Option<(Pt, real)>>, i: nat, state: (Option<Pt>, Option<real>),
                     next: (Option<Pt>, Option<real>), p2: Pt, angle: Option<real>)
    requires i < |s| && state == ScanPrefix(s, i, None)
    requires s[i] == if angle.Some? then Some((p2, -angle.value)) else None
    requires var minAngle := Negated(state.1);
             next == if angle.Some? && (minAngle.None? || angle.value < minAngle.value)
                     then (Some(p2), Negated(angle)) else state
    ensures next == ScanPrefix(s, i + 1, None)
  {
  }

  function Negated(x: Option<real>): Option<real>
  {
    if x.Some? then Some(-x.value) else None
  }

  /** The furthest-point search over the hull points. */
  method FurthestPoint(hull: seq<Pt>, cx: real, cy: real, trig: Trig) returns (angle: Option<real>)
    ensures angle == Furthest(hull, cx, cy, trig)
  {
    ghost var s := FurthestCandidates(hull, cx, cy, trig, |hull|);
    var maxDist := 0.0;
    var tip: Option<Pt> := None;
    var i := 0;
    while i < |hull|
      invariant 0 <= i <= |hull|
      invariant (tip, Some(maxDist)) == ScanPrefix(s, i, Some(0.0))
    {
      var d := Dist(hull[i], cx, cy, trig);
      if d > maxDist {
        maxDist := d;
        tip := Some(hull[i]);
      }
      i := i + 1;
    }
    ScanWhole(s, Some(0.0));
    if tip.None? {
      return None;
    }
    angle := Some(Towards(tip.value, cx, cy, trig));
  }

  method DirectionConvexHullOf(c: Contour, trig: Trig) returns (angle: Option<real>)
    ensures angle == DirectionConvexHull(c, trig)
  {
    if c.m00 == 0.0 {
      return None;
    }
    var cx := c.m10 / c.m00;
    var cy := c.m01 / c.m00;
    if |c.hull| < 3 {
      return None;
    }
    if c.defectsFail {
      angle := FurthestPoint(c.hull, cx, cy, trig);
      return;
    }
    var tip, minAngle := SharpestCorner(c.hull, trig);
    if tip.None? || minAngle.None? || minAngle.value > 120.0 {
      angle := FurthestPoint(c.hull, cx, cy, trig);
    } else {
      angle := Some(Towards(tip.value, cx, cy, trig));
    }
  }

  method CalculateDirectionOf(c: Contour, directionMethod: int, trig: Trig) returns (angle: Option<real>)
    ensures angle == CalculateDirection(c, directionMethod, trig)
  {
    if directionMethod == 0 {
      angle := Some(DirectionMinAreaRect(c.rect));
    } else if directionMethod == 1 {
      angle := DirectionConvexHullOf(c, trig);
    } else if directionMethod == 2 {
      angle := Some(GameAngle(c.axisAngle));
    } else {
      angle := None;
    }
  }

  /** The HSV detector's work on one contour, up to its score. */
  method ContourCandidate(c: Contour, p: HsvParams, trig: Trig) returns (cand: Option<(Arrow, real)>)
    ensures cand == HsvCandidate(c, p, trig)
  {
    if c.area < p.minArea || c.area > p.maxArea || c.m00 == 0.0 {
      return None;
    }
    var cx := Trunc(c.m10 / c.m00);
    var cy := Trunc(c.m01 / c.m00);
    var angle := CalculateDirectionOf(c, p.directionMethod, trig);
    if angle.None? {
      return None;
    }
    var a := angle.value;
    if a < 0.0 {
      a := a + 360.0;
    }
    var score := c.area;
    var arrow := Arrow(
      cx, cy, a, AngleToCardinal(a), MethodNames[p.directionMethod],
      Trunc(c.area), c.boxW, c.boxH, if c.boxH > 0 then c.boxW as real / c.boxH as real else 0.0,
      if 1.0 < score / 2000.0 then 1.0 else score / 2000.0);
    cand := Some((arrow, score));
  }

  /** The HSV detector's contour loop. */
  method DetectHsv(cs: seq<Contour>, p: HsvParams, trig: Trig) returns (best: Option<Arrow>)
    ensures best == HsvDetect(cs, p, trig)
  {
    ghost var s := HsvCandidates(cs, p, trig);
    best := None;
    var maxScore := 0.0;
    var i := 0;
    while i < |cs|
      invariant 0 <= i <= |cs|
      invariant (best, Some(maxScore)) == ScanPrefix(s, i, Some(0.0))
    {
      var cand := ContourCandidate(cs[i], p, trig);
      if cand.Some? && cand.value.1 > maxScore {
        maxScore := cand.value.1;
        best := Some(cand.value.0);
      }
      i := i + 1;
    }
    ScanWhole(s, Some(0.0));
  }

  /** Python's `range(start, end, step)` for a non-zero step. */
  function PyRange(start: int, end: int, step: int): (r: seq<int>)
    requires step != 0
    ensures forall k :: 0 <= k < |r| ==> r[k] == start + k * step
    ensures forall k :: 0 <= k < |r| ==> (step > 0 ==> r[k] < end) && (step < 0 ==> r[k] > end)
    ensures step > 0 ==> start + |r| * step >= end
    ensures step < 0 ==> start + |r| * step <= end
    decreases if step > 0 then end - start else start - end
  {
    if (step > 0 && start < end) || (step < 0 && start > end) then
      var rest := PyRange(start + step, end, step);
      assert forall k :: 0 <= k < |rest| ==> rest[k] == start + (k + 1) * step by {
        forall k | 0 <= k < |rest| ensures rest[k] == start + (k + 1) * step {
          assert (k + 1) * step == k * step + step;
        }
      }
      assert (|rest| + 1) * step == |rest| * step + step;
      [start] + rest
    else []
  }

  /** The image's size, the resized template's size for a scale
      (`int(tw * scale)`, `int(th * scale)`, computed in floating point),
      and the matcher: `matchAt(angle, scale)` is the best normalised
      correlation of the rotated, resized template over the image and
      where it lies. */
  datatype TemplateSearch = TemplateSearch(sizeAt: real -> (int, int), imageW: int, imageH: int, matchAt: (int, real) -> (real, Pt))

  datatype TemplateMatch = TemplateMatch(
    x: int, y: int, angle: real, cardinal: Cardinal,
    score: real, scale: real, width: int, height: int, confidence: real)

  /** One (angle, scale) step: skipped when the resized template is under
      5 pixels or larger than the image; otherwise a match centred on the
      best location, scored by the correlation. */
  function TemplateCandidate(s: TemplateSearch, angle: int, scale: real): (r: Option<(TemplateMatch, real)>)
    ensures r.Some? <==> 5 <= s.sizeAt(scale).0 <= s.imageW && 5 <= s.sizeAt(scale).1 <= s.imageH
    ensures r.Some? ==> r.value.1 == r.value.0.score == r.value.0.confidence && r.value.0.angle == angle as real &&
                        5 <= r.value.0.width <= s.imageW && 5 <= r.value.0.height <= s.imageH
  {
    var newW := s.sizeAt(scale).0;
    var newH := s.sizeAt(scale).1;
    if newW < 5 || newH < 5 || newW > s.imageW || newH > s.imageH then None
    else
      var best := s.matchAt(angle, scale);
      Some((TemplateMatch(best.1.x + newW / 2, best.1.y + newH / 2, angle as real, AngleToCardinal(angle as real),
                          best.0, scale, newW, newH, best.0), best.0))
  }

  function AngleCandidates(s: TemplateSearch, angle: int, scales: seq<real>): (r: seq<Option<(TemplateMatch, real)>>)
    ensures |r| == |scales|
    ensures forall b :: 0 <= b < |scales| ==> r[b] == TemplateCandidate(s, angle, scales[b])
  {
    if scales == [] then [] else AngleCandidates(s, angle, scales[..|scales| - 1]) + [TemplateCandidate(s, angle, scales[|scales| - 1])]
  }

  /** The candidates in search order: angles outside, scales inside. */
  function AllCandidates(s: TemplateSearch, angles: seq<int>, scales: seq<real>): seq<Option<(TemplateMatch, real)>>
  {
    if angles == [] then [] else AllCandidates(s, angles[..|angles| - 1], scales) + AngleCandidates(s, angles[|angles| - 1], scales)
  }

  /** Every candidate comes from one (angle, scale) pair of the search. */
  lemma {:induction false} CandidateOrigin(s: TemplateSearch, angles: seq<int>, scales: seq<real>, j: nat)
    requires j < |AllCandidates(s, angles, scales)|
    ensures exists a, b :: 0 <= a < |angles| && 0 <= b < |scales| &&
                           AllCandidates(s, angles, scales)[j] == TemplateCandidate(s, angles[a], scales[b])
  {
    var front := angles[..|angles| - 1];
    var n := |AllCandidates(s, front, scales)|;
    if j < n {
      CandidateOrigin(s, front, scales, j);
      var a, b :| 0 <= a < |front| && 0 <= b < |scales| &&
                  AllCandidates(s, front, scales)[j] == TemplateCandidate(s, front[a], scales[b]);
      assert angles[a] == front[a];
    } else {
      var b := j - n;
      assert AllCandidates(s, angles, scales)[j] == TemplateCandidate(s, angles[|angles| - 1], scales[b]);
    }
  }

  /** The template detector's choice: the running best starts at the
      threshold and only a strictly larger score replaces it.  Without a
      template nothing is found. */
  function TemplateDetect(s: TemplateSearch, hasTemplate: bool, threshold: real, angles: seq<int>, scales: seq<real>): Option<TemplateMatch>
  {
    if !hasTemplate then None else Scan(AllCandidates(s, angles, scales), Some(threshold)).0
  }

  /** A found match scores strictly above the threshold, at least as well
      as every candidate of the search, and is the candidate of one of the
      searched (angle, scale) pairs. */
  lemma TemplateDetectSpec(s: TemplateSearch, hasTemplate: bool, threshold: real, angles: seq<int>, scales: seq<real>)
    ensures var m := TemplateDetect(s, hasTemplate, threshold, angles, scales);
            m.Some? ==>
              hasTemplate && m.value.score > threshold && m.value.confidence == m.value.score &&
              (forall i :: 0 <= i < |AllCandidates(s, angles, scales)| && AllCandidates(s, angles, scales)[i].Some? ==>
                 AllCandidates(s, angles, scales)[i].value.0.score <= m.value.score) &&
              exists a, b :: 0 <= a < |angles| && 0 <= b < |scales| &&
                             TemplateCandidate(s, angles[a], scales[b]) == Some((m.value, m.value.score))
    ensures var m := TemplateDetect(s, hasTemplate, threshold, angles, scales);
            m.None? && hasTemplate ==>
              forall i :: 0 <= i < |AllCandidates(s, angles, scales)| && AllCandidates(s, angles, scales)[i].Some? ==>
                AllCandidates(s, angles, scales)[i].value.0.score <= threshold
  {
    var all := AllCandidates(s, angles, scales);
    if hasTemplate {
      var j := ScanSpec(all, Some(threshold));
      forall i | 0 <= i < |all| && all[i].Some? ensures all[i].value.1 == all[i].value.0.score {
        CandidateOrigin(s, angles, scales, i);
      }
      if Scan(all, Some(threshold)).0.Some? {
        CandidateOrigin(s, angles, scales, j);
      }
    }
  }

  lemma TemplateScanStep(s: TemplateSearch, before: seq<Option<(TemplateMatch, real)>>, angle: int, scales: seq<real>, j: nat, init: Option<real>)
    requires j < |scales|
    ensures Scan(before + AngleCandidates(s, angle, scales[..j + 1]), init) ==
            Keep(Scan(before + AngleCandidates(s, angle, scales[..j]), init), TemplateCandidate(s, angle, scales[j]))
  {
    var seen := before + AngleCandidates(s, angle, scales[..j]);
    assert scales[..j + 1][..j] == scales[..j];
    assert before + AngleCandidates(s, angle, scales[..j + 1]) == seen + [TemplateCandidate(s, angle, scales[j])];
    ScanStep(seen, TemplateCandidate(s, angle, scales[j]), init);
  }

  lemma AllCandidatesStep(s: TemplateSearch, angles: seq<int>, scales: seq<real>, i: nat)
    requires i < |angles|
    ensures AllCandidates(s, angles[..i + 1], scales) == AllCandidates(s, angles[..i], scales) + AngleCandidates(s, angles[i], scales[..|scales|])
  {
    assert scales[..|scales|] == scales;
    assert angles[..i + 1][..i] == angles[..i];
  }

  /** One (angle, scale) step of the template search. */
  method MatchScaled(s: TemplateSearch, angle: int, scale: real) returns (cand: Option<(TemplateMatch, real)>)
    ensures cand == TemplateCandidate(s, angle, scale)
  {
    var newW := s.sizeAt(scale).0;
    var newH := s.sizeAt(scale).1;
    if newW < 5 || newH < 5 || newW > s.imageW || newH > s.imageH {
      return None;
    }
    var best := s.matchAt(angle, scale);
    var maxVal, maxLoc := best.0, best.1;
    cand := Some((TemplateMatch(maxLoc.x + newW / 2, maxLoc.y + newH / 2, angle as real, AngleToCardinal(angle as real),
                                maxVal, scale, newW, newH, maxVal), maxVal));
  }

  /** The template detector's nested angle and scale loops; `scales` is
      `np.arange(scale_min, scale_max + 0.1, 0.1)`. Without a template
      nothing is searched. With a template and an angle step of 0 (where
      the Angle_Step trackbar starts) `range` raises `ValueError`, which
      the model reports as `rangeError`. */
  method DetectTemplate(s: TemplateSearch, hasTemplate: bool, threshold: real,
                        angleStart: int, angleEnd: int, angleStep: int, scales: seq<real>)
    returns (best: Option<TemplateMatch>, rangeError: bool)
    ensures !hasTemplate ==> best.None? && !rangeError
    ensures hasTemplate && angleStep == 0 ==> best.None? && rangeError
    ensures angleStep != 0 ==>
              !rangeError && best == TemplateDetect(s, hasTemplate, threshold, PyRange(angleStart, angleEnd, angleStep), scales)
  {
    rangeError := false;
    if !hasTemplate {
      return None, false;
    }
    if angleStep == 0 {
      return None, true;
    }
    best := None;
    var bestScore := threshold;
    var angles := PyRange(angleStart, angleEnd, angleStep);
    var i := 0;
    while i < |angles|
      invariant 0 <= i <= |angles|
      invariant (best, Some(bestScore)) == Scan(AllCandidates(s, angles[..i], scales), Some(threshold))
    {
      var angle := angles[i];
      ghost var before := AllCandidates(s, angles[..i], scales);
      assert scales[..0] == [];
      assert before + AngleCandidates(s, angle, scales[..0]) == before;
      var j := 0;
      while j < |scales|
        invariant 0 <= j <= |scales|
        invariant (best, Some(bestScore)) == Scan(before + AngleCandidates(s, angle, scales[..j]), Some(threshold))
      {
        TemplateScanStep(s, before, angle, scales, j, Some(threshold));
        var cand := MatchScaled(s, angle, scales[j]);
        if cand.Some? && cand.value.1 > bestScore {
          bestScore := cand.value.1;
          best := Some(cand.value.0);
        }
        j := j + 1;
      }
      AllCandidatesStep(s, angles, scales, i);
      i := i + 1;
    }
    assert angles[..|angles|] == angles;
  }
}
