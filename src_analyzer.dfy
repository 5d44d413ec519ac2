/** The OpenCV-based analyzer of src/analyzer.go, after the library calls:
    contour bounding rectangles, contour areas and mask pixel counts are
    inputs. Its avoidance list, rectangle overlap and closest-mob choice
    are the same code as analyzer.go and are modelled by module Analyzer. */
module SrcAnalyzer {
  import opened GoInt
  import opened Data
  import opened Wrappers
  import Analyzer

  /** A region of interest inside the HSV frame. */
  datatype ROI = ROI(x: int, y: int, width: int, height: int)

  /** image.Rectangle as returned by BoundingRect. */
  datatype Rect = Rect(minX: int, minY: int, maxX: int, maxY: int)

  function Dx(r: Rect): int { r.maxX - r.minX }
  function Dy(r: Rect): int { r.maxY - r.minY }

  /** The ROI lies inside a frame of `cols` x `rows` pixels. */
  predicate RoiInside(roi: ROI, cols: int, rows: int)
  {
    roi.x >= 0 && roi.y >= 0 && roi.x + roi.width <= cols && roi.y + roi.height <= rows
  }

  /** The contour filter of detectMobsByHSV for one rectangle: strictly
      between the name-width limits, translated to screen coordinates, and
      outside the HUD corner. */
  function KeepMobBox(rect: Rect, roi: ROI, minWidth: int, maxWidth: int): Option<Bounds>
  {
    if Dx(rect) > minWidth && Dx(rect) < maxWidth then
      var b := Bounds(roi.x + rect.minX, roi.y + rect.minY, Dx(rect), Dy(rect));
      if b.x <= 250 && b.y <= 110 then None else Some(b)
    else None
  }

  function KeptMobBoxes(rects: seq<Rect>, roi: ROI, minWidth: int, maxWidth: int): (r: seq<Bounds>)
    ensures |r| <= |rects|
  {
    if rects == [] then []
    else
      KeptMobBoxes(rects[..|rects| - 1], roi, minWidth, maxWidth) +
      (match KeepMobBox(rects[|rects| - 1], roi, minWidth, maxWidth)
       case Some(b) => [b]
       case None => [])
  }

  /** Every kept box has a width strictly between the limits, is not in
      the HUD corner, and is the translation of an input rectangle that
      passes the filter. */
  lemma {:induction false} KeptMobBoxesSound(rects: seq<Rect>, roi: ROI, minWidth: int, maxWidth: int)
    ensures forall b :: b in KeptMobBoxes(rects, roi, minWidth, maxWidth) ==>
              minWidth < b.w < maxWidth && !(b.x <= 250 && b.y <= 110) &&
              exists r :: r in rects && b == Bounds(roi.x + r.minX, roi.y + r.minY, Dx(r), Dy(r))
  {
    if rects != [] {
      var init := rects[..|rects| - 1];
      var last := rects[|rects| - 1];
      KeptMobBoxesSound(init, roi, minWidth, maxWidth);
      forall b | b in KeptMobBoxes(rects, roi, minWidth, maxWidth)
        ensures minWidth < b.w < maxWidth && !(b.x <= 250 && b.y <= 110) &&
                exists r :: r in rects && b == Bounds(roi.x + r.minX, roi.y + r.minY, Dx(r), Dy(r))
      {
        if b in KeptMobBoxes(init, roi, minWidth, maxWidth) {
          var r :| r in init && b == Bounds(roi.x + r.minX, roi.y + r.minY, Dx(r), Dy(r));
          assert r in rects;
        } else {
          assert KeepMobBox(last, roi, minWidth, maxWidth) == Some(b);
          assert last in rects;
        }
      }
    }
  }

  /** Every input rectangle that passes the filter is kept. */
  lemma {:induction false} KeptMobBoxesComplete(rects: seq<Rect>, roi: ROI, minWidth: int, maxWidth: int)
    ensures forall r :: r in rects && KeepMobBox(r, roi, minWidth, maxWidth).Some? ==>
              KeepMobBox(r, roi, minWidth, maxWidth).value in KeptMobBoxes(rects, roi, minWidth, maxWidth)
  {
    if rects != [] {
      var init := rects[..|rects| - 1];
      var last := rects[|rects| - 1];
      KeptMobBoxesComplete(init, roi, minWidth, maxWidth);
      forall r | r in rects && KeepMobBox(r, roi, minWidth, maxWidth).Some?
        ensures KeepMobBox(r, roi, minWidth, maxWidth).value in KeptMobBoxes(rects, roi, minWidth, maxWidth)
      {
        if r != last {
          assert r in init by {
            var k :| 0 <= k < |rects| && rects[k] == r;
            assert k < |rects| - 1 && init[k] == r;
          }
        }
      }
    }
  }

  /** detectMobsByHSV after contour extraction: nothing when the ROI is not
      inside the frame, otherwise the filtered, translated rectangles in
      contour order. */
  method DetectMobsByHSV(cols: int, rows: int, roi: ROI, rects: seq<Rect>, minWidth: int, maxWidth: int)
    returns (bounds: seq<Bounds>)
    ensures !RoiInside(roi, cols, rows) ==> bounds == []
    ensures RoiInside(roi, cols, rows) ==> bounds == KeptMobBoxes(rects, roi, minWidth, maxWidth)
  {
    if roi.x < 0 || roi.y < 0 || roi.x + roi.width > cols || roi.y + roi.height > rows {
      return [];
    }
    bounds := [];
    var i := 0;
    while i < |rects|
      invariant 0 <= i <= |rects|
      invariant bounds == KeptMobBoxes(rects[..i], roi, minWidth, maxWidth)
    {
      assert rects[..i + 1][..i] == rects[..i];
      var rect := rects[i];
      if Dx(rect) > minWidth && Dx(rect) < maxWidth {
        var screenBounds := Bounds(roi.x + rect.minX, roi.y + rect.minY, Dx(rect), Dy(rect));
        if screenBounds.x <= 250 && screenBounds.y <= 110 {
          i := i + 1;
          continue;
        }
        bounds := bounds + [screenBounds];
      }
      i := i + 1;
    }
    assert rects[..i] == rects;
  }

  function BelowHud(bs: seq<Bounds>, kind: MobType): (r: seq<Target>)
    ensures |r| <= |bs|
  {
    if bs == [] then []
    else BelowHud(bs[..|bs| - 1], kind) +
         (if bs[|bs| - 1].y >= 110 then [Target(kind, bs[|bs| - 1])] else [])
  }

  lemma {:induction false} BelowHudSpec(bs: seq<Bounds>, kind: MobType)
    ensures forall t :: t in BelowHud(bs, kind) <==> t.kind == kind && t.bounds in bs && t.bounds.y >= 110
  {
    if bs != [] {
      BelowHudSpec(bs[..|bs| - 1], kind);
      assert bs == bs[..|bs| - 1] + [bs[|bs| - 1]];
    }
  }

  /** IdentifyMobs given the candidates of each colour: passive ones below
      the HUD line first, then aggressive ones; violet ones are dropped. */
  method IdentifyMobs(passiveBounds: seq<Bounds>, aggressiveBounds: seq<Bounds>, violetBounds: seq<Bounds>)
    returns (mobs: seq<Target>)
    ensures mobs == BelowHud(passiveBounds, Passive) + BelowHud(aggressiveBounds, Aggressive)
  {
    mobs := [];
    var i := 0;
    while i < |passiveBounds|
      invariant 0 <= i <= |passiveBounds|
      invariant mobs == BelowHud(passiveBounds[..i], Passive)
    {
      assert passiveBounds[..i + 1][..i] == passiveBounds[..i];
      if passiveBounds[i].y >= 110 {
        mobs := mobs + [Target(Passive, passiveBounds[i])];
      }
      i := i + 1;
    }
    assert passiveBounds[..i] == passiveBounds;
    ghost var passive := mobs;
    i := 0;
    while i < |aggressiveBounds|
      invariant 0 <= i <= |aggressiveBounds|
      invariant mobs == passive + BelowHud(aggressiveBounds[..i], Aggressive)
    {
      assert aggressiveBounds[..i + 1][..i] == aggressiveBounds[..i];
      if aggressiveBounds[i].y >= 110 {
        mobs := mobs + [Target(Aggressive, aggressiveBounds[i])];
      }
      i := i + 1;
    }
    assert aggressiveBounds[..i] == aggressiveBounds;
  }

  /** Identified mobs are never violet, all lie below the HUD line, and
      passive ones come before aggressive ones. */
  lemma IdentifiedMobsOrdered(passive: seq<Bounds>, aggressive: seq<Bounds>)
    ensures forall t :: t in BelowHud(passive, Passive) + BelowHud(aggressive, Aggressive) ==>
              t.kind != Violet && t.bounds.y >= 110
    ensures forall i, j :: 0 <= i < j < |BelowHud(passive, Passive) + BelowHud(aggressive, Aggressive)| ==>
              var m := BelowHud(passive, Passive) + BelowHud(aggressive, Aggressive);
              !(m[i].kind == Aggressive && m[j].kind == Passive)
  {
    BelowHudSpec(passive, Passive);
    BelowHudSpec(aggressive, Aggressive);
    var a := BelowHud(passive, Passive);
    var m := a + BelowHud(aggressive, Aggressive);
    forall i, j | 0 <= i < j < |m| ensures !(m[i].kind == Aggressive && m[j].kind == Passive) {
      if i < |a| { assert m[i] in a; } else { assert m[j] == BelowHud(aggressive, Aggressive)[j - |a|]; }
    }
  }

  /** detectMarker: the ROI must be inside the frame and the colour mask
      must hold more than 20 pixels. */
  predicate DetectMarker(roi: ROI, cols: int, rows: int, nonZero: int)
  {
    RoiInside(roi, cols, rows) && nonZero > 20
  }

  /** DetectTargetMarkerOpenCV tries the blue marker, then the red one. */
  lemma TargetMarkerEitherColour(roi: ROI, cols: int, rows: int, blue: int, red: int)
    ensures (DetectMarker(roi, cols, rows, blue) || DetectMarker(roi, cols, rows, red)) <==>
            RoiInside(roi, cols, rows) && Max(blue, red) > 20
  {
  }

  /** A found contour: its area and bounding rectangle. */
  datatype Contour = Contour(area: real, rect: Rect)

  /** `k` is the first contour of strictly largest positive area. */
  ghost predicate FirstLargest(cs: seq<Contour>, k: int)
  {
    0 <= k < |cs| && cs[k].area > 0.0 &&
    (forall j :: 0 <= j < |cs| ==> cs[j].area <= cs[k].area) &&
    (forall j :: 0 <= j < k ==> cs[j].area < cs[k].area)
  }

  function RectCenter(roi: ROI, r: Rect): Point
  {
    Point(roi.x + r.minX + Div(Dx(r), 2), roi.y + r.minY + Div(Dy(r), 2))
  }

  /** findMarkerCenterByColor after contour extraction: nothing when the ROI
      is outside the frame or there is no contour; otherwise the centre of
      the first contour of largest area. When no contour has a positive area
      the zero rectangle is used, so the ROI origin is reported. */
  method FindMarkerCenterByColor(roi: ROI, cols: int, rows: int, contours: seq<Contour>)
    returns (center: Option<Point>)
    ensures !RoiInside(roi, cols, rows) || contours == [] <==> center.None?
    ensures center.Some? && (forall j :: 0 <= j < |contours| ==> contours[j].area <= 0.0) ==>
              center.value == Point(roi.x, roi.y)
    ensures center.Some? && (exists j :: 0 <= j < |contours| && contours[j].area > 0.0) ==>
              exists k :: FirstLargest(contours, k) && center.value == RectCenter(roi, contours[k].rect)
  {
    if roi.x < 0 || roi.y < 0 || roi.x + roi.width > cols || roi.y + roi.height > rows {
      return None;
    }
    if |contours| == 0 {
      return None;
    }
    var maxArea := 0.0;
    var maxRect := Rect(0, 0, 0, 0);
    ghost var best := -1;
    var i := 0;
    while i < |contours|
      invariant 0 <= i <= |contours|
      invariant best == -1 ==> maxArea == 0.0 && maxRect == Rect(0, 0, 0, 0) &&
                               forall j :: 0 <= j < i ==> contours[j].area <= 0.0
      invariant best != -1 ==> 0 <= best < i && maxArea == contours[best].area > 0.0 &&
                               maxRect == contours[best].rect &&
                               (forall j :: 0 <= j < i ==> contours[j].area <= maxArea) &&
                               (forall j :: 0 <= j < best ==> contours[j].area < maxArea)
    {
      var area := contours[i].area;
      if area > maxArea {
        maxArea := area;
        maxRect := contours[i].rect;
        best := i;
      }
      i := i + 1;
    }
    center := Some(RectCenter(roi, maxRect));
    if best != -1 {
      assert FirstLargest(contours, best);
    }
  }

  /** findMarkerCenter: the blue marker's centre if there is one, else the
      red marker's. */
  function FindMarkerCenter(blue: Option<Point>, red: Option<Point>): (c: Option<Point>)
    ensures c.None? <==> blue.None? && red.None?
    ensures blue.Some? ==> c == blue
  {
    if blue.Some? then blue else red
  }

  /** Largest `r` with `r * r <= n`: what `int(math.Sqrt(n))` yields for the
      squared pixel distances at hand. */
  function FloorSqrt(n: nat): (r: nat)
    ensures r * r <= n < (r + 1) * (r + 1)
  {
    if n == 0 then 0
    else
      var s := FloorSqrt(n - 1);
      if (s + 1) * (s + 1) <= n then s + 1 else s
  }

  /** The distance reported when no marker is found. */
  const NoMarkerDistance := 9999

  /** DetectTargetDistance: the sentinel without a marker centre, otherwise
      the truncated distance from the screen centre. */
  function DetectTargetDistance(marker: Option<Point>, screenWidth: int, screenHeight: int): (d: int)
    ensures marker.None? ==> d == NoMarkerDistance
    ensures marker.Some? ==>
      var dx := marker.value.x - Div(screenWidth, 2);
      var dy := marker.value.y - Div(screenHeight, 2);
      d >= 0 && d * d <= dx * dx + dy * dy < (d + 1) * (d + 1)
  {
    match marker
    case None => NoMarkerDistance
    case Some(p) =>
      var dx := p.x - Div(screenWidth, 2);
      var dy := p.y - Div(screenHeight, 2);
      FloorSqrt(dx * dx + dy * dy)
  }
}
