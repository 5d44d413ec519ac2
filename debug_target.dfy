/** The target-bar detector of src2/debug_target.go
    (`detectStatusBars4`): the caller's region of interest is clamped to
    the frame in place, the avatar is the first contour whose sides both
    lie in the configured range, the bar area is placed right of the
    avatar's circle, bars are filtered by size, sorted top to bottom, and
    the top two (HP, then MP) are measured by their column sums.  The
    OpenCV pipeline is a parameter: the HSV region of interest as an
    `Image` in region coordinates, the avatar contours as a list, and the
    contour search in the bar area as a function from the area to its
    contours' bounding rectangles, relative to the area's corner. */
module DebugTarget {
  import opened GoInt
  import opened Wrappers
  import opened ImageRect
  import opened BarFill
  import Sorting

  datatype CircleParams = CircleParams(minSize: int, maxSize: int)

  datatype BarAreaParams = BarAreaParams(leftOffset: int, rightOffset: int, topOffset: int, bottomOffset: int)

  /** A measured bar: its region, fill width, percentage and name. */
  datatype TargetBarInfo = TargetBarInfo(rect: Rectangle, fillWidth: int, percentage: real, kind: string)

  /** One axis of the region clamp: the low edge raised to 0, the high
      edge lowered to the frame size, and an empty or inverted span
      stretched to the frame's far edge. */
  function ClampSpan(lo: int, hi: int, size: int): (int, int)
  {
    var lo1 := if lo < 0 then 0 else lo;
    var hi1 := if hi > size then size else hi;
    (lo1, if lo1 >= hi1 then size else hi1)
  }

  /** The clamped span is usable exactly when its low edge lies inside the
      frame; it then lies in [0, size].  A span kept inverted or empty by
      the caller reaches the frame's far edge. */
  lemma ClampSpanSpec(lo: int, hi: int, size: int)
    ensures ClampSpan(lo, hi, size).0 == Max(lo, 0)
    ensures ClampSpan(lo, hi, size).0 < ClampSpan(lo, hi, size).1 <==> Max(lo, 0) < size
    ensures ClampSpan(lo, hi, size).0 < ClampSpan(lo, hi, size).1 ==> 0 <= ClampSpan(lo, hi, size).0 && ClampSpan(lo, hi, size).1 <= size
    ensures Max(lo, 0) < Min(hi, size) ==> ClampSpan(lo, hi, size).1 == Min(hi, size)
    ensures Max(lo, 0) >= Min(hi, size) ==> ClampSpan(lo, hi, size).1 == size
  {
  }

  /** The region after the in-place clamp. */
  function ClampROI(r: Rectangle, cols: int, rows: int): Rectangle
  {
    var x := ClampSpan(r.minX, r.maxX, cols);
    var y := ClampSpan(r.minY, r.maxY, rows);
    Rectangle(x.0, y.0, x.1, y.1)
  }

  predicate Usable(r: Rectangle)
  {
    r.minX < r.maxX && r.minY < r.maxY
  }

  /** `ROIParams4`, clamped in place for the caller. */
  class ROIParams {
    var minX: int
    var minY: int
    var maxX: int
    var maxY: int

    function Corners(): Rectangle
      reads this
    {
      Rectangle(minX, minY, maxX, maxY)
    }

    constructor(r: Rectangle)
      ensures Corners() == r
    {
      minX, minY, maxX, maxY := r.minX, r.minY, r.maxX, r.maxY;
    }

    /** The clamp as the source performs it, field by field; `ok` is
        whether the region is usable afterwards. */
    method Clamp(cols: int, rows: int) returns (ok: bool)
      modifies this
      ensures Corners() == ClampROI(old(Corners()), cols, rows)
      ensures ok <==> Usable(Corners())
      ensures ok ==> 0 <= minX < maxX <= cols && 0 <= minY < maxY <= rows
    {
      ClampSpanSpec(minX, maxX, cols);
      ClampSpanSpec(minY, maxY, rows);
      ClampHorizontal(cols);
      ClampVertical(rows);
      ok := !(minX >= maxX || minY >= maxY);
    }

    /** The clamp's steps on the horizontal edges; the vertical ones touch
        other fields, so running them apart leaves the result unchanged. */
    method ClampHorizontal(cols: int)
      modifies this`minX, this`maxX
      ensures (minX, maxX) == ClampSpan(old(minX), old(maxX), cols)
    {
      if minX < 0 {
        minX := 0;
      }
      if maxX > cols {
        maxX := cols;
      }
      if minX >= maxX {
        maxX := cols;
      }
    }

    /** The clamp's steps on the vertical edges. */
    method ClampVertical(rows: int)
      modifies this`minY, this`maxY
      ensures (minY, maxY) == ClampSpan(old(minY), old(maxY), rows)
    {
      if minY < 0 {
        minY := 0;
      }
      if maxY > rows {
        maxY := rows;
      }
      if minY >= maxY {
        maxY := rows;
      }
    }
  }

  /** A rectangle cut to a `cols` x `rows` image, or nothing when no
      pixel is left: the check before each `Region` call of windows 4 and 5. */
  function ClampTo(r: Rectangle, cols: int, rows: int): (c: Option<Rectangle>)
    ensures c.Some? ==> 0 <= c.value.minX < c.value.maxX <= cols && 0 <= c.value.minY < c.value.maxY <= rows
    ensures c.Some? ==> r.minX <= c.value.minX && c.value.maxX <= r.maxX && r.minY <= c.value.minY && c.value.maxY <= r.maxY
  {
    var left := if r.minX < 0 then 0 else r.minX;
    var top := if r.minY < 0 then 0 else r.minY;
    var right := if r.maxX > cols then cols else r.maxX;
    var bottom := if r.maxY > rows then rows else r.maxY;
    if left >= right || top >= bottom then None
    else Some(Rect(left, top, right, bottom))
  }

  /** A rectangle already inside the image is kept as it is; the cut is
      empty exactly when the rectangle and the image share no pixel. */
  lemma ClampToSpec(r: Rectangle, cols: int, rows: int)
    ensures 0 <= r.minX < r.maxX <= cols && 0 <= r.minY < r.maxY <= rows ==> ClampTo(r, cols, rows) == Some(r)
    ensures ClampTo(r, cols, rows).None? <==>
      Max(r.minX, 0) >= Min(r.maxX, cols) || Max(r.minY, 0) >= Min(r.maxY, rows)
  {
  }

  /** The avatar test: the larger and the smaller side both lie in
      [MinSize, MaxSize]. */
  predicate AvatarSides(r: Rectangle, p: CircleParams)
  {
    var maxSide := Max(Dx(r), Dy(r));
    var minSide := Min(Dx(r), Dy(r));
    maxSide >= p.minSize && maxSide <= p.maxSize && minSide >= p.minSize && minSide <= p.maxSize
  }

  function Square(p: CircleParams): SizeFilter
  {
    SizeFilter(p.minSize, p.maxSize, p.minSize, p.maxSize)
  }

  /** Testing the larger and smaller side is testing both sides against
      the square size box. */
  lemma AvatarSidesIsSquare(r: Rectangle, p: CircleParams)
    ensures AvatarSides(r, p) <==> Fits(r, Square(p))
  {
  }

  /** The selected avatar with its circle: the centre halves each side
      and the radius is a quarter of width plus height. */
  datatype Avatar = Avatar(rect: Rectangle, centerX: int, centerY: int, radius: int)

  function AvatarOf(r: Rectangle): Avatar
  {
    Avatar(r, r.minX + Div(Dx(r), 2), r.minY + Div(Dy(r), 2), Div(Dx(r) + Dy(r), 4))
  }

  /** The circle of a well-formed avatar lies inside its rectangle. */
  lemma AvatarCircle(r: Rectangle)
    requires WellFormed(r)
    ensures r.minX <= AvatarOf(r).centerX <= r.maxX && r.minY <= AvatarOf(r).centerY <= r.maxY
    ensures 0 <= AvatarOf(r).radius && 4 * AvatarOf(r).radius <= Dx(r) + Dy(r)
  {
    HalfBounds(Dx(r));
    HalfBounds(Dy(r));
  }

  /** Window 2's loop: every contour is classified, the first valid one
      is kept. */
  method SelectAvatar(contours: seq<Rectangle>, p: CircleParams) returns (avatar: Option<Avatar>)
    ensures avatar.None? <==> FirstFit(contours, Square(p)).None?
    ensures avatar.Some? ==> avatar.value == AvatarOf(FirstFit(contours, Square(p)).value)
  {
    avatar := None;
    var circleFound := false;
    var i := 0;
    while i < |contours|
      invariant 0 <= i <= |contours|
      invariant circleFound <==> avatar.Some?
      invariant !circleFound ==> FirstFit(contours, Square(p)) == FirstFit(contours[i..], Square(p))
      invariant circleFound ==> FirstFit(contours, Square(p)).Some? && avatar.value == AvatarOf(FirstFit(contours, Square(p)).value)
    {
      var rect := contours[i];
      AvatarSidesIsSquare(rect, p);
      if AvatarSides(rect, p) {
        if !circleFound {
          avatar := Some(AvatarOf(rect));
          circleFound := true;
        }
      }
      assert contours[i..][1..] == contours[i + 1..];
      i := i + 1;
    }
  }

  /** Window 3: the bar area around the avatar's circle, each edge
      clamped on one side only to the region of interest, built through
      `image.Rect`. */
  function BarArea(a: Avatar, p: BarAreaParams, cols: int, rows: int): Rectangle
  {
    var left := a.centerX + a.radius + p.leftOffset;
    var right := a.centerX + a.radius + p.rightOffset;
    var top := a.centerY - a.radius + p.topOffset;
    var bottom := a.centerY + a.radius + p.bottomOffset;
    Rect(if left < 0 then 0 else left, if top < 0 then 0 else top,
         if right > cols then cols else right, if bottom > rows then rows else bottom)
  }

  predicate AreaValid(r: Rectangle)
  {
    Dx(r) > 0 && Dy(r) > 0
  }

  /** The bar area is always well-formed.  Offsets that put the left edge
      right of the right edge do not empty it: `image.Rect` swaps the
      corners and the area spans the inverted range. */
  lemma BarAreaSwaps(a: Avatar, p: BarAreaParams, cols: int, rows: int)
    requires p.leftOffset > p.rightOffset
    requires a.centerX + a.radius + p.rightOffset >= 0 && a.centerX + a.radius + p.leftOffset <= cols
    ensures WellFormed(BarArea(a, p, cols, rows))
    ensures BarArea(a, p, cols, rows).minX == a.centerX + a.radius + p.rightOffset
    ensures BarArea(a, p, cols, rows).maxX == a.centerX + a.radius + p.leftOffset
    ensures Dx(BarArea(a, p, cols, rows)) > 0
  {
  }

  /** The candidate bars, unsorted, in region coordinates: none when no
      avatar is found or no usable bar area is left. */
  function Candidates(contours: seq<Rectangle>, cp: CircleParams, ap: BarAreaParams, bp: SizeFilter,
                      barContours: Rectangle -> seq<Rectangle>, cols: int, rows: int): Option<seq<Rectangle>>
  {
    match FirstFit(contours, Square(cp))
    case None => None
    case Some(r) =>
      var area := BarArea(AvatarOf(r), ap, cols, rows);
      if !AreaValid(area) then None
      else
        match ClampTo(area, cols, rows)
        case None => None
        case Some(c) => Some(BarsIn(barContours(c), bp, c.minX, c.minY))
  }

  function BarName(i: int): string
  {
    if i == 0 then "HP" else "MP"
  }

  /** `float64(fill) / float64(width) * 100`, over exact rationals. */
  function Percentage(fill: int, width: int): (p: real)
    requires 0 <= fill <= width && width > 0
    ensures 0.0 <= p <= 100.0
    ensures p == 100.0 <==> fill == width
  {
    fill as real / width as real * 100.0
  }

  /** Bar i measured, or nothing when its region leaves the image. */
  ghost function Measure(img: Image, bar: Rectangle, c: HSVRange, i: int, cols: int, rows: int): seq<TargetBarInfo>
  {
    match ClampTo(bar, cols, rows)
    case None => []
    case Some(r) =>
      FillSpec(img, c, r);
      [TargetBarInfo(r, Fill(img, c, r), Percentage(Fill(img, c, r), Dx(r)), BarName(i))]
  }

  /** Window 5's result: the top two sorted bars, HP then MP, when at
      least two were found. */
  ghost function TargetBars(img: Image, sorted: seq<Rectangle>, ranges: seq<HSVRange>, cols: int, rows: int): seq<TargetBarInfo>
    requires |ranges| == 2
  {
    if |sorted| < 2 then []
    else Measure(img, sorted[0], ranges[0], 0, cols, rows) + Measure(img, sorted[1], ranges[1], 1, cols, rows)
  }

  /** At most two bars are reported, each inside the image, named HP
      then MP, with its fill within the bar and its percentage in
      [0, 100]. */
  lemma TargetBarsSpec(img: Image, sorted: seq<Rectangle>, ranges: seq<HSVRange>, cols: int, rows: int)
    requires |ranges| == 2
    ensures |TargetBars(img, sorted, ranges, cols, rows)| <= 2
    ensures |sorted| < 2 ==> TargetBars(img, sorted, ranges, cols, rows) == []
    ensures forall k :: 0 <= k < |TargetBars(img, sorted, ranges, cols, rows)| ==>
      var t := TargetBars(img, sorted, ranges, cols, rows)[k];
      0 <= t.rect.minX < t.rect.maxX <= cols && 0 <= t.rect.minY < t.rect.maxY <= rows &&
      0 <= t.fillWidth <= Dx(t.rect) && 0.0 <= t.percentage <= 100.0
    ensures |TargetBars(img, sorted, ranges, cols, rows)| > 0 && ClampTo(sorted[0], cols, rows).Some? ==>
      TargetBars(img, sorted, ranges, cols, rows)[0].kind == "HP"
  {
    if |sorted| >= 2 {
      var m0 := Measure(img, sorted[0], ranges[0], 0, cols, rows);
      var m1 := Measure(img, sorted[1], ranges[1], 1, cols, rows);
      if ClampTo(sorted[0], cols, rows).Some? {
        FillSpec(img, ranges[0], ClampTo(sorted[0], cols, rows).value);
      }
      if ClampTo(sorted[1], cols, rows).Some? {
        FillSpec(img, ranges[1], ClampTo(sorted[1], cols, rows).value);
      }
    }
  }

  /** The measuring loop of window 5. */
  method MeasureBars(img: Image, sorted: seq<Rectangle>, ranges: seq<HSVRange>, cols: int, rows: int)
    returns (targetBars: seq<TargetBarInfo>)
    requires |ranges| == 2
    ensures targetBars == TargetBars(img, sorted, ranges, cols, rows)
  {
    targetBars := [];
    if |sorted| >= 2 {
      var i := 0;
      while i < 2 && i < |sorted|
        invariant 0 <= i <= 2
        invariant targetBars == if i == 0 then [] else if i == 1 then Measure(img, sorted[0], ranges[0], 0, cols, rows)
                                else Measure(img, sorted[0], ranges[0], 0, cols, rows) + Measure(img, sorted[1], ranges[1], 1, cols, rows)
      {
        var clamped := ClampTo(sorted[i], cols, rows);
        if clamped.Some? {
          var r := clamped.value;
          var fill := ColumnSumFill(img, ranges[i], r);
          FillSpec(img, ranges[i], r);
          targetBars := targetBars + [TargetBarInfo(r, fill, Percentage(fill, Dx(r)), BarName(i))];
        }
        i := i + 1;
      }
    }
  }

  /** What the ROI-relative detection returns: no bars without candidates,
      otherwise the candidates sorted top-down and the bars read from them. */
  ghost predicate Detected(img: Image, cols: int, rows: int, contours: seq<Rectangle>, cp: CircleParams, ap: BarAreaParams,
                     bp: SizeFilter, ranges: seq<HSVRange>, barContours: Rectangle -> seq<Rectangle>,
                     targetBars: seq<TargetBarInfo>, sorted: seq<Rectangle>)
    requires |ranges| == 2
  {
    (Candidates(contours, cp, ap, bp, barContours, cols, rows).None? ==> targetBars == [] && sorted == []) &&
    (Candidates(contours, cp, ap, bp, barContours, cols, rows).Some? ==>
      Sorting.SortedBy(sorted, Top) &&
      multiset(sorted) == multiset(Candidates(contours, cp, ap, bp, barContours, cols, rows).value) &&
      targetBars == TargetBars(img, sorted, ranges, cols, rows))
  }

  /** Windows 2 to 5 after the region of interest is known (`cols` x
      `rows` is its size): `sorted` are the candidate bars in top-to-bottom
      order. */
  method DetectInROI(img: Image, cols: int, rows: int, contours: seq<Rectangle>, cp: CircleParams, ap: BarAreaParams,
                     bp: SizeFilter, ranges: seq<HSVRange>, barContours: Rectangle -> seq<Rectangle>)
    returns (targetBars: seq<TargetBarInfo>, sorted: seq<Rectangle>)
    requires |ranges| == 2
    ensures Detected(img, cols, rows, contours, cp, ap, bp, ranges, barContours, targetBars, sorted)
  {
    targetBars, sorted := [], [];
    var avatar := SelectAvatar(contours, cp);
    if avatar.None? {
      return;
    }
    var area := BarArea(avatar.value, ap, cols, rows);
    if !AreaValid(area) {
      return;
    }
    var clamped := ClampTo(area, cols, rows);
    if clamped.None? {
      return;
    }
    var c := clamped.value;
    var bars := CollectBars(barContours(c), bp, c.minX, c.minY);
    var a := new Rectangle[|bars|](k requires 0 <= k < |bars| => bars[k]);
    assert a[..] == bars;
    Sorting.ExchangeSort(a, Top);
    sorted := a[..];
    targetBars := MeasureBars(img, sorted, ranges, cols, rows);
  }

  /** `detectStatusBars4` from the frame check on: no bars for an empty
      frame; otherwise the ROI clamped in place, and the detection run in
      it when it is usable. */
  method DetectStatusBars4(roi: ROIParams, img: Image, frameCols: int, frameRows: int, contours: seq<Rectangle>,
                           cp: CircleParams, ap: BarAreaParams, bp: SizeFilter, ranges: seq<HSVRange>,
                           barContours: Rectangle -> seq<Rectangle>)
    returns (targetBars: seq<TargetBarInfo>, sorted: seq<Rectangle>)
    requires |ranges| == 2
    modifies roi
    ensures frameCols <= 0 || frameRows <= 0 ==> roi.Corners() == old(roi.Corners()) && targetBars == []
    ensures frameCols > 0 && frameRows > 0 ==> roi.Corners() == ClampROI(old(roi.Corners()), frameCols, frameRows)
    ensures !Usable(roi.Corners()) ==> targetBars == []
    ensures frameCols > 0 && frameRows > 0 && Usable(roi.Corners()) ==>
      DetectedIn(img, roi.Corners(), contours, cp, ap, bp, ranges, barContours, targetBars, sorted)
  {
    if frameCols <= 0 || frameRows <= 0 {
      return [], [];
    }
    var _ := roi.Clamp(frameCols, frameRows);
    targetBars, sorted := DetectInUsable(roi.Corners(), img, contours, cp, ap, bp, ranges, barContours);
  }

  /** The detection in the ROI when it is usable, and nothing otherwise. */
  method DetectInUsable(r: Rectangle, img: Image, contours: seq<Rectangle>, cp: CircleParams, ap: BarAreaParams,
                        bp: SizeFilter, ranges: seq<HSVRange>, barContours: Rectangle -> seq<Rectangle>)
    returns (targetBars: seq<TargetBarInfo>, sorted: seq<Rectangle>)
    requires |ranges| == 2
    ensures !Usable(r) ==> targetBars == []
    ensures Usable(r) ==> DetectedIn(img, r, contours, cp, ap, bp, ranges, barContours, targetBars, sorted)
  {
    if !Usable(r) {
      return [], [];
    }
    targetBars, sorted := DetectInROI(img, Dx(r), Dy(r), contours, cp, ap, bp, ranges, barContours);
  }

  /** `Detected` in a region of interest given by its corners. */
  ghost predicate DetectedIn(img: Image, roi: Rectangle, contours: seq<Rectangle>, cp: CircleParams, ap: BarAreaParams,
                             bp: SizeFilter, ranges: seq<HSVRange>, barContours: Rectangle -> seq<Rectangle>,
                             targetBars: seq<TargetBarInfo>, sorted: seq<Rectangle>)
    requires |ranges| == 2
  {
    Detected(img, Dx(roi), Dy(roi), contours, cp, ap, bp, ranges, barContours, targetBars, sorted)
  }
}
