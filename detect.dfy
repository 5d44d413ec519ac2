/** The bookkeeping of src2/detect.go around its OpenCV pipeline: the
    region of interest with negative coordinates taken from the far edge,
    the widest bar among the filtered contours, the stable-width counter
    and percentage of a bar, the open/NPC/alive flags of a group of bars,
    and the mob list built from contours.  The contours themselves (HSV
    mask, morphology, contour search) are parameters. */
module Detect {
  import opened GoInt

  const BarKindUnused: int := 0
  const BarKindHP: int := 1
  const BarKindMP: int := 2
  const BarKindFP: int := 3
  const BarKindTargetHP: int := 4
  const BarKindTargetMP: int := 5

  /** Consecutive unchanged widths after which a wider width becomes the
      maximum, and all-zero readings after which the bars count as closed. */
  const StableCount: int := 30
  const ClosedCount: int := 5

  /** Mobs whose corner lies in the top-left HP-bar area are dropped. */
  const HpAreaMaxX: int := 250
  const HpAreaMaxY: int := 110

  datatype ROIArea = ROIArea(minX: int, maxX: int, minY: int, maxY: int)

  /** A contour's bounding rectangle, `image.Rectangle`. */
  datatype Rect = Rect(minX: int, minY: int, maxX: int, maxY: int)
  {
    function Dx(): int { maxX - minX }
    function Dy(): int { maxY - minY }
  }

  /** The size limits of `Filter` (the morphology settings go to OpenCV). */
  datatype Filter = Filter(minWidth: int, maxWidth: int, minHeight: int, maxHeight: int)

  datatype MobsPosition = MobsPosition(minX: int, maxX: int, minY: int, maxY: int)

  /** A negative coordinate counts from the far edge of the image. */
  function FromEdge(v: int, size: int): (r: int)
    ensures v >= 0 ==> r == v
    ensures v < 0 ==> r == size + v
  {
    if v < 0 then size + v else v
  }

  /** The region actually used for an image of `cols` x `rows`. */
  function ActualROI(roi: ROIArea, cols: int, rows: int): ROIArea
  {
    ROIArea(FromEdge(roi.minX, cols), FromEdge(roi.maxX, cols), FromEdge(roi.minY, rows), FromEdge(roi.maxY, rows))
  }

  /** A region inside the image and not empty. */
  predicate ROIValid(a: ROIArea, cols: int, rows: int)
  {
    0 <= a.minX < a.maxX <= cols && 0 <= a.minY < a.maxY <= rows
  }

  /** A region with non-negative corners inside the image is used as it
      is; the default target region (400, 200)-(-400, 200) is empty
      whatever the image. */
  lemma ActualROIExamples(cols: int, rows: int)
    ensures ROIValid(ROIArea(0, 500, 0, 350), cols, rows) ==> ActualROI(ROIArea(0, 500, 0, 350), cols, rows) == ROIArea(0, 500, 0, 350)
    ensures !ROIValid(ActualROI(ROIArea(400, -400, 200, 200), cols, rows), cols, rows)
  {
  }

  /** A contour whose bounding box fits the inclusive size limits. */
  predicate InBox(r: Rect, f: Filter)
  {
    f.minWidth <= r.Dx() <= f.maxWidth && f.minHeight <= r.Dy() <= f.maxHeight
  }

  /** The widest fitting contour's width, never below 0. */
  function WidestFit(contours: seq<Rect>, f: Filter): (w: int)
    ensures w >= 0
  {
    if contours == [] then 0
    else
      var w := WidestFit(contours[..|contours| - 1], f);
      var c := contours[|contours| - 1];
      if InBox(c, f) && c.Dx() > w then c.Dx() else w
  }

  /** The width is that of the widest fitting contour, or 0 when no
      fitting contour is wider than 0. */
  lemma {:induction false} WidestFitSpec(contours: seq<Rect>, f: Filter)
    ensures forall i :: 0 <= i < |contours| && InBox(contours[i], f) ==> contours[i].Dx() <= WidestFit(contours, f)
    ensures WidestFit(contours, f) == 0 || exists i :: 0 <= i < |contours| && InBox(contours[i], f) && contours[i].Dx() == WidestFit(contours, f)
  {
    if contours != [] {
      var init := contours[..|contours| - 1];
      WidestFitSpec(init, f);
      assert forall i :: 0 <= i < |init| ==> init[i] == contours[i];
      if WidestFit(contours, f) != WidestFit(init, f) {
        assert InBox(contours[|contours| - 1], f);
      }
    }
  }

  /** The contour loop of `updateStateDetect`. */
  method WidestContour(contours: seq<Rect>, f: Filter) returns (maxWidth: int)
    ensures maxWidth == WidestFit(contours, f)
  {
    maxWidth := 0;
    var i := 0;
    while i < |contours|
      invariant 0 <= i <= |contours|
      invariant maxWidth == WidestFit(contours[..i], f)
    {
      var rect := contours[i];
      assert contours[..i + 1][..i] == contours[..i];
      if InBox(rect, f) {
        if rect.Dx() > maxWidth {
          maxWidth := rect.Dx();
        }
      }
      i := i + 1;
    }
    assert contours[..i] == contours;
  }

  /** The counters of a bar: `Value`, `Width`, `MaxCount`, `MaxWidth`. */
  datatype BarReading = BarReading(value: int, width: int, maxCount: int, maxWidth: int)

  /** The new counters once the detected width is `w`. */
  function Measured(r: BarReading, w: int, roiWidth: int): BarReading
  {
    var count := if w == r.width then r.maxCount + 1 else 0;
    var (count', mw) := if w == r.width && count >= StableCount && w > r.maxWidth then (0, w) else (count, r.maxWidth);
    var mw' := if w > mw then w else mw;
    var v := if mw' > 0 then Div(w * 100, mw') else if roiWidth > 0 then Div(w * 100, roiWidth) else 0;
    BarReading(Clamp100(v), w, count', mw')
  }

  function Clamp100(v: int): (r: int)
    ensures 0 <= r <= 100
    ensures 0 <= v <= 100 ==> r == v
  {
    if v < 0 then 0 else if v > 100 then 100 else v
  }

  /** The maximum width never shrinks and is at least the width; the value
      is a percentage. */
  lemma MeasuredBounds(r: BarReading, w: int, roiWidth: int)
    ensures Measured(r, w, roiWidth).maxWidth >= r.maxWidth
    ensures Measured(r, w, roiWidth).maxWidth >= w == Measured(r, w, roiWidth).width
    ensures 0 <= Measured(r, w, roiWidth).value <= 100
  {
  }

  /** The stable-width counter counts repeats of the same width and
      restarts on any change; it restarts too when a repeat promotes the
      width to the maximum. */
  lemma MeasuredCount(r: BarReading, w: int, roiWidth: int)
    ensures w != r.width ==> Measured(r, w, roiWidth).maxCount == 0
    ensures w == r.width && !(r.maxCount + 1 >= StableCount && w > r.maxWidth) ==> Measured(r, w, roiWidth).maxCount == r.maxCount + 1
    ensures w == r.width && r.maxCount + 1 >= StableCount && w > r.maxWidth ==> Measured(r, w, roiWidth).maxCount == 0
  {
  }

  /** A full-width reading reads 100; a width that is a share of the known
      maximum reads that share, rounded down. */
  lemma MeasuredPercent(r: BarReading, w: int, roiWidth: int)
    requires w >= 0
    ensures Measured(r, w, roiWidth).maxWidth > 0 && w == Measured(r, w, roiWidth).maxWidth ==> Measured(r, w, roiWidth).value == 100
    ensures Measured(r, w, roiWidth).maxWidth > 0 ==>
              Measured(r, w, roiWidth).value * Measured(r, w, roiWidth).maxWidth <= w * 100 <
              (Measured(r, w, roiWidth).value + 1) * Measured(r, w, roiWidth).maxWidth
  {
    var m := Measured(r, w, roiWidth);
    if m.maxWidth > 0 {
      var q := Div(w * 100, m.maxWidth);
      assert q == (w * 100) / m.maxWidth;
      PercentBelow(w, m.maxWidth);
    }
  }

  /** A width within the maximum is at most 100 percent of it. */
  lemma PercentBelow(w: int, mw: int)
    requires 0 <= w <= mw && 0 < mw
    ensures 0 <= (w * 100) / mw <= 100
    ensures w == mw ==> (w * 100) / mw == 100
  {
    var a := w * 100;
    var q := a / mw;
    QuotientBelow(a, mw);
    MulMono(w, mw, 100);
    if q > 100 {
      MulMono(101, q, mw);
      assert false;
    }
    if w == mw {
      assert a == 100 * mw;
      assert q * mw > a - mw;
      if q < 100 {
        MulMono(q, 99, mw);
        assert false;
      }
    }
  }

  lemma QuotientBelow(a: int, m: int)
    requires a >= 0 && m > 0
    ensures a / m >= 0 && (a / m) * m <= a && (a / m) * m > a - m
  {
  }

  lemma MulMono(a: int, b: int, c: int)
    requires a <= b && c > 0
    ensures a * c <= b * c
  {
  }

  /** A status bar: its kind and counters (its HSV range goes to OpenCV). */
  class BarInfo {
    var kind: int
    var value: int
    var width: int
    var maxCount: int
    var maxWidth: int

    constructor (kind: int)
      ensures this.kind == kind && value == 0 && width == 0 && maxCount == 0 && maxWidth == 0
    {
      this.kind := kind;
      value, width, maxCount, maxWidth := 0, 0, 0, 0;
    }

    function Reading(): BarReading
      reads this
    {
      BarReading(value, width, maxCount, maxWidth)
    }
  }

  /** `updateStateDetect`: an unused bar or a region outside the image
      leaves the bar untouched; otherwise the bar takes the widest fitting
      contour's width and updates its counters. */
  method UpdateStateDetect(bar: BarInfo, contours: seq<Rect>, roi: ROIArea, filter: Filter, cols: int, rows: int)
    modifies bar
    ensures bar.kind == old(bar.kind)
    ensures bar.kind == BarKindUnused || !ROIValid(ActualROI(roi, cols, rows), cols, rows) ==> bar.Reading() == old(bar.Reading())
    ensures bar.kind != BarKindUnused && ROIValid(ActualROI(roi, cols, rows), cols, rows) ==>
              var a := ActualROI(roi, cols, rows);
              bar.Reading() == Measured(old(bar.Reading()), WidestFit(contours, filter), a.maxX - a.minX)
  {
    if bar.kind == BarKindUnused {
      return;
    }
    var a := ActualROI(roi, cols, rows);
    if a.minX < 0 || a.minY < 0 || a.maxX > cols || a.maxY > rows || a.minX >= a.maxX || a.minY >= a.maxY {
      return;
    }
    var maxWidth := WidestContour(contours, filter);
    var width, count, mw := maxWidth, bar.maxCount, bar.maxWidth;
    if width == bar.width {
      count := count + 1;
      if count >= StableCount && width > mw {
        mw := width;
        count := 0;
      }
    } else {
      count := 0;
    }
    if width > mw {
      mw := width;
    }
    var roiWidth := a.maxX - a.minX;
    var value := 0;
    if mw > 0 {
      value := Div(width * 100, mw);
    } else if roiWidth > 0 {
      value := Div(width * 100, roiWidth);
    }
    if value < 0 {
      value := 0;
    }
    if value > 100 {
      value := 100;
    }
    bar.value, bar.width, bar.maxCount, bar.maxWidth := value, width, count, mw;
  }

  /** A bar's counters after one `updateStateDetect`: kept for an unused
      bar or a region outside the image, measured otherwise. */
  function Detected(r: BarReading, kind: int, contours: seq<Rect>, roi: ROIArea, filter: Filter, cols: int, rows: int): BarReading
  {
    var a := ActualROI(roi, cols, rows);
    if kind == BarKindUnused || !ROIValid(a, cols, rows) then r
    else Measured(r, WidestFit(contours, filter), a.maxX - a.minX)
  }

  /** A bar that reads a percentage keeps reading one, and its known
      maximum width never shrinks. */
  lemma DetectedPercent(r: BarReading, kind: int, contours: seq<Rect>, roi: ROIArea, filter: Filter, cols: int, rows: int)
    requires 0 <= r.value <= 100
    ensures 0 <= Detected(r, kind, contours, roi, filter, cols, rows).value <= 100
    ensures Detected(r, kind, contours, roi, filter, cols, rows).maxWidth >= r.maxWidth
  {
    var a := ActualROI(roi, cols, rows);
    if kind != BarKindUnused && ROIValid(a, cols, rows) {
      MeasuredBounds(r, WidestFit(contours, filter), a.maxX - a.minX);
    }
  }

  /** The visibility counter and flag after one reading: all three values
      zero counts a miss and closes after five; anything else reopens. */
  function OpenStep(open: bool, openCount: int, allZero: bool): (bool, int)
  {
    if allZero then
      (if openCount + 1 >= ClosedCount then false else open, openCount + 1)
    else (true, 0)
  }

  /** Five all-zero readings in a row close the bars, whatever the state
      before. */
  lemma ClosedAfterFive(open: bool, openCount: nat)
    ensures var s1 := OpenStep(open, openCount, true);
            var s2 := OpenStep(s1.0, s1.1, true);
            var s3 := OpenStep(s2.0, s2.1, true);
            var s4 := OpenStep(s3.0, s3.1, true);
            !OpenStep(s4.0, s4.1, true).0
  {
  }

  /** A non-zero reading always reopens and restarts the count. */
  lemma NonZeroOpens(open: bool, openCount: int)
    ensures OpenStep(open, openCount, false) == (true, 0)
  {
  }

  /** A group of bars (HP, MP, FP) with its flags. */
  class StatsBar {
    var open: bool
    var openCount: int
    var alive: bool
    var npc: bool
    var roi: ROIArea
    var filter: Filter
    const hp: BarInfo
    const mp: BarInfo
    const fp: BarInfo

    constructor (roi: ROIArea, filter: Filter, hpKind: int, mpKind: int, fpKind: int)
      ensures this.roi == roi && this.filter == filter && !open && openCount == 0 && !alive && !npc
      ensures fresh(hp) && fresh(mp) && fresh(fp) && Valid()
      ensures hp.kind == hpKind && mp.kind == mpKind && fp.kind == fpKind
    {
      this.roi := roi;
      this.filter := filter;
      open, openCount, alive, npc := false, 0, false, false;
      hp := new BarInfo(hpKind);
      mp := new BarInfo(mpKind);
      fp := new BarInfo(fpKind);
    }

    /** The three bars are distinct objects, as embedded structs are. */
    predicate Valid()
      reads this
    {
      hp != mp && mp != fp && hp != fp
    }

    /** `updateState`: measure the three bars, then set the flags. */
    method UpdateState(hpContours: seq<Rect>, mpContours: seq<Rect>, fpContours: seq<Rect>, cols: int, rows: int)
      requires Valid()
      modifies this`open, this`openCount, this`alive, this`npc, hp, mp, fp
      ensures (open, openCount) == OpenStep(old(open), old(openCount), hp.value == 0 && mp.value == 0 && fp.value == 0)
      ensures npc <==> (fp.kind == BarKindUnused || fp.value == 0) && hp.value == 100 && mp.value == 0
      ensures alive <==> hp.value > 0
      ensures hp.kind == old(hp.kind) && mp.kind == old(mp.kind) && fp.kind == old(fp.kind)
      ensures hp.Reading() == Detected(old(hp.Reading()), hp.kind, hpContours, roi, filter, cols, rows)
      ensures mp.Reading() == Detected(old(mp.Reading()), mp.kind, mpContours, roi, filter, cols, rows)
      ensures fp.Reading() == Detected(old(fp.Reading()), fp.kind, fpContours, roi, filter, cols, rows)
    {
      UpdateStateDetect(hp, hpContours, roi, filter, cols, rows);
      UpdateStateDetect(mp, mpContours, roi, filter, cols, rows);
      UpdateStateDetect(fp, fpContours, roi, filter, cols, rows);
      UpdateFlags();
    }

    /** The flags from the three readings: visibility by `OpenStep`; NPC
        iff the FP bar is unused or empty and HP reads 100 and MP 0; alive
        iff HP reads above 0. */
    method UpdateFlags()
      modifies this`open, this`openCount, this`alive, this`npc
      ensures (open, openCount) == OpenStep(old(open), old(openCount), hp.value == 0 && mp.value == 0 && fp.value == 0)
      ensures npc <==> (fp.kind == BarKindUnused || fp.value == 0) && hp.value == 100 && mp.value == 0
      ensures alive <==> hp.value > 0
    {
      if hp.value == 0 && mp.value == 0 && fp.value == 0 {
        openCount := openCount + 1;
        if openCount >= ClosedCount {
          open := false;
        }
      } else {
        openCount := 0;
        open := true;
      }
      if fp.kind == BarKindUnused || fp.value == 0 {
        if hp.value == 100 && mp.value == 0 {
          npc := true;
        } else {
          npc := false;
        }
      } else {
        npc := false;
      }
      alive := hp.value > 0;
    }
  }

  /** A fitting contour in screen coordinates, unless it starts in the
      HP-bar corner. */
  function MobOf(r: Rect, a: ROIArea): MobsPosition
  {
    MobsPosition(a.minX + r.minX, a.minX + r.maxX, a.minY + r.minY, a.minY + r.maxY)
  }

  predicate InHpArea(m: MobsPosition)
  {
    m.minX <= HpAreaMaxX && m.minY <= HpAreaMaxY
  }

  /** The mobs the contours yield inside region `a`. */
  function MobsFrom(contours: seq<Rect>, a: ROIArea, f: Filter): seq<MobsPosition>
  {
    if contours == [] then []
    else
      var init := MobsFrom(contours[..|contours| - 1], a, f);
      var c := contours[|contours| - 1];
      if InBox(c, f) && !InHpArea(MobOf(c, a)) then init + [MobOf(c, a)] else init
  }

  /** Every reported mob is a fitting contour moved by the region origin
      and outside the HP-bar corner, and every such contour is reported. */
  lemma {:induction false} MobsFromSpec(contours: seq<Rect>, a: ROIArea, f: Filter)
    ensures forall m :: m in MobsFrom(contours, a, f) <==>
                        exists i :: 0 <= i < |contours| && InBox(contours[i], f) && m == MobOf(contours[i], a) && !InHpArea(m)
  {
    if contours != [] {
      var init := contours[..|contours| - 1];
      MobsFromSpec(init, a, f);
      assert forall i :: 0 <= i < |init| ==> init[i] == contours[i];
      forall m | m in MobsFrom(contours, a, f)
        ensures exists i :: 0 <= i < |contours| && InBox(contours[i], f) && m == MobOf(contours[i], a) && !InHpArea(m)
      {
        if m !in MobsFrom(init, a, f) {
          assert m == MobOf(contours[|contours| - 1], a);
        }
      }
    }
  }

  /** `updateMobsDetect`: the list is cleared, then filled from the
      contours; a region outside the image leaves it empty. */
  method UpdateMobsDetect(contours: seq<Rect>, roi: ROIArea, filter: Filter, cols: int, rows: int)
    returns (mobs: seq<MobsPosition>)
    ensures !ROIValid(ActualROI(roi, cols, rows), cols, rows) ==> mobs == []
    ensures ROIValid(ActualROI(roi, cols, rows), cols, rows) ==> mobs == MobsFrom(contours, ActualROI(roi, cols, rows), filter)
  {
    mobs := [];
    var a := ActualROI(roi, cols, rows);
    if a.minX < 0 || a.minY < 0 || a.maxX > cols || a.maxY > rows || a.minX >= a.maxX || a.minY >= a.maxY {
      return;
    }
    var i := 0;
    while i < |contours|
      invariant 0 <= i <= |contours|
      invariant mobs == MobsFrom(contours[..i], a, filter)
    {
      var rect := contours[i];
      assert contours[..i + 1][..i] == contours[..i];
      if InBox(rect, filter) {
        var mob := MobOf(rect, a);
        if !(mob.minX <= HpAreaMaxX && mob.minY <= HpAreaMaxY) {
          mobs := mobs + [mob];
        }
      }
      i := i + 1;
    }
    assert contours[..i] == contours;
  }
}
