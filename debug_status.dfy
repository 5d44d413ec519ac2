/** The cached status-bar detector of src2/debug_status.go
    (`detectStatusBars3`).  While the bars are open, only the fill widths
    are re-read inside the cached regions; every 30th frame, or after too
    many failed readings, the bars are searched again: outer frame, avatar,
    bar area, three bars sorted top to bottom, checked for consistency and
    stored (blended with the previous regions when those were in use).
    The OpenCV pipeline is a parameter: the HSV frame as an `Image`, the
    outer-frame contours as a list and the contour search inside a region
    as a function from the region to its contours' bounding rectangles,
    relative to the region's corner. */
module DebugStatus {
  import opened GoInt
  import opened Wrappers
  import opened ImageRect
  import opened BarFill
  import Sorting

  /** Every 30th counted frame runs the full search. */
  const SampleCount: int := 30
  /** Failed incremental readings tolerated before a full search. */
  const MaxRetry: int := 5
  /** Largest spread the consistency check accepts. */
  const Tolerance: int := 5

  const HPRange := HSVRange(160, 180, 100, 240, 100, 240)
  const MPRange := HSVRange(90, 120, 100, 240, 100, 240)
  const FPRange := HSVRange(45, 70, 100, 240, 100, 240)

  /** The colour range of bar i (HP, MP, FP). */
  function RangeOf(i: int): HSVRange
  {
    if i == 0 then HPRange else if i == 1 then MPRange else FPRange
  }

  const OuterFrame := SizeFilter(400, 600, 180, 300)
  const AvatarBox := SizeFilter(80, 200, 100, 300)
  const BarBox := SizeFilter(100, 300, 5, 30)

  datatype BarROI = BarROI(minX: int, minY: int, maxX: int, maxY: int, width: int)

  /** A bar's percentage, fill width and cached region. */
  datatype BarStatus = BarStatus(value: int, width: int, roi: BarROI)

  const NoBar := BarStatus(0, 0, BarROI(0, 0, 0, 0, 0))

  /** The fields of `detectMyStatus`. */
  datatype Snapshot = Snapshot(open: bool, count: int, retry: int, hp: BarStatus, mp: BarStatus, fp: BarStatus)
  {
    function Bars(): seq<BarStatus>
    {
      [hp, mp, fp]
    }
  }

  /** The retry counter stays within its limit and the frame counter
      never goes negative. */
  predicate SnapshotValid(s: Snapshot)
  {
    0 <= s.retry <= MaxRetry && s.count >= 0
  }

  function RoiRect(roi: BarROI): Rectangle
  {
    Rect(roi.minX, roi.minY, roi.maxX, roi.maxY)
  }

  /** The fill width read inside a bar's cached region: 0 when the region
      has no width or leaves the `cols` x `rows` frame. */
  ghost function BarWidth(b: BarStatus, c: HSVRange, img: Image, cols: int, rows: int): (w: int)
    ensures w > 0 ==> b.roi.width > 0
  {
    if b.roi.width <= 0 then 0
    else
      var r := RoiRect(b.roi);
      if r.minX < 0 || r.minY < 0 || r.maxX > cols || r.maxY > rows then 0
      else Fill(img, c, r)
  }

  ghost function Widths(s: Snapshot, img: Image, cols: int, rows: int): seq<int>
  {
    [BarWidth(s.hp, HPRange, img, cols, rows), BarWidth(s.mp, MPRange, img, cols, rows),
     BarWidth(s.fp, FPRange, img, cols, rows)]
  }

  /** The percentage of a fill against the cached full width, capped at
      100: it reads 100 exactly when the fill reaches the full width, and
      otherwise the share rounded down. */
  function Percent(w: int, full: int): (p: int)
    requires w >= 0 && full > 0
    ensures 0 <= p <= 100
    ensures p == 100 <==> w >= full
    ensures w < full ==> p * full <= w * 100 < (p + 1) * full
  {
    PercentCap(w, full);
    Min(w * 100 / full, 100)
  }

  lemma PercentCap(w: int, full: int)
    requires w >= 0 && full > 0
    ensures w >= full <==> w * 100 / full >= 100
  {
    var q := w * 100 / full;
    assert q * full <= w * 100 < (q + 1) * full;
    if w >= full {
      assert 100 * full <= w * 100;
      MulLessCancel(100, q + 1, full);
    } else {
      assert w * 100 < 100 * full;
      MulLessCancel(q, 100, full);
    }
  }

  lemma MulLessCancel(a: int, b: int, c: int)
    requires c > 0 && a * c < b * c
    ensures a < b
  {
  }

  /** A bar re-read with fill `w` inside its cached region. */
  function Measured(b: BarStatus, w: int): BarStatus
    requires w > 0 && b.roi.width > 0
  {
    BarStatus(Percent(w, b.roi.width), w, b.roi)
  }

  /** A failed incremental reading: counted while retries remain,
      otherwise the bars are closed and counters reset so that the full
      search runs on this frame.  The flag says whether the frame is done. */
  function FailNext(s: Snapshot): (Snapshot, bool)
  {
    if s.retry < MaxRetry then (s.(retry := s.retry + 1), true)
    else (s.(open := false, count := 0, retry := 0), false)
  }

  /** The incremental reading: all three fills found updates the bars,
      counts the frame and clears the retries. */
  ghost function IncrementalNext(s: Snapshot, img: Image, cols: int, rows: int): (Snapshot, bool)
  {
    var w := Widths(s, img, cols, rows);
    if w[0] > 0 && w[1] > 0 && w[2] > 0 then
      (s.(count := s.count + 1, retry := 0, hp := Measured(s.hp, w[0]), mp := Measured(s.mp, w[1]),
          fp := Measured(s.fp, w[2])), true)
    else FailNext(s)
  }

  /** The incremental path runs exactly when the bars are open and the
      frame counter is not a multiple of 30. */
  predicate Incremental(s: Snapshot)
  {
    s.open && Rem(s.count, SampleCount) != 0
  }

  /** The state the full search starts from, and whether the frame was
      already handled by the incremental path. */
  ghost function Start(s: Snapshot, img: Image, cols: int, rows: int): (Snapshot, bool)
  {
    if Incremental(s) then IncrementalNext(s, img, cols, rows) else (s, false)
  }

  /** The bar area in absolute coordinates: right of the avatar up to the
      frame's width, from 15 pixels above the avatar (at least row 1 of
      the frame) down to the avatar's bottom. */
  function BarArea(outline: Rectangle, avatar: Rectangle): Rectangle
  {
    var top := Max(avatar.minY - 15, 1);
    var rel := Rect(avatar.maxX, top, Dx(outline), avatar.maxY);
    Translate(rel, outline.minX, outline.minY)
  }

  /** With the avatar inside the frame, the bar area starts at the
      avatar's right edge, ends at the frame's right edge, and spans from
      the clamped top to the avatar's bottom. */
  lemma BarAreaSpec(outline: Rectangle, avatar: Rectangle)
    requires WellFormed(outline) && WellFormed(avatar)
    requires avatar.maxX <= Dx(outline) && Max(avatar.minY - 15, 1) <= avatar.maxY
    ensures BarArea(outline, avatar) ==
      Rectangle(outline.minX + avatar.maxX, outline.minY + Max(avatar.minY - 15, 1), outline.maxX, outline.minY + avatar.maxY)
    ensures BarArea(outline, avatar).minY > outline.minY
  {
  }

  /** The candidate bars of the full search, unsorted: none when no outer
      frame or no avatar is found. */
  function Found(outer: seq<Rectangle>, contours: Rectangle -> seq<Rectangle>): Option<seq<Rectangle>>
  {
    match FirstFit(outer, OuterFrame)
    case None => None
    case Some(outline) =>
      match FirstFit(contours(outline), AvatarBox)
      case None => None
      case Some(avatar) =>
        var area := BarArea(outline, avatar);
        Some(BarsIn(contours(area), BarBox, area.minX, area.minY))
  }

  /** The fills of the three top bars. */
  ghost function Fills(img: Image, bars: seq<Rectangle>): seq<int>
    requires |bars| >= 3 && forall k :: 0 <= k < |bars| ==> WellFormed(bars[k])
  {
    [Fill(img, HPRange, bars[0]), Fill(img, MPRange, bars[1]), Fill(img, FPRange, bars[2])]
  }

  /** No two elements of `xs` differ by more than `t`. */
  ghost predicate WithinPairs(xs: seq<int>, t: int)
  {
    forall p, q :: 0 <= p < |xs| && 0 <= q < |xs| ==> xs[p] - xs[q] <= t
  }

  /** The consistency check: the three bars' left edges, right edges,
      heights and fills each differ pairwise by at most 5, and the two
      gaps between consecutive bars differ by at most 5. */
  ghost predicate Consistent(bars: seq<Rectangle>, fills: seq<int>)
    requires |bars| >= 3
  {
    WithinPairs([bars[0].minX, bars[1].minX, bars[2].minX], Tolerance) &&
    WithinPairs([bars[0].maxX, bars[1].maxX, bars[2].maxX], Tolerance) &&
    WithinPairs([Dy(bars[0]), Dy(bars[1]), Dy(bars[2])], Tolerance) &&
    WithinPairs(fills, Tolerance) &&
    Abs((bars[1].minY - bars[0].maxY) - (bars[2].minY - bars[1].maxY)) <= Tolerance
  }

  /** `int(prior*0.7 + latest*0.3)`, over exact rationals. */
  function Blend(prior: int, latest: int): int
  {
    Trunc(prior as real * 0.7 + latest as real * 0.3)
  }

  /** The blend of a value with itself is that value, and a blend never
      leaves the range of its two inputs. */
  lemma BlendSpec(a: int, b: int)
    ensures Blend(a, a) == a
    ensures Min(a, b) <= Blend(a, b) <= Max(a, b)
  {
    var x := a as real * 0.7 + b as real * 0.3;
    assert a as real * 0.7 + a as real * 0.3 == a as real;
    assert Min(a, b) as real <= x <= Max(a, b) as real;
  }

  /** The region stored for a bar found at `bar` with fill `fill`: the
      bar itself with the fill as its full width, blended 0.7 old / 0.3
      new when the bars were open and the old region had a width. */
  function NewROI(prev: BarStatus, wasOpen: bool, bar: Rectangle, fill: int): BarROI
  {
    if wasOpen && prev.roi.width > 0 then
      BarROI(Blend(prev.roi.minX, bar.minX), Blend(prev.roi.minY, bar.minY), Blend(prev.roi.maxX, bar.maxX),
             Blend(prev.roi.maxY, bar.maxY), Blend(prev.roi.width, fill))
    else BarROI(bar.minX, bar.minY, bar.maxX, bar.maxY, fill)
  }

  /** Consistent bars are stored full: value 100, the fill as width, a
      new region, the bars open, the frame counted and the retries clear. */
  function Accept(s: Snapshot, bars: seq<Rectangle>, fills: seq<int>): Snapshot
    requires |bars| >= 3 && |fills| == 3
  {
    Snapshot(true, s.count + 1, 0,
             BarStatus(100, fills[0], NewROI(s.hp, s.open, bars[0], fills[0])),
             BarStatus(100, fills[1], NewROI(s.mp, s.open, bars[1], fills[1])),
             BarStatus(100, fills[2], NewROI(s.fp, s.open, bars[2], fills[2])))
  }

  /** The end of the full search over the sorted bars: fewer than three
      bars, or inconsistent ones, change nothing. */
  ghost function AfterBars(s: Snapshot, bars: seq<Rectangle>, img: Image): Snapshot
    requires forall k :: 0 <= k < |bars| ==> WellFormed(bars[k])
  {
    if |bars| < 3 then s
    else if Consistent(bars, Fills(img, bars)) then Accept(s, bars, Fills(img, bars))
    else s
  }

  /** Accepted bars read 100 with the fill as width; a region that was not
      in use is replaced by the bar with the fill as full width, and a
      blended region lies between the old region and the new bar. */
  lemma AcceptSpec(s: Snapshot, bars: seq<Rectangle>, fills: seq<int>, i: int)
    requires |bars| >= 3 && |fills| == 3 && 0 <= i < 3
    ensures Accept(s, bars, fills).Bars()[i].value == 100
    ensures Accept(s, bars, fills).Bars()[i].width == fills[i]
    ensures !(s.open && s.Bars()[i].roi.width > 0) ==>
      Accept(s, bars, fills).Bars()[i].roi == BarROI(bars[i].minX, bars[i].minY, bars[i].maxX, bars[i].maxY, fills[i])
    ensures s.open && s.Bars()[i].roi.width > 0 ==>
      Min(s.Bars()[i].roi.width, fills[i]) <= Accept(s, bars, fills).Bars()[i].roi.width <= Max(s.Bars()[i].roi.width, fills[i]) &&
      Min(s.Bars()[i].roi.minY, bars[i].minY) <= Accept(s, bars, fills).Bars()[i].roi.minY <= Max(s.Bars()[i].roi.minY, bars[i].minY)
  {
    var prev := s.Bars()[i];
    BlendSpec(prev.roi.width, fills[i]);
    BlendSpec(prev.roi.minY, bars[i].minY);
  }

  /** Every step keeps the retry counter within its limit and the frame
      counter non-negative. */
  lemma StepKeepsValid(s: Snapshot, img: Image, cols: int, rows: int, bars: seq<Rectangle>)
    requires SnapshotValid(s)
    requires forall k :: 0 <= k < |bars| ==> WellFormed(bars[k])
    ensures SnapshotValid(Start(s, img, cols, rows).0)
    ensures SnapshotValid(AfterBars(Start(s, img, cols, rows).0, bars, img))
  {
  }

  /** `n` failed readings in a row. */
  function Failures(s: Snapshot, n: nat): Snapshot
  {
    if n == 0 then s else FailNext(Failures(s, n - 1)).0
  }

  /** From retry count r, the next 5 - r failed readings are absorbed
      (each counted, nothing else changed) and the one after them closes
      the bars and hands the frame to the full search. */
  lemma {:induction false} FailuresAbsorbed(s: Snapshot, n: nat)
    requires 0 <= s.retry && n <= MaxRetry - s.retry
    ensures Failures(s, n) == s.(retry := s.retry + n)
    ensures n < MaxRetry - s.retry ==> FailNext(Failures(s, n)).1
    ensures n == MaxRetry - s.retry ==>
      FailNext(Failures(s, n)) == (s.(open := false, count := 0, retry := 0), false)
  {
    if n > 0 {
      FailuresAbsorbed(s, n - 1);
    }
  }

  /** The largest difference between two elements: the source's running
      maximum and minimum. */
  method Spread(xs: seq<int>) returns (d: int)
    requires xs != []
    ensures forall p, q :: 0 <= p < |xs| && 0 <= q < |xs| ==> xs[p] - xs[q] <= d
    ensures exists p, q :: 0 <= p < |xs| && 0 <= q < |xs| && xs[p] - xs[q] == d
  {
    var hi, lo := xs[0], xs[0];
    ghost var iHi, iLo := 0, 0;
    var i := 1;
    while i < |xs|
      invariant 1 <= i <= |xs|
      invariant 0 <= iHi < i && xs[iHi] == hi && 0 <= iLo < i && xs[iLo] == lo
      invariant forall k :: 0 <= k < i ==> lo <= xs[k] <= hi
    {
      if xs[i] > hi {
        hi, iHi := xs[i], i;
      }
      if xs[i] < lo {
        lo, iLo := xs[i], i;
      }
      i := i + 1;
    }
    d := hi - lo;
  }

  /** The validation of the three top bars. */
  method Validate(bars: seq<Rectangle>, fills: seq<int>) returns (valid: bool)
    requires |bars| >= 3 && |fills| == 3
    ensures valid <==> Consistent(bars, fills)
  {
    var minXs := [bars[0].minX, bars[1].minX, bars[2].minX];
    var maxXs := [bars[0].maxX, bars[1].maxX, bars[2].maxX];
    var heights := [Dy(bars[0]), Dy(bars[1]), Dy(bars[2])];
    var minXDiff := Spread(minXs);
    var maxXDiff := Spread(maxXs);
    var heightDiff := Spread(heights);
    var hpMpGap := bars[1].minY - bars[0].maxY;
    var mpFpGap := bars[2].minY - bars[1].maxY;
    var gapDiff := hpMpGap - mpFpGap;
    if gapDiff < 0 {
      gapDiff := -gapDiff;
    }
    var fillWidthDiff := Spread(fills);
    valid := minXDiff <= Tolerance && maxXDiff <= Tolerance && heightDiff <= Tolerance &&
             gapDiff <= Tolerance && fillWidthDiff <= Tolerance;
    SpreadWithin(minXs, minXDiff, Tolerance);
    SpreadWithin(maxXs, maxXDiff, Tolerance);
    SpreadWithin(heights, heightDiff, Tolerance);
    SpreadWithin(fills, fillWidthDiff, Tolerance);
  }

  /** A spread within `t` is exactly a sequence whose elements pairwise
      differ by at most `t`. */
  lemma SpreadWithin(xs: seq<int>, d: int, t: int)
    requires forall p, q :: 0 <= p < |xs| && 0 <= q < |xs| ==> xs[p] - xs[q] <= d
    requires exists p, q :: 0 <= p < |xs| && 0 <= q < |xs| && xs[p] - xs[q] == d
    ensures d <= t <==> WithinPairs(xs, t)
  {
    var p, q :| 0 <= p < |xs| && 0 <= q < |xs| && xs[p] - xs[q] == d;
  }

  /** `detectMyStatus`, kept across frames. */
  class Status {
    var open: bool
    var count: int
    var retry: int
    var hp: BarStatus
    var mp: BarStatus
    var fp: BarStatus

    function State(): Snapshot
      reads this
    {
      Snapshot(open, count, retry, hp, mp, fp)
    }

    ghost predicate Valid()
      reads this
    {
      SnapshotValid(State())
    }

    /** The detector starts closed with zeroed counters and bars. */
    constructor()
      ensures State() == Snapshot(false, 0, 0, NoBar, NoBar, NoBar)
      ensures Valid()
    {
      open, count, retry := false, 0, 0;
      hp, mp, fp := NoBar, NoBar, NoBar;
    }

    /** `detectBarsValue`: the fill width inside each cached region. */
    method BarsValue(img: Image, cols: int, rows: int) returns (widths: seq<int>)
      ensures widths == Widths(State(), img, cols, rows)
    {
      var bars := [hp, mp, fp];
      widths := [];
      var i := 0;
      while i < 3
        invariant 0 <= i <= 3
        invariant |widths| == i
        invariant forall k :: 0 <= k < i ==> widths[k] == BarWidth(bars[k], RangeOf(k), img, cols, rows)
      {
        var w := 0;
        var roi := bars[i].roi;
        if roi.width > 0 {
          var r := RoiRect(roi);
          if !(r.minX < 0 || r.minY < 0 || r.maxX > cols || r.maxY > rows) {
            w := FillWidth(img, RangeOf(i), r);
          }
        }
        widths := widths + [w];
        i := i + 1;
      }
    }

    /** The incremental path for one frame; `handled` is false when the
        retries ran out and the full search must follow. */
    method IncrementalStep(img: Image, cols: int, rows: int) returns (handled: bool)
      modifies this
      ensures (State(), handled) == IncrementalNext(old(State()), img, cols, rows)
    {
      var w := BarsValue(img, cols, rows);
      if w[0] > 0 && w[1] > 0 && w[2] > 0 {
        hp, mp, fp := Measured(hp, w[0]), Measured(mp, w[1]), Measured(fp, w[2]);
        count := count + 1;
        retry := 0;
        handled := true;
      } else if retry < MaxRetry {
        retry := retry + 1;
        handled := true;
      } else {
        open, count, retry := false, 0, 0;
        handled := false;
      }
    }

    /** The fill widths of the three top bars. */
    method MeasureBars(img: Image, bars: seq<Rectangle>) returns (fills: seq<int>)
      requires |bars| >= 3 && forall k :: 0 <= k < |bars| ==> WellFormed(bars[k])
      ensures fills == Fills(img, bars)
    {
      fills := [];
      var i := 0;
      while i < 3
        invariant 0 <= i <= 3
        invariant |fills| == i
        invariant forall k :: 0 <= k < i ==> fills[k] == Fill(img, RangeOf(k), bars[k])
      {
        var f := FillWidth(img, RangeOf(i), bars[i]);
        fills := fills + [f];
        i := i + 1;
      }
    }

    /** Step 10: measure, validate and store the top three sorted bars. */
    method ApplyBars(img: Image, bars: seq<Rectangle>)
      requires forall k :: 0 <= k < |bars| ==> WellFormed(bars[k])
      modifies this
      ensures State() == AfterBars(old(State()), bars, img)
    {
      if |bars| >= 3 {
        var fills := MeasureBars(img, bars);
        var valid := Validate(bars, fills);
        if valid {
          var s := Accept(State(), bars, fills);
          open, count, retry, hp, mp, fp := s.open, s.count, s.retry, s.hp, s.mp, s.fp;
        }
      }
    }

    /** Steps 7 to 10: outer frame, avatar, bar area, bars sorted top to
        bottom.  `bars` are the sorted candidates. */
    method FullSearch(img: Image, outer: seq<Rectangle>, contours: Rectangle -> seq<Rectangle>)
      returns (bars: seq<Rectangle>)
      modifies this
      ensures Found(outer, contours).None? ==> State() == old(State()) && bars == []
      ensures Found(outer, contours).Some? ==>
        Sorting.SortedBy(bars, Top) && multiset(bars) == multiset(Found(outer, contours).value) &&
        (forall k :: 0 <= k < |bars| ==> WellFormed(bars[k])) &&
        State() == AfterBars(old(State()), bars, img)
    {
      bars := [];
      var outline := FirstMatch(outer, OuterFrame);
      if outline.None? {
        return;
      }
      var avatar := FirstMatch(contours(outline.value), AvatarBox);
      if avatar.None? {
        return;
      }
      var area := BarArea(outline.value, avatar.value);
      var found := CollectBars(contours(area), BarBox, area.minX, area.minY);
      BarsInSpec(contours(area), BarBox, area.minX, area.minY);
      var a := new Rectangle[|found|](k requires 0 <= k < |found| => found[k]);
      assert a[..] == found;
      Sorting.ExchangeSort(a, Top);
      bars := a[..];
      forall k | 0 <= k < |bars|
        ensures WellFormed(bars[k])
      {
        assert bars[k] in multiset(found);
      }
      ApplyBars(img, bars);
    }

    /** One frame of `detectStatusBars3`: the incremental path when it
        applies, the full search when it does not or when it gave up. */
    method Detect(img: Image, cols: int, rows: int, outer: seq<Rectangle>, contours: Rectangle -> seq<Rectangle>)
      returns (bars: seq<Rectangle>)
      requires Valid()
      modifies this
      ensures Valid()
      ensures Start(old(State()), img, cols, rows).1 ==> State() == Start(old(State()), img, cols, rows).0 && bars == []
      ensures !Start(old(State()), img, cols, rows).1 && Found(outer, contours).None? ==>
        State() == Start(old(State()), img, cols, rows).0 && bars == []
      ensures !Start(old(State()), img, cols, rows).1 && Found(outer, contours).Some? ==>
        Sorting.SortedBy(bars, Top) && multiset(bars) == multiset(Found(outer, contours).value) &&
        (forall k :: 0 <= k < |bars| ==> WellFormed(bars[k])) &&
        State() == AfterBars(Start(old(State()), img, cols, rows).0, bars, img)
    {
      ghost var s0 := State();
      if open && Rem(count, SampleCount) != 0 {
        var handled := IncrementalStep(img, cols, rows);
        if handled {
          bars := [];
          StepKeepsValid(s0, img, cols, rows, []);
          return;
        }
      }
      ghost var s1 := State();
      assert s1 == Start(s0, img, cols, rows).0;
      bars := FullSearch(img, outer, contours);
      StepKeepsValid(s0, img, cols, rows, bars);
    }
  }
}
