/** The stand-alone detector of src/test: monster names by colour, the
    player and target bars by reference-colour matching, and the minimap
    direction by sector binning.  Frames are functions from (row, column)
    to a BGR pixel; contour extraction, `atan2` and `sqrt` are inputs. */
module TestMain {
  import opened GoInt
  import opened Wrappers
  import opened ImageRect
  import Data
  import Stats

  type Byte = Data.Byte

  /** A BGR pixel, `[3]uint8`. */
  type Pixel = p: seq<Byte> | |p| == 3 witness [0, 0, 0]

  /** A frame: the pixel at (row, column). */
  type Frame = (int, int) -> Pixel

  // ---------------------------------------------------------------------
  // Pixel matching

  /** Every channel lies within `tolerance` of the reference: the
      absolute difference of the two values is at most `tolerance`. */
  predicate ChannelsWithin(pixel: Pixel, ref: Pixel, tolerance: Byte)
  {
    forall i :: 0 <= i < 3 ==>
      (pixel[i] as int) - (tolerance as int) <= ref[i] as int <= (pixel[i] as int) + (tolerance as int)
  }

  /** The channel loop of `pixelMatches`: the unsigned difference taken in
      the order that cannot wrap, and a mismatch returns at once. */
  method PixelMatches(pixel: Pixel, ref: Pixel, tolerance: Byte) returns (m: bool)
    ensures m <==> ChannelsWithin(pixel, ref, tolerance)
  {
    var i := 0;
    while i < 3
      invariant 0 <= i <= 3
      invariant forall j :: 0 <= j < i ==>
        (pixel[j] as int) - (tolerance as int) <= ref[j] as int <= (pixel[j] as int) + (tolerance as int)
    {
      var diff: Byte;
      if pixel[i] > ref[i] {
        diff := pixel[i] - ref[i];
      } else {
        diff := ref[i] - pixel[i];
      }
      if diff > tolerance {
        return false;
      }
      i := i + 1;
    }
    return true;
  }

  /** A pixel matches itself at every tolerance, and matching does not
      depend on which side is the reference. */
  lemma ChannelsWithinReflexiveSymmetric(p: Pixel, q: Pixel, tolerance: Byte)
    ensures ChannelsWithin(p, p, tolerance)
    ensures ChannelsWithin(p, q, tolerance) <==> ChannelsWithin(q, p, tolerance)
  {
  }

  /** A larger tolerance accepts everything a smaller one does. */
  lemma ChannelsWithinMonotone(p: Pixel, q: Pixel, t: Byte, u: Byte)
    requires t <= u && ChannelsWithin(p, q, t)
    ensures ChannelsWithin(p, q, u)
  {
  }

  // ---------------------------------------------------------------------
  // Bar percentage

  const Tolerance: Byte := 2

  function Bgr(b: Byte, g: Byte, r: Byte): (p: Pixel)
    ensures p[0] == b && p[1] == g && p[2] == r
  {
    [b, g, r]
  }

  /** The reference colours of each bar type; an unknown type has none. */
  function RefColors(barType: string): (refs: Option<seq<Pixel>>)
    ensures refs.Some? ==> |refs.value| > 0
  {
    if barType == "hp" then
      Some([Bgr(51, 129, 156), Bgr(52, 129, 156), Bgr(53, 130, 157), Bgr(55, 132, 158), Bgr(56, 144, 174), Bgr(69, 200, 237)])
    else if barType == "mp" then
      Some([Bgr(127, 125, 125), Bgr(131, 129, 129), Bgr(132, 129, 129), Bgr(135, 132, 132), Bgr(85, 83, 83)])
    else if barType == "fp" then
      Some([Bgr(78, 74, 76), Bgr(79, 75, 76), Bgr(80, 76, 77), Bgr(72, 68, 69), Bgr(73, 70, 70), Bgr(27, 23, 24)])
    else if barType == "target_hp" then
      Some([Bgr(13, 58, 22), Bgr(17, 141, 56), Bgr(17, 152, 60), Bgr(18, 163, 65), Bgr(17, 174, 70),
            Bgr(19, 185, 74), Bgr(19, 196, 79), Bgr(18, 206, 83), Bgr(18, 216, 88), Bgr(100, 159, 107)])
    else if barType == "target_mp" then
      Some([Bgr(127, 125, 125)])
    else None
  }

  /** Exactly the five bar types have reference colours. */
  lemma RefColorsKnown(barType: string)
    ensures RefColors(barType).Some? <==>
      barType in {"hp", "mp", "fp", "target_hp", "target_mp"}
  {
  }

  predicate AnyMatch(p: Pixel, refs: seq<Pixel>)
  {
    exists k :: 0 <= k < |refs| && ChannelsWithin(p, refs[k], Tolerance)
  }

  /** The loop over the reference colours, left at the first match. */
  method MatchesAny(p: Pixel, refs: seq<Pixel>) returns (hit: bool)
    ensures hit <==> AnyMatch(p, refs)
  {
    hit := false;
    var k := 0;
    while k < |refs|
      invariant 0 <= k <= |refs|
      invariant !hit && forall j :: 0 <= j < k ==> !ChannelsWithin(p, refs[j], Tolerance)
    {
      var m := PixelMatches(p, refs[k], Tolerance);
      if m {
        hit := true;
        return;
      }
      k := k + 1;
    }
  }

  /** Some row of column `c` holds a matching pixel. */
  ghost predicate ColumnMatched(roi: Frame, refs: seq<Pixel>, rows: nat, c: int)
  {
    exists y :: 0 <= y < rows && AnyMatch(roi(y, c), refs)
  }

  /** The rightmost matched column below `x`, or -1. */
  ghost function Rightmost(roi: Frame, refs: seq<Pixel>, rows: nat, x: nat): int
  {
    if x == 0 then -1
    else if ColumnMatched(roi, refs, rows, x - 1) then x - 1
    else Rightmost(roi, refs, rows, x - 1)
  }

  /** The leftmost matched column in [x, cols), or `cols`. */
  ghost function Leftmost(roi: Frame, refs: seq<Pixel>, rows: nat, cols: nat, x: nat): int
    decreases cols - x
  {
    if x >= cols then cols
    else if ColumnMatched(roi, refs, rows, x) then x
    else Leftmost(roi, refs, rows, cols, x + 1)
  }

  lemma {:induction false} RightmostSpec(roi: Frame, refs: seq<Pixel>, rows: nat, x: nat)
    ensures -1 <= Rightmost(roi, refs, rows, x) < x
    ensures Rightmost(roi, refs, rows, x) >= 0 ==> ColumnMatched(roi, refs, rows, Rightmost(roi, refs, rows, x))
    ensures forall c :: Rightmost(roi, refs, rows, x) < c < x ==> !ColumnMatched(roi, refs, rows, c)
  {
    if x > 0 && !ColumnMatched(roi, refs, rows, x - 1) {
      RightmostSpec(roi, refs, rows, x - 1);
    }
  }

  lemma {:induction false} LeftmostSpec(roi: Frame, refs: seq<Pixel>, rows: nat, cols: nat, x: nat)
    requires x <= cols
    ensures x <= Leftmost(roi, refs, rows, cols, x) <= cols
    ensures Leftmost(roi, refs, rows, cols, x) < cols ==> ColumnMatched(roi, refs, rows, Leftmost(roi, refs, rows, cols, x))
    ensures forall c :: x <= c < Leftmost(roi, refs, rows, cols, x) ==> !ColumnMatched(roi, refs, rows, c)
    decreases cols - x
  {
    if x < cols && !ColumnMatched(roi, refs, rows, x) {
      LeftmostSpec(roi, refs, rows, cols, x + 1);
    }
  }

  /** `(barWidth / totalWidth) * 100`, capped at 100. */
  function Ratio(lo: int, hi: int, cols: int): real
    requires cols > 0
  {
    var p := ((hi - lo + 1) as real / cols as real) * 100.0;
    if p > 100.0 then 100.0 else p
  }

  /** A span inside the ROI gives a positive share of at most 100, and the
      cap never applies to it. */
  lemma RatioBounds(lo: int, hi: int, cols: int)
    requires 0 <= lo <= hi < cols
    ensures 0.0 < Ratio(lo, hi, cols) <= 100.0
    ensures Ratio(lo, hi, cols) == ((hi - lo + 1) as real / cols as real) * 100.0
  {
    var w := (hi - lo + 1) as real;
    var c := cols as real;
    UnitShare(w, c);
  }

  lemma UnitShare(w: real, c: real)
    requires 0.0 < w <= c
    ensures 0.0 < w / c <= 1.0
  {
    var q := w / c;
    assert q * c == w;
    Stats.ScaleCancel(0.0, q, c);
    Stats.ScaleCancel(q, 1.0, c);
  }

  /** `detectBarPercentage`: 0 for an unknown type, for no match and for
      matches in a single column; otherwise the matched span as a share of
      the ROI width. */
  ghost function BarPercentage(roi: Frame, rows: nat, cols: nat, barType: string): real
  {
    match RefColors(barType)
    case None => 0.0
    case Some(refs) =>
      var lo := Leftmost(roi, refs, rows, cols, 0);
      var hi := Rightmost(roi, refs, rows, cols);
      RightmostSpec(roi, refs, rows, cols);
      if hi < 0 || lo >= hi then 0.0 else Ratio(lo, hi, cols)
  }

  /** The percentage lies in [0, 100]; it is positive exactly when two
      different columns match, and then it is the uncapped share of the
      span between the outermost matched columns. */
  lemma BarPercentageSpec(roi: Frame, rows: nat, cols: nat, barType: string)
    ensures RefColors(barType).None? ==> BarPercentage(roi, rows, cols, barType) == 0.0
    ensures 0.0 <= BarPercentage(roi, rows, cols, barType) <= 100.0
    ensures RefColors(barType).Some? ==>
      var refs := RefColors(barType).value;
      (BarPercentage(roi, rows, cols, barType) > 0.0 <==>
        exists a, b :: 0 <= a < b < cols && ColumnMatched(roi, refs, rows, a) && ColumnMatched(roi, refs, rows, b))
    ensures RefColors(barType).Some? && BarPercentage(roi, rows, cols, barType) > 0.0 ==>
      var refs := RefColors(barType).value;
      var lo := Leftmost(roi, refs, rows, cols, 0);
      var hi := Rightmost(roi, refs, rows, cols);
      0 <= lo < hi < cols &&
      BarPercentage(roi, rows, cols, barType) == ((hi - lo + 1) as real / cols as real) * 100.0
  {
    if RefColors(barType).Some? {
      var refs := RefColors(barType).value;
      var lo := Leftmost(roi, refs, rows, cols, 0);
      var hi := Rightmost(roi, refs, rows, cols);
      RightmostSpec(roi, refs, rows, cols);
      LeftmostSpec(roi, refs, rows, cols, 0);
      if 0 <= lo < hi {
        RatioBounds(lo, hi, cols);
      }
    }
  }

  /** Column `c` has a match among the pixels scanned before (y, x) in
      row-major order. */
  ghost predicate Seen(roi: Frame, refs: seq<Pixel>, cols: nat, y: nat, x: nat, c: int)
  {
    0 <= c < cols && (ColumnMatched(roi, refs, y, c) || (c < x && AnyMatch(roi(y, c), refs)))
  }

  lemma NextRow(roi: Frame, refs: seq<Pixel>, cols: nat, y: nat, c: int)
    ensures Seen(roi, refs, cols, y, cols, c) <==> Seen(roi, refs, cols, y + 1, 0, c)
  {
    if 0 <= c < cols && AnyMatch(roi(y, c), refs) {
      assert ColumnMatched(roi, refs, y + 1, c);
    }
    if ColumnMatched(roi, refs, y + 1, c) {
      var yy :| 0 <= yy < y + 1 && AnyMatch(roi(yy, c), refs);
      if yy < y {
        assert ColumnMatched(roi, refs, y, c);
      }
    }
  }

  /** The outermost matched columns, identified from any column that
      bounds all matches from that side. */
  lemma Outermost(roi: Frame, refs: seq<Pixel>, rows: nat, cols: nat, lo: int, hi: int)
    requires 0 <= lo < cols && ColumnMatched(roi, refs, rows, lo)
    requires 0 <= hi < cols && ColumnMatched(roi, refs, rows, hi)
    requires forall c :: 0 <= c < cols && ColumnMatched(roi, refs, rows, c) ==> lo <= c <= hi
    ensures Leftmost(roi, refs, rows, cols, 0) == lo
    ensures Rightmost(roi, refs, rows, cols) == hi
  {
    LeftmostSpec(roi, refs, rows, cols, 0);
    RightmostSpec(roi, refs, rows, cols);
  }

  /** The scan state at (y, x): whether a match was seen, and the least
      and greatest columns seen matching (`cols` and 0 before any match). */
  ghost predicate ScanState(roi: Frame, refs: seq<Pixel>, cols: nat, y: nat, x: nat, found: bool, minX: int, maxX: int)
  {
    (found <==> exists c :: Seen(roi, refs, cols, y, x, c)) &&
    (found ==> Seen(roi, refs, cols, y, x, minX) && Seen(roi, refs, cols, y, x, maxX)) &&
    (forall c :: Seen(roi, refs, cols, y, x, c) ==> minX <= c <= maxX) &&
    (!found ==> minX == cols && maxX == 0)
  }

  /** Scanning pixel (y, x) adds its column to the seen ones when it
      matches. */
  lemma ScanStep(roi: Frame, refs: seq<Pixel>, cols: nat, y: nat, x: nat, found: bool, minX: int, maxX: int)
    requires x < cols && ScanState(roi, refs, cols, y, x, found, minX, maxX)
    ensures var hit := AnyMatch(roi(y, x), refs);
      ScanState(roi, refs, cols, y, x + 1, found || hit,
        if hit && x < minX then x else minX, if hit && x > maxX then x else maxX)
  {
    var hit := AnyMatch(roi(y, x), refs);
    var lo := if hit && x < minX then x else minX;
    var hi := if hit && x > maxX then x else maxX;
    var x1 := x + 1;
    forall c
      ensures Seen(roi, refs, cols, y, x1, c) <==> Seen(roi, refs, cols, y, x, c) || (c == x && hit)
    {
    }
    if hit {
      assert Seen(roi, refs, cols, y, x1, x);
    } else if found {
      var c :| Seen(roi, refs, cols, y, x, c);
      assert Seen(roi, refs, cols, y, x1, c);
    }
    if found || hit {
      assert Seen(roi, refs, cols, y, x1, lo) && Seen(roi, refs, cols, y, x1, hi);
    }
  }

  /** The end of a row is the start of the next one. */
  lemma RowDone(roi: Frame, refs: seq<Pixel>, cols: nat, y: nat, found: bool, minX: int, maxX: int)
    requires ScanState(roi, refs, cols, y, cols, found, minX, maxX)
    ensures ScanState(roi, refs, cols, y + 1, 0, found, minX, maxX)
  {
    var y1 := y + 1;
    forall c
      ensures Seen(roi, refs, cols, y, cols, c) <==> Seen(roi, refs, cols, y1, 0, c)
    {
      NextRow(roi, refs, cols, y, c);
    }
    if found {
      var c :| Seen(roi, refs, cols, y, cols, c);
      assert Seen(roi, refs, cols, y1, 0, c);
    }
  }

  /** One row of the pixel scan, left to right. */
  method ScanRow(roi: Frame, refs: seq<Pixel>, cols: nat, y: nat, found0: bool, minX0: int, maxX0: int)
    returns (found: bool, minX: int, maxX: int)
    requires ScanState(roi, refs, cols, y, 0, found0, minX0, maxX0)
    ensures ScanState(roi, refs, cols, y + 1, 0, found, minX, maxX)
  {
    found, minX, maxX := found0, minX0, maxX0;
    var x := 0;
    while x < cols
      invariant 0 <= x <= cols
      invariant ScanState(roi, refs, cols, y, x, found, minX, maxX)
    {
      var hit := MatchesAny(roi(y, x), refs);
      ScanStep(roi, refs, cols, y, x, found, minX, maxX);
      found, minX, maxX := found || hit, if hit && x < minX then x else minX, if hit && x > maxX then x else maxX;
      x := x + 1;
    }
    RowDone(roi, refs, cols, y, found, minX, maxX);
  }

  /** The pixel scan: whether anything matched, and the least and greatest
      matched columns (`cols` and 0 when nothing did). */
  method ScanSpan(roi: Frame, refs: seq<Pixel>, rows: nat, cols: nat) returns (found: bool, minX: int, maxX: int)
    ensures found <==> exists c :: 0 <= c < cols && ColumnMatched(roi, refs, rows, c)
    ensures found ==> minX == Leftmost(roi, refs, rows, cols, 0) && maxX == Rightmost(roi, refs, rows, cols)
    ensures !found ==> minX == cols && maxX == 0 && Rightmost(roi, refs, rows, cols) == -1
  {
    minX, maxX, found := cols, 0, false;
    var y := 0;
    while y < rows
      invariant 0 <= y <= rows
      invariant ScanState(roi, refs, cols, y, 0, found, minX, maxX)
    {
      found, minX, maxX := ScanRow(roi, refs, cols, y, found, minX, maxX);
      y := y + 1;
    }
    assert forall c :: Seen(roi, refs, cols, rows, 0, c) <==> 0 <= c < cols && ColumnMatched(roi, refs, rows, c);
    if found {
      Outermost(roi, refs, rows, cols, minX, maxX);
    } else {
      RightmostSpec(roi, refs, rows, cols);
    }
  }

  /** `detectBarPercentage` on a `rows` x `cols` ROI. */
  method DetectBarPercentage(roi: Frame, rows: nat, cols: nat, barType: string) returns (pct: real)
    ensures pct == BarPercentage(roi, rows, cols, barType)
  {
    var refs := RefColors(barType);
    if refs.None? {
      return 0.0;
    }
    var found, minX, maxX := ScanSpan(roi, refs.value, rows, cols);
    if !found || minX >= maxX {
      return 0.0;
    }
    RightmostSpec(roi, refs.value, rows, cols);
    var barWidth := (maxX - minX + 1) as real;
    var totalWidth := cols as real;
    pct := (barWidth / totalWidth) * 100.0;
    if pct > 100.0 {
      pct := 100.0;
    }
  }

  // ---------------------------------------------------------------------
  // Player and target stats

  datatype PlayerStats = PlayerStats(hp: real, mp: real, fp: real)

  datatype TargetStats = TargetStats(hp: real, mp: real)

  /** The sub-frame whose top-left pixel is (x0, y0) of `img`. */
  function Region(img: Frame, x0: int, y0: int): Frame
  {
    (y, x) => img(y + y0, x + x0)
  }

  /** The region lies inside a `cols` x `rows` frame, as `Mat.Region`
      requires. */
  predicate RegionInside(r: Rectangle, cols: int, rows: int)
  {
    0 <= r.minX && 0 <= r.minY && r.maxX <= cols && r.maxY <= rows
  }

  const HPRegion := Rectangle(200, 8, 400, 10)
  const MPRegion := Rectangle(200, 14, 400, 16)
  const FPRegion := Rectangle(200, 20, 400, 22)

  /** The height guard of `DetectStats` covers all three bar rows. */
  lemma PlayerGuardCovers(cols: int, rows: int)
    requires rows >= 250 && cols >= 400
    ensures RegionInside(HPRegion, cols, rows) && RegionInside(MPRegion, cols, rows) && RegionInside(FPRegion, cols, rows)
  {
  }

  /** `DetectStats`: nothing below 250 rows. From 250 rows on the three bar
      regions are cut out; the source never checks the frame's width, and
      a frame narrower than 400 columns makes `Mat.Region` fail, which the
      model reports as `fault`. Otherwise the three bars' percentages,
      reported only when one of them is non-zero. */
  method DetectStats(img: Frame, rows: nat, cols: nat) returns (stats: PlayerStats, ok: bool, fault: bool)
    ensures rows < 250 ==> !ok && !fault && stats == PlayerStats(0.0, 0.0, 0.0)
    ensures rows >= 250 ==> (fault <==> !RegionInside(HPRegion, cols, rows))
    ensures fault ==> !ok && stats == PlayerStats(0.0, 0.0, 0.0)
    ensures rows >= 250 && !fault ==>
      var hp := BarPercentage(Region(img, 200, 8), 2, 200, "hp");
      var mp := BarPercentage(Region(img, 200, 14), 2, 200, "mp");
      var fp := BarPercentage(Region(img, 200, 20), 2, 200, "fp");
      (ok <==> !(hp == 0.0 && mp == 0.0 && fp == 0.0)) &&
      stats == (if ok then PlayerStats(hp, mp, fp) else PlayerStats(0.0, 0.0, 0.0))
  {
    if rows < 250 {
      return PlayerStats(0.0, 0.0, 0.0), false, false;
    }
    if !RegionInside(HPRegion, cols, rows) {
      return PlayerStats(0.0, 0.0, 0.0), false, true;
    }
    PlayerGuardCovers(cols, rows);
    var hp := DetectBarPercentage(Region(img, 200, 8), 2, 200, "hp");
    var mp := DetectBarPercentage(Region(img, 200, 14), 2, 200, "mp");
    var fp := DetectBarPercentage(Region(img, 200, 20), 2, 200, "fp");
    if hp == 0.0 && mp == 0.0 && fp == 0.0 {
      return PlayerStats(0.0, 0.0, 0.0), false, false;
    }
    return PlayerStats(hp, mp, fp), true, false;
  }

  const TargetHPRegion := Rectangle(250, 145, 380, 147)
  const TargetMPRegion := Rectangle(250, 150, 380, 152)

  /** The height guard of `DetectTargetStats` as written: 80 rows. */
  predicate TargetGuardAsWritten(rows: int)
  {
    rows >= 80
  }

  /** A 400 x 100 frame passes the written guard, yet both target bar
      regions lie below its last row. */
  lemma TargetGuardAdmitsShortFrame()
    ensures TargetGuardAsWritten(100)
    ensures !RegionInside(TargetHPRegion, 400, 100) && !RegionInside(TargetMPRegion, 400, 100)
  {
  }

  /** The guard the regions call for: the frame reaches the last row read. */
  predicate TargetGuard(rows: int)
  {
    rows >= TargetMPRegion.maxY
  }

  /** The corrected guard admits exactly the frames tall enough for both
      regions. */
  lemma TargetGuardSpec(cols: int, rows: int)
    requires cols >= 380
    ensures TargetGuard(rows) <==> RegionInside(TargetHPRegion, cols, rows) && RegionInside(TargetMPRegion, cols, rows)
  {
  }

  /** `DetectTargetStats` with a height guard of `minRows` rows: nothing
      below the guard; past it the two bar regions are cut out, and one
      that leaves the frame makes `Mat.Region` fail (`fault`); otherwise
      the two percentages, reported only when one is non-zero. */
  method TargetStatsGuarded(img: Frame, rows: nat, cols: nat, minRows: int)
    returns (stats: TargetStats, ok: bool, fault: bool)
    ensures rows < minRows ==> !ok && !fault && stats == TargetStats(0.0, 0.0)
    ensures rows >= minRows ==>
      (fault <==> !(RegionInside(TargetHPRegion, cols, rows) && RegionInside(TargetMPRegion, cols, rows)))
    ensures fault ==> !ok && stats == TargetStats(0.0, 0.0)
    ensures rows >= minRows && !fault ==>
      var hp := BarPercentage(Region(img, 250, 145), 2, 130, "target_hp");
      var mp := BarPercentage(Region(img, 250, 150), 2, 130, "target_mp");
      (ok <==> !(hp == 0.0 && mp == 0.0)) &&
      stats == (if ok then TargetStats(hp, mp) else TargetStats(0.0, 0.0))
  {
    if rows < minRows {
      return TargetStats(0.0, 0.0), false, false;
    }
    if !RegionInside(TargetHPRegion, cols, rows) || !RegionInside(TargetMPRegion, cols, rows) {
      return TargetStats(0.0, 0.0), false, true;
    }
    var hp := DetectBarPercentage(Region(img, 250, 145), 2, 130, "target_hp");
    var mp := DetectBarPercentage(Region(img, 250, 150), 2, 130, "target_mp");
    if hp == 0.0 && mp == 0.0 {
      return TargetStats(0.0, 0.0), false, false;
    }
    return TargetStats(hp, mp), true, false;
  }

  /** `DetectTargetStats` as written, with its 80-row guard: a frame of 80
      to 151 rows passes the guard and then faults in `Mat.Region`. */
  method DetectTargetStats(img: Frame, rows: nat, cols: nat) returns (stats: TargetStats, ok: bool, fault: bool)
    ensures !TargetGuardAsWritten(rows) ==> !ok && !fault
    ensures TargetGuardAsWritten(rows) && !TargetGuard(rows) ==> fault && !ok
    ensures TargetGuard(rows) ==> (fault <==> cols < 380)
    ensures TargetGuard(rows) && cols >= 380 ==>
      var hp := BarPercentage(Region(img, 250, 145), 2, 130, "target_hp");
      var mp := BarPercentage(Region(img, 250, 150), 2, 130, "target_mp");
      (ok <==> !(hp == 0.0 && mp == 0.0)) &&
      stats == (if ok then TargetStats(hp, mp) else TargetStats(0.0, 0.0))
  {
    stats, ok, fault := TargetStatsGuarded(img, rows, cols, 80);
  }

  /** `DetectTargetStats` with the corrected 152-row guard: a
      frame at least 380 columns wide never faults, and a frame the guard
      turns away is one the regions do not fit. */
  method DetectTargetStatsCorrected(img: Frame, rows: nat, cols: nat) returns (stats: TargetStats, ok: bool, fault: bool)
    ensures cols >= 380 ==> !fault
    ensures !TargetGuard(rows) ==> !ok && !fault && !RegionInside(TargetMPRegion, cols, rows)
    ensures TargetGuard(rows) && cols >= 380 ==>
      var hp := BarPercentage(Region(img, 250, 145), 2, 130, "target_hp");
      var mp := BarPercentage(Region(img, 250, 150), 2, 130, "target_mp");
      (ok <==> !(hp == 0.0 && mp == 0.0)) &&
      stats == (if ok then TargetStats(hp, mp) else TargetStats(0.0, 0.0))
  {
    stats, ok, fault := TargetStatsGuarded(img, rows, cols, TargetMPRegion.maxY);
  }

  // ---------------------------------------------------------------------
  // Monster names

  datatype Target = Target(name: string, x: int, y: int, width: int, height: int, color: string)

  /** Name boxes are 35 to 260 pixels wide and 8 to 30 high. */
  const NameBox := SizeFilter(35, 260, 8, 30)

  function TargetOf(r: Rectangle, name: string, color: string): Target
  {
    Target(name, r.minX, r.minY, Dx(r), Dy(r), color)
  }

  /** The targets `extractTargets` builds from the bounding rectangles of
      a mask's contours, in contour order. */
  function TargetsOf(rects: seq<Rectangle>, name: string, color: string): seq<Target>
  {
    if rects == [] then []
    else
      var front := TargetsOf(rects[..|rects| - 1], name, color);
      var last := rects[|rects| - 1];
      if Fits(last, NameBox) then front + [TargetOf(last, name, color)] else front
  }

  /** Every target comes from a name-sized rectangle and carries the given
      name and colour; every name-sized rectangle yields one. */
  lemma {:induction false} TargetsOfSpec(rects: seq<Rectangle>, name: string, color: string)
    ensures |TargetsOf(rects, name, color)| <= |rects|
    ensures forall k :: 0 <= k < |TargetsOf(rects, name, color)| ==>
      exists i :: 0 <= i < |rects| && Fits(rects[i], NameBox) &&
        TargetsOf(rects, name, color)[k] == TargetOf(rects[i], name, color)
    ensures forall i :: 0 <= i < |rects| && Fits(rects[i], NameBox) ==>
      TargetOf(rects[i], name, color) in TargetsOf(rects, name, color)
  {
    if rects != [] {
      var front := rects[..|rects| - 1];
      TargetsOfSpec(front, name, color);
      var ts := TargetsOf(rects, name, color);
      var tf := TargetsOf(front, name, color);
      assert forall i :: 0 <= i < |front| ==> front[i] == rects[i];
      var last := rects[|rects| - 1];
      if Fits(last, NameBox) {
        assert ts == tf + [TargetOf(last, name, color)];
      } else {
        assert ts == tf;
      }
      forall k | 0 <= k < |ts|
        ensures exists i :: 0 <= i < |rects| && Fits(rects[i], NameBox) && ts[k] == TargetOf(rects[i], name, color)
      {
        if k < |tf| {
          assert ts[k] == tf[k];
          var i :| 0 <= i < |front| && Fits(front[i], NameBox) && tf[k] == TargetOf(front[i], name, color);
          assert rects[i] == front[i];
        } else {
          assert ts[k] == TargetOf(rects[|rects| - 1], name, color);
        }
      }
    }
  }

  /** Each target carries the given name and colour and a name-sized box. */
  lemma TargetsAreNames(rects: seq<Rectangle>, name: string, color: string)
    ensures forall t :: t in TargetsOf(rects, name, color) ==>
      t.name == name && t.color == color && 35 <= t.width <= 260 && 8 <= t.height <= 30
  {
    TargetsOfSpec(rects, name, color);
  }

  /** The contour loop of `extractTargets`. */
  method ExtractTargets(rects: seq<Rectangle>, name: string, color: string) returns (targets: seq<Target>)
    ensures targets == TargetsOf(rects, name, color)
  {
    targets := [];
    var i := 0;
    while i < |rects|
      invariant 0 <= i <= |rects|
      invariant targets == TargetsOf(rects[..i], name, color)
    {
      assert rects[..i + 1][..i] == rects[..i];
      if Fits(rects[i], NameBox) {
        targets := targets + [TargetOf(rects[i], name, color)];
      }
      i := i + 1;
    }
    assert rects[..i] == rects;
  }

  /** `DetectTargets`: red names first, then yellow ones, from the two
      masks' contour rectangles. */
  method DetectTargets(redRects: seq<Rectangle>, yellowRects: seq<Rectangle>) returns (targets: seq<Target>)
    ensures targets == TargetsOf(redRects, "Small Mia", "Red") + TargetsOf(yellowRects, "Small Mia", "Yellow")
  {
    var red := ExtractTargets(redRects, "Small Mia", "Red");
    var yellow := ExtractTargets(yellowRects, "Small Mia", "Yellow");
    targets := red + yellow;
  }

  // ---------------------------------------------------------------------
  // Angles

  /** The angle congruent to `angle` modulo 360 in (-180, 180]. */
  function Normalized(angle: real): real
  {
    angle + 360.0 * ((180.0 - angle) / 360.0).Floor as real
  }

  /** The normalised angle lies in (-180, 180] and differs from the input
      by a whole number of turns. */
  lemma NormalizedSpec(angle: real)
    ensures -180.0 < Normalized(angle) <= 180.0
    ensures (Normalized(angle) - angle) / 360.0 == ((Normalized(angle) - angle) / 360.0).Floor as real
  {
  }

  /** It is the only such angle. */
  lemma NormalizedUnique(angle: real, r: real, turns: int)
    requires -180.0 < r <= 180.0 && r == angle + 360.0 * turns as real
    ensures r == Normalized(angle)
  {
    var f := ((180.0 - angle) / 360.0).Floor;
    NormalizedSpec(angle);
    assert r - Normalized(angle) == 360.0 * (turns - f) as real;
  }

  /** Normalising twice is normalising once. */
  lemma NormalizedIdempotent(angle: real)
    ensures Normalized(Normalized(angle)) == Normalized(angle)
  {
    NormalizedSpec(angle);
    NormalizedUnique(Normalized(angle), Normalized(angle), 0);
  }

  /** `normalizeAngle`: subtract turns while above 180, add them while at
      or below -180. */
  method NormalizeAngle(angle: real) returns (a: real)
    ensures a == Normalized(angle)
  {
    a := angle;
    ghost var turns := 0;
    while a > 180.0
      invariant a == angle + 360.0 * turns as real
      decreases a.Floor
    {
      a := a - 360.0;
      turns := turns - 1;
    }
    while a <= -180.0
      invariant a <= 180.0
      invariant a == angle + 360.0 * turns as real
      decreases (-a).Floor
    {
      a := a + 360.0;
      turns := turns + 1;
    }
    NormalizedUnique(angle, a, turns);
  }

  // ---------------------------------------------------------------------
  // Minimap direction

  datatype DirectionInfo = DirectionInfo(currentAngle: real, bestAngle: real, found: bool)

  const MinimapSize := 150
  const Sectors := 36

  /** The player's position: the middle of the 150 x 150 minimap ROI. */
  const Centre := MinimapSize / 2

  /** `math.Atan2(dy, dx)` in degrees, for the offset (dx, dy). */
  ghost predicate AtanRange(atan: (int, int) -> real)
  {
    forall dx, dy :: -180.0 <= atan(dx, dy) <= 180.0
  }

  ghost predicate SqrtNonNeg(sqrt: int -> real)
  {
    forall n :: sqrt(n) >= 0.0
  }

  /** The centre of a blob's bounding box, with Go's truncating halving. */
  function BlobCentre(r: Rectangle): (int, int)
  {
    (r.minX + Div(Dx(r), 2), r.minY + Div(Dy(r), 2))
  }

  /** The squared distance of a blob from the player; the blob is skipped
      when its distance is below 5, that is when this is below 25. */
  function SquaredDistance(r: Rectangle): int
  {
    var (x, y) := BlobCentre(r);
    (x - Centre) * (x - Centre) + (y - Centre) * (y - Centre)
  }

  /** An `atan2` angle in degrees moved into [0, 360]. */
  function Degrees(a: real): (d: real)
    requires -180.0 <= a <= 180.0
    ensures 0.0 <= d <= 360.0
    ensures d == a || d == a + 360.0
  {
    if a < 0.0 then a + 360.0 else a
  }

  /** The 10-degree sector of an angle, with 360 folded into the last. */
  function SectorOf(deg: real): (s: int)
    requires 0.0 <= deg <= 360.0
    ensures 0 <= s < Sectors
  {
    var s := Trunc(deg / (360.0 / Sectors as real));
    if s >= Sectors then Sectors - 1 else s
  }

  /** Below 360 the sector is the one whose 10 degrees hold the angle. */
  lemma SectorSpec(deg: real)
    requires 0.0 <= deg < 360.0
    ensures SectorOf(deg) as real * 10.0 <= deg < SectorOf(deg) as real * 10.0 + 10.0
  {
  }

  /** The inverse-distance weight `1 / (1 + distance / 20)`. */
  function Weight(distance: real): (w: real)
    requires distance >= 0.0
    ensures 0.0 < w <= 1.0
  {
    var d := 1.0 + distance / 20.0;
    var w := 1.0 / d;
    assert w * d == 1.0;
    Stats.ScaleCancel(0.0, w, d);
    Stats.ScaleCancel(w, 1.0, d);
    w
  }

  /** The sector and weight a blob adds, or none for a blob at the centre. */
  function Contribution(r: Rectangle, atan: (int, int) -> real, sqrt: int -> real): (c: Option<(int, real)>)
    requires AtanRange(atan) && SqrtNonNeg(sqrt)
    ensures c.None? <==> SquaredDistance(r) < 25
    ensures c.Some? ==> 0 <= c.value.0 < Sectors && c.value.1 > 0.0
  {
    var (x, y) := BlobCentre(r);
    var d2 := SquaredDistance(r);
    if d2 < 25 then None
    else Some((SectorOf(Degrees(atan(x - Centre, y - Centre))), Weight(sqrt(d2))))
  }

  predicate InSector(r: Rectangle, s: int, atan: (int, int) -> real, sqrt: int -> real)
    requires AtanRange(atan) && SqrtNonNeg(sqrt)
  {
    Contribution(r, atan, sqrt).Some? && Contribution(r, atan, sqrt).value.0 == s
  }

  /** The sector weights after adding every blob of `blobs`. */
  function Binned(blobs: seq<Rectangle>, atan: (int, int) -> real, sqrt: int -> real): (w: seq<real>)
    requires AtanRange(atan) && SqrtNonNeg(sqrt)
    ensures |w| == Sectors
  {
    if blobs == [] then seq(Sectors, _ => 0.0)
    else Added(Binned(blobs[..|blobs| - 1], atan, sqrt), Contribution(blobs[|blobs| - 1], atan, sqrt))
  }

  /** A blob's contribution added to the sector weights. */
  function Added(w: seq<real>, c: Option<(int, real)>): (r: seq<real>)
    requires c.Some? ==> 0 <= c.value.0 < |w|
    ensures |r| == |w|
  {
    match c
    case None => w
    case Some((s, x)) => w[s := w[s] + x]
  }

  /** No weight is negative, and a sector has weight exactly when some
      blob away from the centre falls in it. */
  lemma {:induction false} BinnedSpec(blobs: seq<Rectangle>, atan: (int, int) -> real, sqrt: int -> real)
    requires AtanRange(atan) && SqrtNonNeg(sqrt)
    ensures forall s :: 0 <= s < Sectors ==> Binned(blobs, atan, sqrt)[s] >= 0.0
    ensures forall s :: 0 <= s < Sectors ==>
      (Binned(blobs, atan, sqrt)[s] > 0.0 <==> exists i :: 0 <= i < |blobs| && InSector(blobs[i], s, atan, sqrt))
  {
    if blobs != [] {
      var front, last := blobs[..|blobs| - 1], blobs[|blobs| - 1];
      assert blobs == front + [last];
      BinnedSpec(front, atan, sqrt);
      forall s | 0 <= s < Sectors
        ensures Binned(blobs, atan, sqrt)[s] >= 0.0
        ensures Binned(blobs, atan, sqrt)[s] > 0.0 <==> exists i :: 0 <= i < |blobs| && InSector(blobs[i], s, atan, sqrt)
      {
        BinnedSector(front, last, s, atan, sqrt);
      }
    }
  }

  /** The step of `BinnedSpec` for one sector and one more blob. */
  lemma BinnedSector(front: seq<Rectangle>, last: Rectangle, s: int, atan: (int, int) -> real, sqrt: int -> real)
    requires AtanRange(atan) && SqrtNonNeg(sqrt) && 0 <= s < Sectors
    requires Binned(front, atan, sqrt)[s] >= 0.0
    requires Binned(front, atan, sqrt)[s] > 0.0 <==> exists i :: 0 <= i < |front| && InSector(front[i], s, atan, sqrt)
    ensures Binned(front + [last], atan, sqrt)[s] >= 0.0
    ensures Binned(front + [last], atan, sqrt)[s] > 0.0 <==>
      exists i :: 0 <= i < |front + [last]| && InSector((front + [last])[i], s, atan, sqrt)
  {
    var blobs := front + [last];
    BinnedSnoc(front, last, atan, sqrt);
    if exists i :: 0 <= i < |blobs| && InSector(blobs[i], s, atan, sqrt) {
      var i :| 0 <= i < |blobs| && InSector(blobs[i], s, atan, sqrt);
      if i < |front| {
        assert InSector(front[i], s, atan, sqrt);
      }
    }
    if exists i :: 0 <= i < |front| && InSector(front[i], s, atan, sqrt) {
      var i :| 0 <= i < |front| && InSector(front[i], s, atan, sqrt);
      assert blobs[i] == front[i];
    }
  }

  /** Some sector has weight exactly when some blob lies 5 or more pixels
      from the centre. */
  lemma AnyWeight(blobs: seq<Rectangle>, atan: (int, int) -> real, sqrt: int -> real)
    requires AtanRange(atan) && SqrtNonNeg(sqrt)
    ensures (exists s :: 0 <= s < Sectors && Binned(blobs, atan, sqrt)[s] > 0.0) <==>
      exists i :: 0 <= i < |blobs| && SquaredDistance(blobs[i]) >= 25
  {
    BinnedSpec(blobs, atan, sqrt);
    if exists i :: 0 <= i < |blobs| && SquaredDistance(blobs[i]) >= 25 {
      var i :| 0 <= i < |blobs| && SquaredDistance(blobs[i]) >= 25;
      var s := Contribution(blobs[i], atan, sqrt).value.0;
      assert InSector(blobs[i], s, atan, sqrt);
      assert Binned(blobs, atan, sqrt)[s] > 0.0;
    }
  }

  /** One more blob adds its contribution to the weights of the others. */
  lemma BinnedSnoc(blobs: seq<Rectangle>, b: Rectangle, atan: (int, int) -> real, sqrt: int -> real)
    requires AtanRange(atan) && SqrtNonNeg(sqrt)
    ensures Binned(blobs + [b], atan, sqrt) == Added(Binned(blobs, atan, sqrt), Contribution(b, atan, sqrt))
  {
    assert (blobs + [b])[..|blobs|] == blobs;
  }

  /** The contour loop: each blob's centre, distance, angle and sector,
      its weight added to that sector. */
  method SectorWeights(blobs: seq<Rectangle>, atan: (int, int) -> real, sqrt: int -> real) returns (w: array<real>)
    requires AtanRange(atan) && SqrtNonNeg(sqrt)
    ensures fresh(w) && w[..] == Binned(blobs, atan, sqrt)
  {
    w := new real[Sectors](_ => 0.0);
    assert w[..] == Binned([], atan, sqrt);
    var i := 0;
    while i < |blobs|
      invariant 0 <= i <= |blobs|
      invariant w.Length == Sectors && w[..] == Binned(blobs[..i], atan, sqrt)
    {
      assert blobs[..i + 1] == blobs[..i] + [blobs[i]];
      BinnedSnoc(blobs[..i], blobs[i], atan, sqrt);
      AddBlob(w, blobs[i], atan, sqrt);
      i := i + 1;
    }
    assert blobs[..i] == blobs;
  }

  /** One contour of the loop: its centre, distance, angle and sector,
      its weight added to that sector. */
  method AddBlob(w: array<real>, b: Rectangle, atan: (int, int) -> real, sqrt: int -> real)
    requires AtanRange(atan) && SqrtNonNeg(sqrt) && w.Length == Sectors
    modifies w
    ensures w[..] == Added(old(w[..]), Contribution(b, atan, sqrt))
  {
    var (x, y) := BlobCentre(b);
    var dx, dy := x - Centre, y - Centre;
    var d2 := dx * dx + dy * dy;
    assert d2 == SquaredDistance(b);
    if d2 >= 25 {
      var degrees := Degrees(atan(dx, dy));
      var sector := SectorOf(degrees);
      var weight := Weight(sqrt(d2));
      assert Contribution(b, atan, sqrt) == Some((sector, weight));
      w[sector] := w[sector] + weight;
    }
  }

  /** Sector `s` has the greatest weight, which is positive, and every
      earlier sector weighs strictly less. */
  predicate StrongestSector(w: seq<real>, s: int)
  {
    0 <= s < |w| && w[s] > 0.0 && (forall i :: 0 <= i < |w| ==> w[i] <= w[s]) &&
    forall i :: 0 <= i < s ==> w[i] < w[s]
  }

  /** The scan for the heaviest sector: a strictly greater weight replaces
      the best, so ties keep the earlier sector. */
  method Strongest(w: seq<real>) returns (best: int, maxWeight: real)
    ensures maxWeight >= 0.0 && forall i :: 0 <= i < |w| ==> w[i] <= maxWeight
    ensures maxWeight > 0.0 ==> StrongestSector(w, best) && w[best] == maxWeight
    ensures maxWeight == 0.0 ==> best == 0
  {
    best, maxWeight := 0, 0.0;
    var i := 0;
    while i < |w|
      invariant 0 <= i <= |w|
      invariant maxWeight >= 0.0 && forall j :: 0 <= j < i ==> w[j] <= maxWeight
      invariant maxWeight > 0.0 ==> 0 <= best < i && w[best] == maxWeight && forall j :: 0 <= j < best ==> w[j] < maxWeight
      invariant maxWeight == 0.0 ==> best == 0
    {
      if w[i] > maxWeight {
        maxWeight := w[i];
        best := i;
      }
      i := i + 1;
    }
  }

  /** Whether the minimap ROI fits the frame. */
  predicate MinimapFits(width: int, height: int)
  {
    width - MinimapSize - 15 >= 0 && 15 + MinimapSize <= height
  }

  /** `DetectDirection` on a `width` x `height` frame whose minimap holds
      the orange blobs `blobs`, with `current` the arrow's angle. */
  method DetectDirection(width: int, height: int, blobs: seq<Rectangle>, current: real,
                         atan: (int, int) -> real, sqrt: int -> real) returns (info: DirectionInfo)
    requires AtanRange(atan) && SqrtNonNeg(sqrt)
    ensures !info.found ==> info == DirectionInfo(0.0, 0.0, false)
    ensures info.found <==> MinimapFits(width, height) && exists i :: 0 <= i < |blobs| && SquaredDistance(blobs[i]) >= 25
    ensures info.found ==> info.currentAngle == Normalized(current)
    ensures info.found ==>
      exists s :: StrongestSector(Binned(blobs, atan, sqrt), s) && info.bestAngle == Normalized(s as real * 10.0 + 5.0)
  {
    if !MinimapFits(width, height) {
      return DirectionInfo(0.0, 0.0, false);
    }
    var weights := SectorWeights(blobs, atan, sqrt);
    var best, maxWeight := Strongest(weights[..]);
    AnyWeight(blobs, atan, sqrt);
    if maxWeight == 0.0 {
      return DirectionInfo(0.0, 0.0, false);
    }
    var bestAngle := best as real * (360.0 / Sectors as real) + 180.0 / Sectors as real;
    var cur := NormalizeAngle(current);
    bestAngle := NormalizeAngle(bestAngle);
    info := DirectionInfo(cur, bestAngle, true);
  }
}
