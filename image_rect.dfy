/** `image.Rectangle` as the src2 status-bar detectors use it: the
    corner-swapping constructor, translation, the inclusive size filters,
    the "first contour that fits" scan, the bar collection loop and the
    normalisation of the morphology parameters. */
module ImageRect {
  import opened Wrappers
  import opened GoInt

  datatype Rectangle = Rectangle(minX: int, minY: int, maxX: int, maxY: int)

  predicate WellFormed(r: Rectangle)
  {
    r.minX <= r.maxX && r.minY <= r.maxY
  }

  function Dx(r: Rectangle): int
  {
    r.maxX - r.minX
  }

  function Dy(r: Rectangle): int
  {
    r.maxY - r.minY
  }

  /** The sort key of the top-to-bottom bar ordering. */
  function Top(r: Rectangle): int
  {
    r.minY
  }

  /** `image.Rect(x0, y0, x1, y1)`: the corners are swapped where needed,
      so the result is always well-formed and spans the same coordinates. */
  function Rect(x0: int, y0: int, x1: int, y1: int): (r: Rectangle)
    ensures WellFormed(r)
    ensures (r.minX == x0 && r.maxX == x1) || (r.minX == x1 && r.maxX == x0)
    ensures (r.minY == y0 && r.maxY == y1) || (r.minY == y1 && r.maxY == y0)
  {
    Rectangle(Min(x0, x1), Min(y0, y1), Max(x0, x1), Max(y0, y1))
  }

  /** Ordered corners are kept as given; inverted ones are swapped, so the
      width is the distance between the two x coordinates either way. */
  lemma RectCorners(x0: int, y0: int, x1: int, y1: int)
    ensures x0 <= x1 && y0 <= y1 ==> Rect(x0, y0, x1, y1) == Rectangle(x0, y0, x1, y1)
    ensures Dx(Rect(x0, y0, x1, y1)) == Abs(x1 - x0)
    ensures Dy(Rect(x0, y0, x1, y1)) == Abs(y1 - y0)
  {
  }

  /** A rectangle moved by (dx, dy), built through `image.Rect` as the
      sources do when they turn region-relative contours into absolute ones. */
  function Translate(r: Rectangle, dx: int, dy: int): (t: Rectangle)
    ensures WellFormed(t)
    ensures WellFormed(r) ==> t == Rectangle(r.minX + dx, r.minY + dy, r.maxX + dx, r.maxY + dy)
    ensures Dx(t) == Abs(Dx(r)) && Dy(t) == Abs(Dy(r))
  {
    Rect(r.minX + dx, r.minY + dy, r.maxX + dx, r.maxY + dy)
  }

  /** Inclusive bounds on a rectangle's width and height. */
  datatype SizeFilter = SizeFilter(minWidth: int, maxWidth: int, minHeight: int, maxHeight: int)

  predicate Fits(r: Rectangle, f: SizeFilter)
  {
    f.minWidth <= Dx(r) <= f.maxWidth && f.minHeight <= Dy(r) <= f.maxHeight
  }

  /** The first rectangle of `rects` that fits `f`, if any. */
  function FirstFit(rects: seq<Rectangle>, f: SizeFilter): Option<Rectangle>
  {
    if rects == [] then None
    else if Fits(rects[0], f) then Some(rects[0])
    else FirstFit(rects[1..], f)
  }

  /** The first fit is an element that fits and every earlier one does
      not; nothing is found exactly when no element fits. */
  lemma {:induction false} FirstFitSpec(rects: seq<Rectangle>, f: SizeFilter) returns (j: int)
    ensures FirstFit(rects, f).Some? ==>
      0 <= j < |rects| && FirstFit(rects, f).value == rects[j] && Fits(rects[j], f) &&
      forall i :: 0 <= i < j ==> !Fits(rects[i], f)
    ensures FirstFit(rects, f).None? <==> forall i :: 0 <= i < |rects| ==> !Fits(rects[i], f)
  {
    if rects == [] {
      j := 0;
    } else if Fits(rects[0], f) {
      j := 0;
    } else {
      var k := FirstFitSpec(rects[1..], f);
      j := k + 1;
      assert forall i :: 1 <= i < |rects| ==> rects[i] == rects[1..][i - 1];
    }
  }

  /** The contour loops that stop at the first bounding rectangle inside
      the size box. */
  method FirstMatch(rects: seq<Rectangle>, f: SizeFilter) returns (found: Option<Rectangle>)
    ensures found == FirstFit(rects, f)
  {
    found := None;
    var i := 0;
    while i < |rects|
      invariant 0 <= i <= |rects|
      invariant FirstFit(rects, f) == FirstFit(rects[i..], f)
    {
      if Fits(rects[i], f) {
        found := Some(rects[i]);
        return;
      }
      assert rects[i..][1..] == rects[i + 1..];
      i := i + 1;
    }
  }

  /** The rectangles of `rects` that fit `f`, moved by (dx, dy), in order. */
  function BarsIn(rects: seq<Rectangle>, f: SizeFilter, dx: int, dy: int): seq<Rectangle>
  {
    if rects == [] then []
    else
      var front := BarsIn(rects[..|rects| - 1], f, dx, dy);
      var last := rects[|rects| - 1];
      if Fits(last, f) then front + [Translate(last, dx, dy)] else front
  }

  /** Every kept bar is a fitting input moved by (dx, dy), every fitting
      input is kept, and all kept bars are well-formed. */
  lemma {:induction false} BarsInSpec(rects: seq<Rectangle>, f: SizeFilter, dx: int, dy: int)
    ensures |BarsIn(rects, f, dx, dy)| <= |rects|
    ensures forall k :: 0 <= k < |BarsIn(rects, f, dx, dy)| ==>
      WellFormed(BarsIn(rects, f, dx, dy)[k]) &&
      exists i :: 0 <= i < |rects| && Fits(rects[i], f) && BarsIn(rects, f, dx, dy)[k] == Translate(rects[i], dx, dy)
    ensures forall i :: 0 <= i < |rects| && Fits(rects[i], f) ==> Translate(rects[i], dx, dy) in BarsIn(rects, f, dx, dy)
  {
    if rects != [] {
      var front := rects[..|rects| - 1];
      BarsInSpec(front, f, dx, dy);
      var b := BarsIn(rects, f, dx, dy);
      var bf := BarsIn(front, f, dx, dy);
      assert forall i :: 0 <= i < |front| ==> front[i] == rects[i];
      forall k | 0 <= k < |b|
        ensures exists i :: 0 <= i < |rects| && Fits(rects[i], f) && b[k] == Translate(rects[i], dx, dy)
      {
        if k < |bf| {
          assert b[k] == bf[k];
          var i :| 0 <= i < |front| && Fits(front[i], f) && bf[k] == Translate(front[i], dx, dy);
          assert rects[i] == front[i];
        } else {
          assert b[k] == Translate(rects[|rects| - 1], dx, dy);
        }
      }
    }
  }

  /** The loop that filters the bar-area contours and appends the kept
      ones in absolute coordinates. */
  method CollectBars(rects: seq<Rectangle>, f: SizeFilter, dx: int, dy: int) returns (bars: seq<Rectangle>)
    ensures bars == BarsIn(rects, f, dx, dy)
  {
    bars := [];
    var i := 0;
    while i < |rects|
      invariant 0 <= i <= |rects|
      invariant bars == BarsIn(rects[..i], f, dx, dy)
    {
      assert rects[..i + 1][..i] == rects[..i];
      if Fits(rects[i], f) {
        bars := bars + [Translate(rects[i], dx, dy)];
      }
      i := i + 1;
    }
    assert rects[..i] == rects;
  }

  /** The adaptive-threshold block size: raised to 3, then made odd. */
  function BlockSize(n: int): (b: int)
    ensures b >= 3 && Rem(b, 2) == 1
    ensures n >= 3 && Rem(n, 2) == 1 ==> b == n
    ensures b <= Max(n, 3) + 1
  {
    var m := if n < 3 then 3 else n;
    if Rem(m, 2) == 0 then m + 1 else m
  }

  /** The Gaussian blur size: made odd first, then raised to 1.  A
      negative odd size is left odd by the first step and replaced by 1. */
  function BlurSize(n: int): (b: int)
    ensures b >= 1 && Rem(b, 2) == 1
    ensures n >= 1 && Rem(n, 2) == 1 ==> b == n
    ensures n >= 1 ==> b <= n + 1
  {
    var m := if Rem(n, 2) == 0 then n + 1 else n;
    if m < 1 then 1 else m
  }

  /** A structuring-element side: raised to 1. */
  function KernelSide(n: int): (k: int)
    ensures k >= 1
    ensures n >= 1 ==> k == n
  {
    if n < 1 then 1 else n
  }

  /** Normalising twice changes nothing: a normalised parameter is a fixed
      point of its normalisation. */
  lemma NormaliseIdempotent(n: int)
    ensures BlockSize(BlockSize(n)) == BlockSize(n)
    ensures BlurSize(BlurSize(n)) == BlurSize(n)
    ensures KernelSide(KernelSide(n)) == KernelSide(n)
  {
  }
}
