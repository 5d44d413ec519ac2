/** The fill width of a status bar: the bar's rectangle is cut out of an
    HSV frame, the pixels inside a colour range form a mask, and the fill
    is one past the rightmost mask column that holds a lit pixel. */
module BarFill {
  import opened ImageRect

  datatype HSV = HSV(h: int, s: int, v: int)

  /** The inclusive bounds `inRange` tests each channel against. */
  datatype HSVRange = HSVRange(hMin: int, hMax: int, sMin: int, sMax: int, vMin: int, vMax: int)

  /** A converted frame: the HSV value of the pixel at column x, row y. */
  type Image = (int, int) -> HSV

  predicate InRange(c: HSVRange, p: HSV)
  {
    c.hMin <= p.h <= c.hMax && c.sMin <= p.s <= c.sMax && c.vMin <= p.v <= c.vMax
  }

  /** Pixel (x, y) of the region `r`, counted from its top-left corner, is
      set in the colour mask. */
  predicate Lit(img: Image, c: HSVRange, r: Rectangle, x: int, y: int)
  {
    InRange(c, img(r.minX + x, r.minY + y))
  }

  ghost predicate ColumnLit(img: Image, c: HSVRange, r: Rectangle, x: int)
  {
    exists y :: 0 <= y < Dy(r) && Lit(img, c, r, x, y)
  }

  /** One past the rightmost lit column among the first `x` columns. */
  ghost function FillFrom(img: Image, c: HSVRange, r: Rectangle, x: nat): int
  {
    if x == 0 then 0
    else if ColumnLit(img, c, r, x - 1) then x
    else FillFrom(img, c, r, x - 1)
  }

  ghost function Fill(img: Image, c: HSVRange, r: Rectangle): int
    requires WellFormed(r)
  {
    FillFrom(img, c, r, Dx(r))
  }

  lemma {:induction false} FillFromSpec(img: Image, c: HSVRange, r: Rectangle, x: nat)
    ensures 0 <= FillFrom(img, c, r, x) <= x
    ensures FillFrom(img, c, r, x) == 0 <==> forall k :: 0 <= k < x ==> !ColumnLit(img, c, r, k)
    ensures FillFrom(img, c, r, x) > 0 ==> ColumnLit(img, c, r, FillFrom(img, c, r, x) - 1)
    ensures forall k :: FillFrom(img, c, r, x) <= k < x ==> !ColumnLit(img, c, r, k)
  {
    if x > 0 && !ColumnLit(img, c, r, x - 1) {
      FillFromSpec(img, c, r, x - 1);
    }
  }

  /** The fill lies within the bar; it is 0 exactly when no column is lit,
      and otherwise column fill-1 is lit and every column right of it is
      dark. */
  lemma FillSpec(img: Image, c: HSVRange, r: Rectangle)
    requires WellFormed(r)
    ensures 0 <= Fill(img, c, r) <= Dx(r)
    ensures Fill(img, c, r) == 0 <==> forall k :: 0 <= k < Dx(r) ==> !ColumnLit(img, c, r, k)
    ensures Fill(img, c, r) > 0 ==> ColumnLit(img, c, r, Fill(img, c, r) - 1)
    ensures forall k :: Fill(img, c, r) <= k < Dx(r) ==> !ColumnLit(img, c, r, k)
  {
    FillFromSpec(img, c, r, Dx(r));
  }

  /** The nested scan of the status detector: columns from the right,
      each searched top to bottom until a lit pixel is met. */
  method FillWidth(img: Image, c: HSVRange, r: Rectangle) returns (fill: int)
    requires WellFormed(r)
    ensures fill == Fill(img, c, r)
  {
    fill := 0;
    var x := Dx(r) - 1;
    while x >= 0
      invariant -1 <= x < Dx(r)
      invariant Fill(img, c, r) == FillFrom(img, c, r, x + 1)
    {
      var hasWhite := false;
      var y := 0;
      while y < Dy(r)
        invariant 0 <= y <= Dy(r)
        invariant forall k :: 0 <= k < y ==> !Lit(img, c, r, x, k)
      {
        if Lit(img, c, r, x, y) {
          hasWhite := true;
          break;
        }
        y := y + 1;
      }
      if hasWhite {
        fill := x + 1;
        return;
      }
      x := x - 1;
    }
  }

  /** The number of lit pixels in column x of the region: the column sum
      `Reduce` produces, counted in pixels. */
  function ColumnSum(img: Image, c: HSVRange, r: Rectangle, x: int, rows: nat): nat
  {
    if rows == 0 then 0
    else ColumnSum(img, c, r, x, rows - 1) + (if Lit(img, c, r, x, rows - 1) then 1 else 0)
  }

  lemma {:induction false} ColumnSumPositive(img: Image, c: HSVRange, r: Rectangle, x: int, rows: nat)
    ensures ColumnSum(img, c, r, x, rows) > 0 <==> exists y :: 0 <= y < rows && Lit(img, c, r, x, y)
  {
    if rows > 0 {
      ColumnSumPositive(img, c, r, x, rows - 1);
    }
  }

  /** The target detector's scan: column sums first, then the rightmost
      column with a positive sum.  It finds the same fill as the nested
      scan. */
  method ColumnSumFill(img: Image, c: HSVRange, r: Rectangle) returns (fill: int)
    requires WellFormed(r)
    ensures fill == Fill(img, c, r)
  {
    fill := 0;
    var x := Dx(r) - 1;
    while x >= 0
      invariant -1 <= x < Dx(r)
      invariant Fill(img, c, r) == FillFrom(img, c, r, x + 1)
    {
      ColumnSumPositive(img, c, r, x, Dy(r));
      if ColumnSum(img, c, r, x, Dy(r)) > 0 {
        fill := x + 1;
        return;
      }
      x := x - 1;
    }
  }
}
