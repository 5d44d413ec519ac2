/** The shape detectors of opencv/test_shape.py after the OpenCV calls:
    contour measurements and template-matching scores are inputs. */
module TestShape {
  import opened BoxNms
  import opened Wrappers

  /** Names given by `_classify_shape`; `Gon(n)` is the "n-gon" label. */
  datatype ShapeName = Triangle | Square | Rectangle | Pentagon | Gon(n: nat) | Circle | Polygon

  /** Square iff the aspect ratio w/h lies in [0.95, 1.05]; a zero height
      gives ratio 0. Beyond eleven vertices (or below three) a contour is
      a circle when its circularity exceeds 0.8; `roundness` is the
      circularity 4*pi*area/perimeter^2, used only when the perimeter is
      positive. */
  function ClassifyShape(vertices: nat, w: int, h: int, perimeter: real, roundness: real): ShapeName
  {
    if vertices == 3 then Triangle
    else if vertices == 4 then
      var aspect := if h > 0 then (w as real) / (h as real) else 0.0;
      if 0.95 <= aspect <= 1.05 then Square else Rectangle
    else if vertices == 5 then Pentagon
    else if 5 < vertices < 12 then Gon(vertices)
    else
      var circularity := if perimeter > 0.0 then roundness else 0.0;
      if circularity > 0.8 then Circle else Polygon
  }

  /** The classification in integer terms: a square has four vertices and
      100*w within 5*h of 100*h; a zero height or zero perimeter never
      yields a square or a circle. */
  lemma ClassifyShapeSpec(vertices: nat, w: int, h: int, perimeter: real, roundness: real)
    ensures ClassifyShape(vertices, w, h, perimeter, roundness) == Square <==>
            vertices == 4 && h > 0 && 95 * h <= 100 * w <= 105 * h
    ensures ClassifyShape(vertices, w, h, perimeter, roundness) == Rectangle <==>
            vertices == 4 && !(h > 0 && 95 * h <= 100 * w <= 105 * h)
    ensures ClassifyShape(vertices, w, h, perimeter, roundness).Gon? <==> 6 <= vertices <= 11
    ensures ClassifyShape(vertices, w, h, perimeter, roundness) == Circle <==>
            (vertices < 3 || vertices > 11) && perimeter > 0.0 && roundness > 0.8
    ensures perimeter <= 0.0 && (vertices < 3 || vertices > 11) ==>
            ClassifyShape(vertices, w, h, perimeter, roundness) == Polygon
  {
    if vertices == 4 && h > 0 {
      RatioAtLeast(w as real, h as real, 0.95);
      RatioAtMost(w as real, h as real, 1.05);
    }
  }

  lemma RatioAtLeast(x: real, h: real, c: real)
    requires h > 0.0
    ensures c <= x / h <==> c * h <= x
  {
    var q := x / h;
    assert q * h == x;
    if c <= q {
      MulMono(c, q, h);
    } else {
      MulStrict(q, c, h);
    }
  }

  lemma RatioAtMost(x: real, h: real, c: real)
    requires h > 0.0
    ensures x / h <= c <==> x <= c * h
  {
    var q := x / h;
    assert q * h == x;
    if q <= c {
      MulMono(q, c, h);
    } else {
      MulStrict(c, q, h);
    }
  }

  lemma MulMono(a: real, b: real, h: real)
    requires a <= b && h > 0.0
    ensures a * h <= b * h
  {
    assert b * h - a * h == (b - a) * h;
  }

  lemma MulStrict(a: real, b: real, h: real)
    requires a < b && h > 0.0
    ensures a * h < b * h
  {
    assert b * h - a * h == (b - a) * h;
  }

  datatype Blur = NoBlur | Gaussian | Median | Bilateral

  /** `_apply_blur`: the blur chosen by type (unknown types leave the image
      alone) and the kernel size made odd and at least 1. Python's `%`
      floors, like Dafny's for a positive divisor. */
  function ApplyBlur(blurType: int, kernelSize: int): (r: (Blur, int))
    ensures r.1 >= 1 && r.1 % 2 == 1
    ensures kernelSize >= 1 && kernelSize % 2 == 1 ==> r.1 == kernelSize
    ensures kernelSize >= 0 && kernelSize % 2 == 0 ==> r.1 == kernelSize + 1
    ensures r.0 == NoBlur <==> blurType !in {1, 2, 3}
  {
    var k := if kernelSize % 2 == 0 then kernelSize + 1 else kernelSize;
    var k' := if k < 1 then 1 else k;
    var blur := if blurType == 1 then Gaussian
                else if blurType == 2 then Median
                else if blurType == 3 then Bilateral
                else NoBlur;
    (blur, k')
  }

  /** Normalising twice changes nothing. */
  lemma ApplyBlurIdempotent(blurType: int, kernelSize: int)
    ensures ApplyBlur(blurType, ApplyBlur(blurType, kernelSize).1) == ApplyBlur(blurType, kernelSize)
  {
  }

  /** One measured contour of ContourShapeDetector.detect. */
  datatype ContourInfo = ContourInfo(area: real, vertices: nat, x: int, y: int, w: int, h: int,
                                     perimeter: real, roundness: real)

  datatype Shape = Shape(name: ShapeName, area: real, x: int, y: int, w: int, h: int, shapeId: nat)

  ghost predicate InAreaWindow(c: ContourInfo, minArea: real, maxArea: real)
  {
    !(c.area < minArea || c.area > maxArea)
  }

  /** The shapes ContourShapeDetector.detect reports for `contours`. */
  function ContourShapes(contours: seq<ContourInfo>, minArea: real, maxArea: real): (r: seq<Shape>)
    ensures |r| <= |contours|
  {
    if contours == [] then []
    else
      var prev := ContourShapes(contours[..|contours| - 1], minArea, maxArea);
      var c := contours[|contours| - 1];
      if c.area < minArea || c.area > maxArea then prev
      else prev + [Shape(ClassifyShape(c.vertices, c.w, c.h, c.perimeter, c.roundness),
                         c.area, c.x, c.y, c.w, c.h, |prev| + 1)]
  }

  /** Reported shapes are numbered 1..n in order and each lies in the
      area window. */
  lemma {:induction false} ContourShapesNumbered(contours: seq<ContourInfo>, minArea: real, maxArea: real)
    ensures forall k :: 0 <= k < |ContourShapes(contours, minArea, maxArea)| ==>
              ContourShapes(contours, minArea, maxArea)[k].shapeId == k + 1 &&
              minArea <= ContourShapes(contours, minArea, maxArea)[k].area <= maxArea
  {
    if contours != [] {
      var init := contours[..|contours| - 1];
      ContourShapesNumbered(init, minArea, maxArea);
      var prev := ContourShapes(init, minArea, maxArea);
      var r := ContourShapes(contours, minArea, maxArea);
      var c := contours[|contours| - 1];
      if !(c.area < minArea || c.area > maxArea) {
        var shape := Shape(ClassifyShape(c.vertices, c.w, c.h, c.perimeter, c.roundness),
                           c.area, c.x, c.y, c.w, c.h, |prev| + 1);
        assert r == prev + [shape];
        forall k | 0 <= k < |r| ensures r[k].shapeId == k + 1 && minArea <= r[k].area <= maxArea {
          if k < |prev| {
            assert r[k] == prev[k];
          }
        }
      }
    }
  }

  /** The contours of the first n in the area window. */
  ghost function InWindow(contours: seq<ContourInfo>, n: nat, minArea: real, maxArea: real): set<nat>
  {
    set k | 0 <= k < n && k < |contours| && InAreaWindow(contours[k], minArea, maxArea)
  }

  /** Every contour in the area window is reported. */
  lemma {:induction false} ContourShapesCount(contours: seq<ContourInfo>, minArea: real, maxArea: real)
    ensures |ContourShapes(contours, minArea, maxArea)| == |InWindow(contours, |contours|, minArea, maxArea)|
  {
    if contours != [] {
      var n := |contours| - 1;
      var init := contours[..n];
      ContourShapesCount(init, minArea, maxArea);
      var before := InWindow(init, n, minArea, maxArea);
      assert before == InWindow(contours, n, minArea, maxArea) by {
        assert forall k :: 0 <= k < n ==> init[k] == contours[k];
      }
      var after := InWindow(contours, |contours|, minArea, maxArea);
      if InAreaWindow(contours[n], minArea, maxArea) {
        assert after == before + {n};
        assert n !in before;
      } else {
        assert after == before;
      }
    }
  }

  /** ContourShapeDetector.detect after contour measurement: the area
      filter and the running shape count. */
  method DetectContourShapes(contours: seq<ContourInfo>, minArea: real, maxArea: real) returns (shapes: seq<Shape>)
    ensures shapes == ContourShapes(contours, minArea, maxArea)
  {
    shapes := [];
    var shapeCount := 0;
    var i := 0;
    while i < |contours|
      invariant 0 <= i <= |contours|
      invariant shapes == ContourShapes(contours[..i], minArea, maxArea)
      invariant shapeCount == |shapes|
    {
      assert contours[..i + 1][..i] == contours[..i];
      var c := contours[i];
      if c.area < minArea || c.area > maxArea {
        i := i + 1;
        continue;
      }
      var name := ClassifyShape(c.vertices, c.w, c.h, c.perimeter, c.roundness);
      shapeCount := shapeCount + 1;
      shapes := shapes + [Shape(name, c.area, c.x, c.y, c.w, c.h, shapeCount)];
      i := i + 1;
    }
    assert contours[..i] == contours;
  }

  /** The six matching methods, in trackbar order. */
  datatype MatchMethod = CcoeffNormed | CcorrNormed | SqdiffNormed | Ccoeff | Ccorr | Sqdiff

  function MethodOf(index: int): MatchMethod
    requires 0 <= index < 6
  {
    [CcoeffNormed, CcorrNormed, SqdiffNormed, Ccoeff, Ccorr, Sqdiff][index]
  }

  predicate LowerIsBetter(m: MatchMethod)
  {
    m == Sqdiff || m == SqdiffNormed
  }

  /** The confidence stored for a matching score, when the location is
      kept: squared-difference scores are kept at most 1 - threshold and
      stored inverted. */
  function Confidence(m: MatchMethod, value: real, threshold: real): Option<real>
  {
    if LowerIsBetter(m) then
      if value <= 1.0 - threshold then Some(1.0 - value) else None
    else
      if value >= threshold then Some(value) else None
  }

  /** For every method a location is kept iff its confidence (the score,
      inverted for squared differences) reaches the threshold. */
  lemma ConfidenceSpec(m: MatchMethod, value: real, threshold: real)
    ensures var c := if LowerIsBetter(m) then 1.0 - value else value;
            Confidence(m, value, threshold) == (if c >= threshold then Some(c) else None)
  {
  }

  /** One template match with its box (x, y, w, h). */
  datatype Match = Match(x: int, y: int, w: int, h: int, confidence: real, name: string, shapeId: nat)

  function BoxOf(m: Match): Box
  {
    Box(m.x, m.y, m.x + m.w, m.y + m.h)
  }

  function Boxes(ms: seq<Match>): (r: seq<Box>)
    ensures |r| == |ms| && forall k :: 0 <= k < |ms| ==> r[k] == BoxOf(ms[k])
  {
    seq(|ms|, k requires 0 <= k < |ms| => BoxOf(ms[k]))
  }

  function Scores(ms: seq<Match>): (r: seq<real>)
    ensures |r| == |ms| && forall k :: 0 <= k < |ms| ==> r[k] == ms[k].confidence
  {
    seq(|ms|, k requires 0 <= k < |ms| => ms[k].confidence)
  }

  /** `_non_max_suppression` on the indices: each round keeps the last
      (highest-scoring) undecided index and deletes it with every undecided
      index it suppresses. The argsort order is an input. */
  method NonMaxSuppression(shapes: seq<Match>, overlapThresh: real, order: seq<nat>) returns (keep: seq<nat>)
    requires IsArgsort(order, Scores(shapes))
    ensures keep == GreedyBack(Boxes(shapes), order, overlapThresh)
    ensures NmsResult(Boxes(shapes), Scores(shapes), overlapThresh, keep)
    ensures shapes == [] ==> keep == []
  {
    var boxes := Boxes(shapes);
    var scores := Scores(shapes);
    if |shapes| == 0 {
      return [];
    }
    Start(boxes, scores, overlapThresh, order);
    keep := SuppressFromBack(boxes, scores, overlapThresh, [], order);
    Finish(boxes, scores, overlapThresh, keep);
  }

  /** The detect post-processing: suppression at 0.5, then ids 1..n in
      output order, written into the kept matches in place. */
  method NumberAfterSuppression(candidates: seq<Match>, order: seq<nat>) returns (shapes: array<Match>, keep: seq<nat>)
    requires IsArgsort(order, Scores(candidates))
    ensures keep == GreedyBack(Boxes(candidates), order, 0.5)
    ensures NmsResult(Boxes(candidates), Scores(candidates), 0.5, keep)
    ensures shapes.Length == |keep|
    ensures forall k :: 0 <= k < |keep| ==> shapes[k] == candidates[keep[k]].(shapeId := k + 1)
  {
    keep := NonMaxSuppression(candidates, 0.5, order);
    assert InRange(keep, |Boxes(candidates)|);
    shapes := Renumber(candidates, keep);
  }

  /** The kept matches, copied out and given ids 1..n in order in place. */
  method Renumber(candidates: seq<Match>, keep: seq<nat>) returns (shapes: array<Match>)
    requires InRange(keep, |candidates|)
    ensures shapes.Length == |keep|
    ensures forall k :: 0 <= k < |keep| ==> shapes[k] == candidates[keep[k]].(shapeId := k + 1)
  {
    shapes := new Match[|keep|](k requires 0 <= k < |keep| reads {} => candidates[keep[k]]);
    for i := 0 to shapes.Length
      invariant forall k :: 0 <= k < i ==> shapes[k] == candidates[keep[k]].(shapeId := k + 1)
      invariant forall k :: i <= k < shapes.Length ==> shapes[k] == candidates[keep[k]]
    {
      shapes[i] := shapes[i].(shapeId := i + 1);
    }
  }
}
