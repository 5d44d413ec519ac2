/** The three monster detectors of opencv/test_map.py after the OpenCV
    calls: contour measurements, score matrices and the raw Hough
    parameters are inputs. */
module TestMap {
  import opened GoInt
  import opened Sorting
  import opened Wrappers

  /** One external contour of the colour mask: its area, perimeter, the
      circularity 4*pi*area/perimeter^2 (meaningful for a non-zero
      perimeter) and its spatial moments. */
  datatype Blob = Blob(area: real, perimeter: real, roundness: real, m00: real, m10: real, m01: real)

  datatype HsvMonster = HsvMonster(id: nat, x: int, y: int, area: int, circularity: real)

  /** Why a contour is dropped, checked in this order. */
  datatype Drop = AreaOutside | ZeroPerimeter | NotRound | ZeroMoment

  function DropReason(b: Blob, minArea: real, maxArea: real, circularity: real): (r: Option<Drop>)
    ensures r.None? <==> minArea <= b.area <= maxArea && b.perimeter != 0.0 &&
                         b.roundness >= circularity && b.m00 != 0.0
  {
    if b.area < minArea || b.area > maxArea then Some(AreaOutside)
    else if b.perimeter == 0.0 then Some(ZeroPerimeter)
    else if b.roundness < circularity then Some(NotRound)
    else if b.m00 == 0.0 then Some(ZeroMoment)
    else None
  }

  /** The monsters the HSV detector reports for `blobs`; `circularity` is
      the trackbar value divided by 100. */
  function HsvMonsters(blobs: seq<Blob>, minArea: real, maxArea: real, circularity: real): (r: seq<HsvMonster>)
    ensures |r| <= |blobs|
  {
    if blobs == [] then []
    else
      var prev := HsvMonsters(blobs[..|blobs| - 1], minArea, maxArea, circularity);
      var b := blobs[|blobs| - 1];
      if DropReason(b, minArea, maxArea, circularity).Some? then prev
      else prev + [HsvMonster(|prev| + 1, Trunc(b.m10 / b.m00), Trunc(b.m01 / b.m00), Trunc(b.area), b.roundness)]
  }

  ghost predicate Accepted(b: Blob, minArea: real, maxArea: real, circularity: real)
  {
    DropReason(b, minArea, maxArea, circularity).None?
  }

  /** Ids run 1..n in contour order, and every reported monster passed the
      circularity filter. */
  lemma {:induction false} HsvMonstersNumbered(blobs: seq<Blob>, minArea: real, maxArea: real, circularity: real)
    ensures forall k :: 0 <= k < |HsvMonsters(blobs, minArea, maxArea, circularity)| ==>
              HsvMonsters(blobs, minArea, maxArea, circularity)[k].id == k + 1 &&
              HsvMonsters(blobs, minArea, maxArea, circularity)[k].circularity >= circularity
  {
    if blobs != [] {
      var init := blobs[..|blobs| - 1];
      HsvMonstersNumbered(init, minArea, maxArea, circularity);
      var prev := HsvMonsters(init, minArea, maxArea, circularity);
      var r := HsvMonsters(blobs, minArea, maxArea, circularity);
      var b := blobs[|blobs| - 1];
      if DropReason(b, minArea, maxArea, circularity).None? {
        assert r == prev + [HsvMonster(|prev| + 1, Trunc(b.m10 / b.m00), Trunc(b.m01 / b.m00), Trunc(b.area), b.roundness)];
        forall k | 0 <= k < |r| ensures r[k].id == k + 1 && r[k].circularity >= circularity {
          if k < |prev| {
            assert r[k] == prev[k];
          }
        }
      }
    }
  }

  /** The accepted blobs among the first n. */
  ghost function AcceptedUpTo(blobs: seq<Blob>, n: nat, minArea: real, maxArea: real, circularity: real): set<nat>
  {
    set k | 0 <= k < n && k < |blobs| && Accepted(blobs[k], minArea, maxArea, circularity)
  }

  /** One monster is reported per accepted contour. */
  lemma {:induction false} HsvMonstersCount(blobs: seq<Blob>, minArea: real, maxArea: real, circularity: real)
    ensures |HsvMonsters(blobs, minArea, maxArea, circularity)| == |AcceptedUpTo(blobs, |blobs|, minArea, maxArea, circularity)|
  {
    if blobs != [] {
      var n := |blobs| - 1;
      var init := blobs[..n];
      HsvMonstersCount(init, minArea, maxArea, circularity);
      var before := AcceptedUpTo(init, n, minArea, maxArea, circularity);
      assert before == AcceptedUpTo(blobs, n, minArea, maxArea, circularity) by {
        assert forall k :: 0 <= k < n ==> init[k] == blobs[k];
      }
      var after := AcceptedUpTo(blobs, |blobs|, minArea, maxArea, circularity);
      if Accepted(blobs[n], minArea, maxArea, circularity) {
        assert after == before + {n};
        assert n !in before;
      } else {
        assert after == before;
      }
    }
  }

  /** HSVMonsterDetector.detect after contour extraction: the filter chain
      and the running monster id. */
  method DetectHsv(blobs: seq<Blob>, minArea: real, maxArea: real, circularity: real) returns (monsters: seq<HsvMonster>)
    ensures monsters == HsvMonsters(blobs, minArea, maxArea, circularity)
  {
    monsters := [];
    var monsterId := 1;
    var i := 0;
    while i < |blobs|
      invariant 0 <= i <= |blobs|
      invariant monsters == HsvMonsters(blobs[..i], minArea, maxArea, circularity)
      invariant monsterId == |monsters| + 1
    {
      assert blobs[..i + 1][..i] == blobs[..i];
      var b := blobs[i];
      i := i + 1;
      if b.area < minArea || b.area > maxArea {
        continue;
      }
      if b.perimeter == 0.0 {
        continue;
      }
      if b.roundness < circularity {
        continue;
      }
      if b.m00 == 0.0 {
        continue;
      }
      var cx := Trunc(b.m10 / b.m00);
      var cy := Trunc(b.m01 / b.m00);
      monsters := monsters + [HsvMonster(monsterId, cx, cy, Trunc(b.area), b.roundness)];
      monsterId := monsterId + 1;
    }
    assert blobs[..i] == blobs;
  }

  /** A template match: centre, size, score and scale. */
  datatype TemplateMatch = TemplateMatch(x: int, y: int, w: int, h: int, score: real, scale: real, id: nat, area: int)

  /** A score-matrix location at or above the threshold. */
  datatype Hit = Hit(x: int, y: int, score: real)

  /** Iterations left for the scale loop: none once the scale is past the
      end, otherwise one more than the whole steps that still fit. */
  function StepsLeft(scale: real, scaleEnd: real, scaleStep: real): nat
    requires scaleStep > 0.0
  {
    if scale > scaleEnd then 0 else ((scaleEnd - scale) / scaleStep).Floor as nat + 1
  }

  lemma StepsLeftDecreases(scale: real, scaleEnd: real, scaleStep: real)
    requires scaleStep > 0.0 && scale <= scaleEnd
    ensures StepsLeft(scale + scaleStep, scaleEnd, scaleStep) < StepsLeft(scale, scaleEnd, scaleStep)
  {
    var d := scaleEnd - scale;
    DivSub(d, scaleStep);
    assert scaleEnd - (scale + scaleStep) == d - scaleStep;
  }

  lemma DivSub(d: real, s: real)
    requires s > 0.0
    ensures (d - s) / s == d / s - 1.0
  {
    assert (d - s) / s == d / s - s / s;
  }

  /** With a zero step the scale never moves, so a loop that starts at or
      below its end never leaves it: every iteration sees the same scale. */
  lemma {:induction false} ZeroStepNeverEnds(scaleStart: real, scaleEnd: real, iterations: nat)
    requires scaleStart <= scaleEnd
    ensures ScaleAfter(scaleStart, 0.0, iterations) == scaleStart <= scaleEnd
  {
    if iterations > 0 {
      ZeroStepNeverEnds(scaleStart, scaleEnd, iterations - 1);
    }
  }

  /** The scale after `n` additions of the step. */
  function ScaleAfter(scaleStart: real, scaleStep: real, n: nat): real
  {
    if n == 0 then scaleStart else ScaleAfter(scaleStart, scaleStep, n - 1) + scaleStep
  }

  /** The matches of one scale: each hit's top-left corner moved to the
      centre of the resized template. */
  function CentredMatches(hits: seq<Hit>, w: int, h: int, scale: real): (r: seq<TemplateMatch>)
    ensures |r| == |hits|
  {
    if hits == [] then []
    else
      var p := hits[|hits| - 1];
      CentredMatches(hits[..|hits| - 1], w, h, scale) + [TemplateMatch(p.x + w / 2, p.y + h / 2, w, h, p.score, scale, 0, 0)]
  }

  /** The matches of one scale: none when the resized template is under 5
      pixels or larger than the image. `sizeAt` gives the resized
      template's width and height, `int(tw * scale)` and `int(th * scale)`. */
  function ScaleMatches(scale: real, sizeAt: real -> (int, int), imageW: int, imageH: int, hitsAt: real -> seq<Hit>): seq<TemplateMatch>
  {
    var w := sizeAt(scale).0;
    var h := sizeAt(scale).1;
    if w < 5 || h < 5 || w > imageW || h > imageH then [] else CentredMatches(hitsAt(scale), w, h, scale)
  }

  /** The matches of the scale loop from `scale` on; `hitsAt` gives the
      locations at or above the threshold for a resized template. */
  function ScaleLoop(scale: real, scaleEnd: real, scaleStep: real, sizeAt: real -> (int, int), imageW: int, imageH: int,
                     hitsAt: real -> seq<Hit>): seq<TemplateMatch>
    requires scaleStep > 0.0
    decreases StepsLeft(scale, scaleEnd, scaleStep)
  {
    if scale > scaleEnd then []
    else
      StepsLeftDecreases(scale, scaleEnd, scaleStep);
      ScaleMatches(scale, sizeAt, imageW, imageH, hitsAt) +
      ScaleLoop(scale + scaleStep, scaleEnd, scaleStep, sizeAt, imageW, imageH, hitsAt)
  }

  /** One turn of the scale loop keeps the collected matches a prefix of
      the whole loop's. */
  lemma ScaleLoopStep(total: seq<TemplateMatch>, collected: seq<TemplateMatch>, found: seq<TemplateMatch>,
                      scale: real, scaleEnd: real, scaleStep: real, sizeAt: real -> (int, int), imageW: int, imageH: int,
                      hitsAt: real -> seq<Hit>)
    requires scaleStep > 0.0 && scale <= scaleEnd
    requires total == collected + ScaleLoop(scale, scaleEnd, scaleStep, sizeAt, imageW, imageH, hitsAt)
    requires found == ScaleMatches(scale, sizeAt, imageW, imageH, hitsAt)
    ensures total == (collected + found) + ScaleLoop(scale + scaleStep, scaleEnd, scaleStep, sizeAt, imageW, imageH, hitsAt)
  {
    AppendAssoc(collected, found, ScaleLoop(scale + scaleStep, scaleEnd, scaleStep, sizeAt, imageW, imageH, hitsAt));
  }

  /** Past the end the loop adds nothing. */
  lemma ScaleLoopDone(total: seq<TemplateMatch>, collected: seq<TemplateMatch>,
                      scale: real, scaleEnd: real, scaleStep: real, sizeAt: real -> (int, int), imageW: int, imageH: int,
                      hitsAt: real -> seq<Hit>)
    requires scaleStep > 0.0 && scale > scaleEnd
    requires total == collected + ScaleLoop(scale, scaleEnd, scaleStep, sizeAt, imageW, imageH, hitsAt)
    ensures total == collected
  {
    assert collected + [] == collected;
  }

  /** The scales the loop visits from `scale` on. */
  function ScalesFrom(scale: real, scaleEnd: real, scaleStep: real): (r: seq<real>)
    requires scaleStep > 0.0
    ensures r == [] <==> scale > scaleEnd
    decreases StepsLeft(scale, scaleEnd, scaleStep)
  {
    if scale > scaleEnd then []
    else
      StepsLeftDecreases(scale, scaleEnd, scaleStep);
      [scale] + ScalesFrom(scale + scaleStep, scaleEnd, scaleStep)
  }

  /** The body of the scale loop. */
  method MatchAtScale(scale: real, sizeAt: real -> (int, int), imageW: int, imageH: int, hitsAt: real -> seq<Hit>)
    returns (found: seq<TemplateMatch>)
    ensures found == ScaleMatches(scale, sizeAt, imageW, imageH, hitsAt)
  {
    var newW := sizeAt(scale).0;
    var newH := sizeAt(scale).1;
    if newW < 5 || newH < 5 || newW > imageW || newH > imageH {
      return [];
    }
    found := CentreHits(hitsAt(scale), newW, newH, scale);
  }

  /** The location loop of one scale. */
  method CentreHits(hits: seq<Hit>, newW: int, newH: int, scale: real) returns (found: seq<TemplateMatch>)
    ensures found == CentredMatches(hits, newW, newH, scale)
  {
    found := [];
    for j := 0 to |hits|
      invariant found == CentredMatches(hits[..j], newW, newH, scale)
    {
      assert hits[..j + 1][..j] == hits[..j];
      found := found + [TemplateMatch(hits[j].x + newW / 2, hits[j].y + newH / 2, newW, newH, hits[j].score, scale, 0, 0)];
    }
    assert hits[..|hits|] == hits;
  }

  /** The multi-scale loop of TemplateMonsterDetector.detect. It ends only
      for a positive step, or when it starts past its end. */
  method CollectTemplateMatches(scaleStart: real, scaleEnd: real, scaleStep: real, sizeAt: real -> (int, int),
                                imageW: int, imageH: int, hitsAt: real -> seq<Hit>) returns (allMatches: seq<TemplateMatch>)
    requires scaleStep > 0.0 || scaleStart > scaleEnd
    ensures scaleStart > scaleEnd ==> allMatches == []
    ensures scaleStep > 0.0 ==> allMatches == ScaleLoop(scaleStart, scaleEnd, scaleStep, sizeAt, imageW, imageH, hitsAt)
  {
    if scaleStart > scaleEnd {
      return [];
    }
    allMatches := ScanScales(scaleStart, scaleEnd, scaleStep, sizeAt, imageW, imageH, hitsAt);
  }

  /** The scale loop proper, for a positive step. */
  method ScanScales(scaleStart: real, scaleEnd: real, scaleStep: real, sizeAt: real -> (int, int),
                    imageW: int, imageH: int, hitsAt: real -> seq<Hit>) returns (allMatches: seq<TemplateMatch>)
    requires scaleStep > 0.0
    ensures allMatches == ScaleLoop(scaleStart, scaleEnd, scaleStep, sizeAt, imageW, imageH, hitsAt)
  {
    ghost var total := ScaleLoop(scaleStart, scaleEnd, scaleStep, sizeAt, imageW, imageH, hitsAt);
    allMatches := [];
    var scale := scaleStart;
    ghost var todo := ScalesFrom(scale, scaleEnd, scaleStep);
    while scale <= scaleEnd
      invariant total == allMatches + ScaleLoop(scale, scaleEnd, scaleStep, sizeAt, imageW, imageH, hitsAt)
      invariant todo == ScalesFrom(scale, scaleEnd, scaleStep)
      decreases |todo|
    {
      todo := todo[1..];
      var found := MatchAtScale(scale, sizeAt, imageW, imageH, hitsAt);
      ScaleLoopStep(total, allMatches, found, scale, scaleEnd, scaleStep, sizeAt, imageW, imageH, hitsAt);
      allMatches := allMatches + found;
      scale := scale + scaleStep;
    }
    ScaleLoopDone(total, allMatches, scale, scaleEnd, scaleStep, sizeAt, imageW, imageH, hitsAt);
  }


  /** `_is_overlapping`: the centre distance is below the mean width times
      the threshold, compared on squares. */
  predicate Overlapping(m1: TemplateMatch, m2: TemplateMatch, threshold: real)
  {
    var dx := Abs(m1.x - m2.x);
    var dy := Abs(m1.y - m2.y);
    var limit := (m1.w + m2.w) as real / 2.0 * threshold;
    limit > 0.0 && ((dx * dx + dy * dy) as real) < limit * limit
  }

  /** Overlap is symmetric, and at threshold 0 (or below) nothing overlaps. */
  lemma OverlappingSymmetric(m1: TemplateMatch, m2: TemplateMatch, threshold: real)
    ensures Overlapping(m1, m2, threshold) <==> Overlapping(m2, m1, threshold)
    ensures threshold <= 0.0 && m1.w + m2.w >= 0 ==> !Overlapping(m1, m2, threshold)
  {
    assert Abs(m1.x - m2.x) == Abs(m2.x - m1.x);
    assert Abs(m1.y - m2.y) == Abs(m2.y - m1.y);
    if threshold <= 0.0 && m1.w + m2.w >= 0 {
      assert (m1.w + m2.w) as real / 2.0 >= 0.0;
      assert (m1.w + m2.w) as real / 2.0 * threshold <= 0.0;
    }
  }

  predicate NonNegativeWidths(matches: seq<TemplateMatch>)
  {
    forall m :: m in matches ==> m.w >= 0
  }

  /** The matches a kept match lets through: those it does not overlap. */
  function Unsuppressed(current: TemplateMatch, threshold: real): TemplateMatch -> bool
  {
    m => !Overlapping(current, m, threshold)
  }

  function Score(m: TemplateMatch): real
  {
    m.score
  }

  /** What `_nms` has established: no two kept matches overlap, nothing
      left overlaps a kept one, scores fall along the kept list and the
      remaining list, and every input match is kept, remaining, or
      overlaps a kept one. */
  ghost predicate NmsProgress(input: seq<TemplateMatch>, threshold: real, kept: seq<TemplateMatch>, rest: seq<TemplateMatch>)
  {
    multiset(kept) + multiset(rest) <= multiset(input) &&
    KeptApart(kept, threshold) &&
    KeptDominate(kept, rest, threshold) &&
    SortedDesc(rest, Score) &&
    Covered(input, kept, rest, threshold)
  }

  ghost predicate KeptApart(kept: seq<TemplateMatch>, threshold: real)
  {
    forall a, b :: 0 <= a < b < |kept| ==> !Overlapping(kept[a], kept[b], threshold) && kept[b].score <= kept[a].score
  }

  ghost predicate KeptDominate(kept: seq<TemplateMatch>, rest: seq<TemplateMatch>, threshold: real)
  {
    forall a, m :: 0 <= a < |kept| && m in rest ==> !Overlapping(kept[a], m, threshold) && m.score <= kept[a].score
  }

  /** Every input match is kept, remaining, or overlaps a kept match that
      scores at least as high. */
  ghost predicate Covered(input: seq<TemplateMatch>, kept: seq<TemplateMatch>, rest: seq<TemplateMatch>, threshold: real)
  {
    forall m :: m in input ==>
      m in kept || m in rest ||
      exists a :: 0 <= a < |kept| && Overlapping(kept[a], m, threshold) && m.score <= kept[a].score
  }

  /** The rounds of `_nms` on a best-first list: keep the first match, drop
      every later one that overlaps it, and go on with the rest. */
  function Greedy(sorted: seq<TemplateMatch>, threshold: real): (kept: seq<TemplateMatch>)
    ensures |kept| <= |sorted|
    decreases |sorted|
  {
    if sorted == [] then []
    else [sorted[0]] + Greedy(Filter(sorted[1..], Unsuppressed(sorted[0], threshold)), threshold)
  }

  /** One round appended to the kept list leaves the list the rounds end
      with unchanged. */
  lemma GreedyRound(kept: seq<TemplateMatch>, rest: seq<TemplateMatch>, threshold: real)
    requires rest != []
    ensures kept + [rest[0]] + Greedy(Filter(rest[1..], Unsuppressed(rest[0], threshold)), threshold) ==
            kept + Greedy(rest, threshold)
  {
  }

  /** `_nms`: sort best first, then repeatedly keep the first match and
      drop every remaining one that overlaps it. */
  method Nms(matches: seq<TemplateMatch>, threshold: real) returns (kept: seq<TemplateMatch>)
    ensures kept == Greedy(SortDesc(matches, Score), threshold)
    ensures matches == [] ==> kept == []
    ensures NmsProgress(matches, threshold, kept, [])
    ensures matches != [] ==> kept != [] && forall m :: m in matches ==> m.score <= kept[0].score
    ensures threshold <= 0.0 && NonNegativeWidths(matches) ==> kept == SortDesc(matches, Score)
  {
    if matches == [] {
      return [];
    }
    var rest := SortDesc(matches, Score);
    NmsLoopStart(matches, threshold);
    kept := [];
    while rest != []
      invariant NmsLoop(matches, threshold, kept, rest)
      invariant kept + Greedy(rest, threshold) == Greedy(SortDesc(matches, Score), threshold)
      decreases |rest|
    {
      var current := rest[0];
      var tail := rest[1..];
      NmsLoopStep(matches, threshold, kept, rest);
      GreedyRound(kept, rest, threshold);
      kept := kept + [current];
      rest := Filter(tail, Unsuppressed(current, threshold));
    }
    NmsLoopEnd(matches, threshold, kept);
  }

  lemma NmsLoopEnd(matches: seq<TemplateMatch>, threshold: real, kept: seq<TemplateMatch>)
    requires matches != [] && NmsLoop(matches, threshold, kept, [])
    ensures NmsProgress(matches, threshold, kept, [])
    ensures kept != [] && forall m :: m in matches ==> m.score <= kept[0].score
    ensures threshold <= 0.0 && NonNegativeWidths(matches) ==> kept == SortDesc(matches, Score)
  {
    assert kept + [] == kept;
    if kept == [] {
      SortDescSpec(matches, Score);
      assert false;
    }
  }

  /** The loop invariant of `_nms` for a non-empty input. */
  ghost predicate NmsLoop(matches: seq<TemplateMatch>, threshold: real, kept: seq<TemplateMatch>, rest: seq<TemplateMatch>)
  {
    NmsProgress(matches, threshold, kept, rest) && NmsOrder(matches, threshold, kept, rest)
  }

  /** The part of the invariant about order: the first kept match is the
      best, and at threshold 0 nothing is dropped. */
  ghost predicate NmsOrder(matches: seq<TemplateMatch>, threshold: real, kept: seq<TemplateMatch>, rest: seq<TemplateMatch>)
  {
    (kept == [] ==> rest == SortDesc(matches, Score)) &&
    (kept != [] ==> forall m :: m in matches ==> m.score <= kept[0].score) &&
    (threshold <= 0.0 && NonNegativeWidths(matches) ==> kept + rest == SortDesc(matches, Score))
  }

  lemma NmsLoopStart(matches: seq<TemplateMatch>, threshold: real)
    requires matches != []
    ensures NmsLoop(matches, threshold, [], SortDesc(matches, Score))
  {
    var sorted := SortDesc(matches, Score);
    SortDescSpec(matches, Score);
    assert [] + sorted == sorted;
    forall m | m in matches ensures m in sorted {
      assert m in multiset(sorted);
    }
  }

  lemma NmsLoopStep(matches: seq<TemplateMatch>, threshold: real, kept: seq<TemplateMatch>, rest: seq<TemplateMatch>)
    requires matches != [] && rest != []
    requires NmsLoop(matches, threshold, kept, rest)
    ensures NmsLoop(matches, threshold, kept + [rest[0]],
                    Filter(rest[1..], Unsuppressed(rest[0], threshold)))
  {
    var current := rest[0];
    var tail := rest[1..];
    assert rest == [current] + tail;
    NmsRound(matches, threshold, kept, current, tail);
    OrderStep(matches, threshold, kept, rest);
  }

  lemma OrderStep(matches: seq<TemplateMatch>, threshold: real, kept: seq<TemplateMatch>, rest: seq<TemplateMatch>)
    requires matches != [] && rest != []
    requires multiset(kept) + multiset(rest) <= multiset(matches)
    requires NmsOrder(matches, threshold, kept, rest)
    ensures NmsOrder(matches, threshold, kept + [rest[0]], Filter(rest[1..], Unsuppressed(rest[0], threshold)))
  {
    StepBest(matches, threshold, kept, rest);
    if threshold <= 0.0 && NonNegativeWidths(matches) {
      StepAtZero(matches, threshold, kept, rest, SortDesc(matches, Score));
    }
  }

  lemma StepBest(matches: seq<TemplateMatch>, threshold: real, kept: seq<TemplateMatch>, rest: seq<TemplateMatch>)
    requires matches != [] && rest != []
    requires kept == [] ==> rest == SortDesc(matches, Score)
    requires kept != [] ==> forall m :: m in matches ==> m.score <= kept[0].score
    ensures forall m :: m in matches ==> m.score <= (kept + [rest[0]])[0].score
  {
    if kept == [] {
      SortDescSpec(matches, Score);
      FirstOfSortedIsBest(matches);
    } else {
      assert (kept + [rest[0]])[0] == kept[0];
    }
  }

  lemma StepAtZero(matches: seq<TemplateMatch>, threshold: real, kept: seq<TemplateMatch>, rest: seq<TemplateMatch>,
                   sorted: seq<TemplateMatch>)
    requires rest != [] && threshold <= 0.0 && NonNegativeWidths(matches)
    requires multiset(kept) + multiset(rest) <= multiset(matches)
    requires kept + rest == sorted
    ensures kept + [rest[0]] + Filter(rest[1..], Unsuppressed(rest[0], threshold)) == sorted
  {
    NothingOverlapsAtZero(matches, threshold, kept, rest);
    Reassemble(kept, rest, Filter(rest[1..], Unsuppressed(rest[0], threshold)));
  }

  lemma Reassemble<T>(kept: seq<T>, rest: seq<T>, tail: seq<T>)
    requires rest != [] && tail == rest[1..]
    ensures kept + [rest[0]] + tail == kept + rest
  {
    assert rest == [rest[0]] + tail;
  }

  lemma FirstOfSortedIsBest(matches: seq<TemplateMatch>)
    requires matches != []
    requires SortedDesc(SortDesc(matches, Score), Score)
    requires multiset(SortDesc(matches, Score)) == multiset(matches)
    ensures forall m :: m in matches ==> m.score <= SortDesc(matches, Score)[0].score
  {
    var sorted := SortDesc(matches, Score);
    forall m | m in matches ensures m.score <= sorted[0].score {
      assert m in multiset(sorted);
      var j :| 0 <= j < |sorted| && sorted[j] == m;
    }
  }

  lemma NothingOverlapsAtZero(input: seq<TemplateMatch>, threshold: real, kept: seq<TemplateMatch>,
                              rest: seq<TemplateMatch>)
    requires rest != [] && threshold <= 0.0 && NonNegativeWidths(input)
    requires multiset(kept) + multiset(rest) <= multiset(input)
    ensures Filter(rest[1..], Unsuppressed(rest[0], threshold)) == rest[1..]
  {
    var current := rest[0];
    assert current in multiset(rest);
    assert current in multiset(input);
    assert current in input;
    forall m | m in rest[1..] ensures !Overlapping(current, m, threshold) {
      assert m in rest;
      assert m in multiset(rest);
      assert m in multiset(input);
      assert m in input;
      OverlappingSymmetric(current, m, threshold);
    }
    FilterKeepsAll(rest[1..], Unsuppressed(current, threshold));
  }

  lemma NmsRound(input: seq<TemplateMatch>, threshold: real, kept: seq<TemplateMatch>,
                 current: TemplateMatch, rest: seq<TemplateMatch>)
    requires NmsProgress(input, threshold, kept, [current] + rest)
    ensures NmsProgress(input, threshold, kept + [current],
                        Filter(rest, Unsuppressed(current, threshold)))
  {
    var keep := Unsuppressed(current, threshold);
    var rest' := Filter(rest, keep);
    FilterSpec(rest, keep);
    SortedTail(current, rest);
    FilterSortedDesc(rest, keep, Score);
    assert multiset([current] + rest) == multiset{current} + multiset(rest);
    RoundApart(kept, threshold, current, rest);
    RoundDominate(kept, threshold, current, rest);
    RoundCovered(input, kept, threshold, current, rest);
  }

  lemma SortedTail(current: TemplateMatch, rest: seq<TemplateMatch>)
    requires SortedDesc([current] + rest, Score)
    ensures SortedDesc(rest, Score) && forall m :: m in rest ==> m.score <= current.score
  {
    var s := [current] + rest;
    forall a, b | 0 <= a < b < |rest| ensures Score(rest[a]) >= Score(rest[b]) {
      assert rest[a] == s[a + 1] && rest[b] == s[b + 1];
    }
    forall m | m in rest ensures m.score <= current.score {
      var j :| 0 <= j < |rest| && rest[j] == m;
      assert s[j + 1] == m && s[0] == current;
      assert Score(s[0]) >= Score(s[j + 1]);
    }
  }

  lemma RoundApart(kept: seq<TemplateMatch>, threshold: real, current: TemplateMatch, rest: seq<TemplateMatch>)
    requires KeptApart(kept, threshold) && KeptDominate(kept, [current] + rest, threshold)
    ensures KeptApart(kept + [current], threshold)
  {
    var kept' := kept + [current];
    forall a, b | 0 <= a < b < |kept'| ensures !Overlapping(kept'[a], kept'[b], threshold) && kept'[b].score <= kept'[a].score {
      if b == |kept| {
        assert current in [current] + rest;
      }
    }
  }

  lemma RoundDominate(kept: seq<TemplateMatch>, threshold: real, current: TemplateMatch, rest: seq<TemplateMatch>)
    requires KeptDominate(kept, [current] + rest, threshold)
    requires forall m :: m in rest ==> m.score <= current.score
    ensures KeptDominate(kept + [current], Filter(rest, Unsuppressed(current, threshold)), threshold)
  {
    var keep := Unsuppressed(current, threshold);
    var rest' := Filter(rest, keep);
    var kept' := kept + [current];
    FilterSpec(rest, keep);
    forall a, m | 0 <= a < |kept'| && m in rest' ensures !Overlapping(kept'[a], m, threshold) && m.score <= kept'[a].score {
      if a < |kept| {
        assert m in [current] + rest;
      }
    }
  }

  lemma RoundCovered(input: seq<TemplateMatch>, kept: seq<TemplateMatch>, threshold: real,
                     current: TemplateMatch, rest: seq<TemplateMatch>)
    requires Covered(input, kept, [current] + rest, threshold)
    requires forall m :: m in rest ==> m.score <= current.score
    ensures Covered(input, kept + [current], Filter(rest, Unsuppressed(current, threshold)), threshold)
  {
    var keep := Unsuppressed(current, threshold);
    var rest' := Filter(rest, keep);
    var kept' := kept + [current];
    FilterSpec(rest, keep);
    forall m | m in input
      ensures m in kept' || m in rest' ||
              exists a :: 0 <= a < |kept'| && Overlapping(kept'[a], m, threshold) && m.score <= kept'[a].score
    {
      if m in rest && m !in rest' {
        assert Overlapping(kept'[|kept|], m, threshold);
      } else if m !in kept && m !in [current] + rest {
        var a :| 0 <= a < |kept| && Overlapping(kept[a], m, threshold) && m.score <= kept[a].score;
        assert kept'[a] == kept[a];
      }
    }
  }

  /** The id and area assignment after suppression, in place. */
  method NumberMonsters(kept: seq<TemplateMatch>) returns (monsters: array<TemplateMatch>)
    ensures monsters.Length == |kept|
    ensures forall k :: 0 <= k < |kept| ==> monsters[k] == kept[k].(id := k + 1, area := kept[k].w * kept[k].h)
  {
    monsters := new TemplateMatch[|kept|](k requires 0 <= k < |kept| => kept[k]);
    for i := 0 to monsters.Length
      invariant forall k :: 0 <= k < i ==> monsters[k] == kept[k].(id := k + 1, area := kept[k].w * kept[k].h)
      invariant forall k :: i <= k < monsters.Length ==> monsters[k] == kept[k]
    {
      monsters[i] := monsters[i].(id := i + 1, area := monsters[i].w * monsters[i].h);
    }
  }

  datatype HoughParams = HoughParams(dp: int, minDist: int, param1: int, param2: int,
                                     minRadius: int, maxRadius: int, blurSize: int)

  /** The clamps before HoughCircles: every parameter at least 1, the
      maximum radius above the minimum, and the blur size made odd. */
  function ClampHough(p: HoughParams): (r: HoughParams)
    ensures r.dp >= 1 && r.minDist >= 1 && r.param1 >= 1 && r.param2 >= 1 && r.minRadius >= 1
    ensures r.maxRadius >= r.minRadius + 1
    ensures r.blurSize >= 1 && r.blurSize % 2 == 1
    ensures (p.dp >= 1 && p.minDist >= 1 && p.param1 >= 1 && p.param2 >= 1 && p.minRadius >= 1 &&
             p.maxRadius >= p.minRadius + 1 && p.blurSize >= 1 && p.blurSize % 2 == 1) ==> r == p
  {
    var minRadius := Max(1, p.minRadius);
    var blur := Max(1, p.blurSize);
    HoughParams(Max(1, p.dp), Max(1, p.minDist), Max(1, p.param1), Max(1, p.param2),
                minRadius, Max(minRadius + 1, p.maxRadius),
                if blur % 2 == 0 then blur + 1 else blur)
  }
}
