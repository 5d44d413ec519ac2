/** The multi-scale template matcher of opencv/test_template.py after the
    OpenCV calls: each scale's score matrix (as its locations in row-major
    order) and the clock readings taken around it are inputs. */
module TestTemplate {
  import opened GoInt
  import opened BoxNms
  import opened Sorting

  /** `nms_boxes`: each round keeps the first (highest-scoring) index of
      the descending order and retains only the indices whose overlap with
      it is at most `threshold`. `argsort` is numpy's ascending argsort of
      the scores; the method reads it backwards as the source does. */
  method NmsBoxes(boxes: seq<Box>, scores: seq<real>, threshold: real, argsort: seq<nat>) returns (keep: seq<nat>)
    requires |boxes| == |scores|
    requires IsArgsort(argsort, scores)
    ensures keep == GreedyFront(boxes, Reverse(argsort), threshold)
    ensures NmsResult(boxes, scores, threshold, keep)
    ensures boxes == [] ==> keep == []
  {
    GreedyFrontIsNms(boxes, scores, threshold, argsort);
    if |boxes| == 0 {
      assert Reverse(argsort) == [];
      return [];
    }
    ReversedArgsort(argsort, scores);
    var order := Reverse(argsort);
    Start(boxes, scores, threshold, order);
    keep := SuppressFromFront(boxes, scores, threshold, [], order);
    assert [] + GreedyFront(boxes, order, threshold) == GreedyFront(boxes, order, threshold);
  }

  /** The scales tried: just 1.0 for at most one step, otherwise `steps`
      evenly spaced values from `scaleMin` to `scaleMax`. */
  function Scales(scaleMin: real, scaleMax: real, steps: int): (r: seq<real>)
    ensures steps <= 1 ==> r == [1.0]
    ensures steps > 1 ==> |r| == steps && r[0] == scaleMin && r[steps - 1] == scaleMax
    ensures steps > 1 ==> forall k :: 0 <= k < steps - 1 ==>
              r[k + 1] - r[k] == (scaleMax - scaleMin) / ((steps - 1) as real)
  {
    if steps <= 1 then [1.0]
    else
      var gap := (scaleMax - scaleMin) / ((steps - 1) as real);
      assert ((steps - 1) as real) * gap == scaleMax - scaleMin;
      seq(steps, k requires 0 <= k < steps => scaleMin + (k as real) * gap)
  }

  /** A score-matrix location. */
  datatype Location = Location(x: int, y: int, score: real)

  /** What one scale contributes: the clock readings before and after
      matching (seconds since the start), whether matchTemplate raised, and
      the score matrix. */
  datatype ScaleRun = ScaleRun(elapsedBefore: real, failed: bool, locations: seq<Location>, elapsedAfter: real)

  datatype Match = Match(x: int, y: int, w: int, h: int, score: real, scale: real, box: Box)

  /** Higher-is-better methods keep scores at least the threshold,
      lower-is-better ones scores at most the threshold. */
  predicate Passes(score: real, threshold: real, higherIsBetter: bool)
  {
    if higherIsBetter then score >= threshold else score <= threshold
  }

  /** Back to original-image coordinates after a resolution reduction. */
  function Restore(v: int, resizeFactor: real): int
    requires resizeFactor > 0.0
  {
    if resizeFactor < 1.0 then Trunc(v as real / resizeFactor) else v
  }

  function MatchAt(l: Location, scaledW: int, scaledH: int, scale: real, resizeFactor: real): Match
    requires resizeFactor > 0.0
  {
    var x := Restore(l.x, resizeFactor);
    var y := Restore(l.y, resizeFactor);
    var w := Restore(scaledW, resizeFactor);
    var h := Restore(scaledH, resizeFactor);
    Match(x, y, w, h, l.score, scale, Box(x, y, x + w, y + h))
  }

  /** The matches one scale contributes, every one sized from the scale's
      template size. */
  function ScaleMatches(locs: seq<Location>, scaledW: int, scaledH: int, scale: real, resizeFactor: real,
                        threshold: real, higherIsBetter: bool): (r: seq<Match>)
    requires resizeFactor > 0.0
    ensures |r| <= |locs|
  {
    if locs == [] then []
    else
      var l := locs[|locs| - 1];
      ScaleMatches(locs[..|locs| - 1], scaledW, scaledH, scale, resizeFactor, threshold, higherIsBetter) +
      (if Passes(l.score, threshold, higherIsBetter) then [MatchAt(l, scaledW, scaledH, scale, resizeFactor)] else [])
  }

  /** The location loop as written: the template size is restored into the
      same variable for each match, so with a resize factor below 1 every
      further match of the scale is enlarged once more. */
  function ScaleMatchesAsWritten(locs: seq<Location>, scaledW: int, scaledH: int, scale: real, resizeFactor: real,
                                 threshold: real, higherIsBetter: bool): seq<Match>
    requires resizeFactor > 0.0
  {
    if locs == [] then []
    else
      var l := locs[0];
      if Passes(l.score, threshold, higherIsBetter) then
        var m := MatchAt(l, scaledW, scaledH, scale, resizeFactor);
        [m] + ScaleMatchesAsWritten(locs[1..], m.w, m.h, scale, resizeFactor, threshold, higherIsBetter)
      else ScaleMatchesAsWritten(locs[1..], scaledW, scaledH, scale, resizeFactor, threshold, higherIsBetter)
  }

  /** Two hits of a 10x10 template at resize factor 0.5: as written the
      second is reported 40 pixels wide, where both are 20 pixels wide. */
  lemma RestoreCompounds()
    ensures var locs := [Location(0, 0, 0.9), Location(4, 0, 0.9)];
            ScaleMatchesAsWritten(locs, 10, 10, 1.0, 0.5, 0.8, true)[1].w == 40 &&
            ScaleMatches(locs, 10, 10, 1.0, 0.5, 0.8, true)[1].w == 20
  {
    var locs := [Location(0, 0, 0.9), Location(4, 0, 0.9)];
    assert Trunc(10.0 / 0.5) == 20;
    assert Trunc(20.0 / 0.5) == 40;
    assert locs[..1][..0] == [];
  }

  /** Every match of a scale passes the threshold, has the restored
      template size and the box (x, y, x + w, y + h); every passing
      location yields one. */
  lemma {:induction false} ScaleMatchesSpec(locs: seq<Location>, scaledW: int, scaledH: int, scale: real,
                                            resizeFactor: real, threshold: real, higherIsBetter: bool)
    requires resizeFactor > 0.0
    ensures var r := ScaleMatches(locs, scaledW, scaledH, scale, resizeFactor, threshold, higherIsBetter);
            forall m :: m in r ==>
              Passes(m.score, threshold, higherIsBetter) &&
              m.w == Restore(scaledW, resizeFactor) && m.h == Restore(scaledH, resizeFactor) &&
              m.box == Box(m.x, m.y, m.x + m.w, m.y + m.h) && m.scale == scale
    ensures var r := ScaleMatches(locs, scaledW, scaledH, scale, resizeFactor, threshold, higherIsBetter);
            forall l :: l in locs && Passes(l.score, threshold, higherIsBetter) ==>
              MatchAt(l, scaledW, scaledH, scale, resizeFactor) in r
  {
    if locs != [] {
      var init := locs[..|locs| - 1];
      ScaleMatchesSpec(init, scaledW, scaledH, scale, resizeFactor, threshold, higherIsBetter);
      assert locs == init + [locs[|locs| - 1]];
    }
  }

  /** Restoring never shrinks a non-negative size. */
  lemma RestoreGrows(v: int, resizeFactor: real)
    requires v >= 0 && resizeFactor > 0.0
    ensures Restore(v, resizeFactor) >= v
    ensures resizeFactor >= 1.0 ==> Restore(v, resizeFactor) == v
  {
    if resizeFactor < 1.0 {
      assert v as real <= v as real / resizeFactor by {
        assert (v as real / resizeFactor) * resizeFactor == v as real;
      }
    }
  }

  /** A scale is skipped when its template is under 3 pixels or larger
      than the image, or when matching raised. */
  predicate Skipped(run: ScaleRun, scale: real, tw: int, th: int, imageW: int, imageH: int)
  {
    var sw := Trunc(tw as real * scale);
    var sh := Trunc(th as real * scale);
    sw < 3 || sh < 3 || sw > imageW || sh > imageH || run.failed
  }

  /** Every scale from `i` on with the timeout ignored. */
  function AllScales(scales: seq<real>, runs: seq<ScaleRun>, i: nat, tw: int, th: int, imageW: int, imageH: int,
                     threshold: real, higherIsBetter: bool, resizeFactor: real): seq<Match>
    requires |runs| == |scales| && i <= |scales| && resizeFactor > 0.0
    decreases |scales| - i
  {
    if i == |scales| then []
    else if Skipped(runs[i], scales[i], tw, th, imageW, imageH) then
      AllScales(scales, runs, i + 1, tw, th, imageW, imageH, threshold, higherIsBetter, resizeFactor)
    else
      ScaleMatches(runs[i].locations, Trunc(tw as real * scales[i]), Trunc(th as real * scales[i]),
                   scales[i], resizeFactor, threshold, higherIsBetter) +
      AllScales(scales, runs, i + 1, tw, th, imageW, imageH, threshold, higherIsBetter, resizeFactor)
  }

  /** The matches and timeout flag from scale `i` on: a clock reading past
      the timeout, before a scale or after its matching, ends the search. */
  function RunScales(scales: seq<real>, runs: seq<ScaleRun>, i: nat, tw: int, th: int, imageW: int, imageH: int,
                     threshold: real, higherIsBetter: bool, resizeFactor: real, timeout: real): (seq<Match>, bool)
    requires |runs| == |scales| && i <= |scales| && resizeFactor > 0.0
    decreases |scales| - i
  {
    if i == |scales| then ([], false)
    else if runs[i].elapsedBefore > timeout then ([], true)
    else if Skipped(runs[i], scales[i], tw, th, imageW, imageH) then
      RunScales(scales, runs, i + 1, tw, th, imageW, imageH, threshold, higherIsBetter, resizeFactor, timeout)
    else if runs[i].elapsedAfter > timeout then ([], true)
    else
      var rest := RunScales(scales, runs, i + 1, tw, th, imageW, imageH, threshold, higherIsBetter, resizeFactor, timeout);
      (ScaleMatches(runs[i].locations, Trunc(tw as real * scales[i]), Trunc(th as real * scales[i]),
                    scales[i], resizeFactor, threshold, higherIsBetter) + rest.0, rest.1)
  }

  /** A timed-out search returns a prefix of the full match list; without
      a late clock reading it returns all of it and no timeout. */
  lemma {:induction false} RunScalesSpec(scales: seq<real>, runs: seq<ScaleRun>, i: nat, tw: int, th: int,
                                         imageW: int, imageH: int, threshold: real, higherIsBetter: bool,
                                         resizeFactor: real, timeout: real)
    requires |runs| == |scales| && i <= |scales| && resizeFactor > 0.0
    decreases |scales| - i
    ensures var r := RunScales(scales, runs, i, tw, th, imageW, imageH, threshold, higherIsBetter, resizeFactor, timeout);
            var all := AllScales(scales, runs, i, tw, th, imageW, imageH, threshold, higherIsBetter, resizeFactor);
            |r.0| <= |all| && r.0 == all[..|r.0|] && (!r.1 ==> r.0 == all)
    ensures (forall k :: i <= k < |runs| ==> runs[k].elapsedBefore <= timeout && runs[k].elapsedAfter <= timeout) ==>
            !RunScales(scales, runs, i, tw, th, imageW, imageH, threshold, higherIsBetter, resizeFactor, timeout).1
  {
    if i < |scales| {
      RunScalesSpec(scales, runs, i + 1, tw, th, imageW, imageH, threshold, higherIsBetter, resizeFactor, timeout);
    }
  }

  /** Every reported match passes the threshold and is at least 3 pixels
      in each direction. */
  lemma {:induction false} AllScalesSpec(scales: seq<real>, runs: seq<ScaleRun>, i: nat, tw: int, th: int,
                                         imageW: int, imageH: int, threshold: real, higherIsBetter: bool,
                                         resizeFactor: real)
    requires |runs| == |scales| && i <= |scales| && resizeFactor > 0.0
    decreases |scales| - i
    ensures forall m :: m in AllScales(scales, runs, i, tw, th, imageW, imageH, threshold, higherIsBetter, resizeFactor) ==>
              Passes(m.score, threshold, higherIsBetter) && m.w >= 3 && m.h >= 3
  {
    if i < |scales| {
      AllScalesSpec(scales, runs, i + 1, tw, th, imageW, imageH, threshold, higherIsBetter, resizeFactor);
      if !Skipped(runs[i], scales[i], tw, th, imageW, imageH) {
        var sw := Trunc(tw as real * scales[i]);
        var sh := Trunc(th as real * scales[i]);
        ScaleMatchesSpec(runs[i].locations, sw, sh, scales[i], resizeFactor, threshold, higherIsBetter);
        RestoreGrows(sw, resizeFactor);
        RestoreGrows(sh, resizeFactor);
      }
    }
  }

  /** One scale of RunScales, case by case. */
  lemma RunScalesUnfold(scales: seq<real>, runs: seq<ScaleRun>, i: nat, tw: int, th: int, imageW: int, imageH: int,
                        threshold: real, higherIsBetter: bool, resizeFactor: real, timeout: real)
    requires |runs| == |scales| && i < |scales| && resizeFactor > 0.0
    ensures var r := RunScales(scales, runs, i, tw, th, imageW, imageH, threshold, higherIsBetter, resizeFactor, timeout);
            var next := RunScales(scales, runs, i + 1, tw, th, imageW, imageH, threshold, higherIsBetter, resizeFactor, timeout);
            if runs[i].elapsedBefore > timeout then r == ([], true)
            else if Skipped(runs[i], scales[i], tw, th, imageW, imageH) then r == next
            else if runs[i].elapsedAfter > timeout then r == ([], true)
            else r.0 == ScaleMatches(runs[i].locations, Trunc(tw as real * scales[i]), Trunc(th as real * scales[i]),
                                     scales[i], resizeFactor, threshold, higherIsBetter) + next.0 &&
                 r.1 == next.1
  {
  }

  /** The location loop of one scale with the size restored once for each
      match: the corrected loop the rest of the model uses. */
  method CollectScale(locs: seq<Location>, scaledW: int, scaledH: int, scale: real, resizeFactor: real,
                      threshold: real, higherIsBetter: bool) returns (found: seq<Match>)
    requires resizeFactor > 0.0
    ensures found == ScaleMatches(locs, scaledW, scaledH, scale, resizeFactor, threshold, higherIsBetter)
  {
    found := [];
    var j := 0;
    while j < |locs|
      invariant 0 <= j <= |locs|
      invariant found == ScaleMatches(locs[..j], scaledW, scaledH, scale, resizeFactor, threshold, higherIsBetter)
    {
      assert locs[..j + 1][..j] == locs[..j];
      var l := locs[j];
      if Passes(l.score, threshold, higherIsBetter) {
        var x := Restore(l.x, resizeFactor);
        var y := Restore(l.y, resizeFactor);
        var w := Restore(scaledW, resizeFactor);
        var h := Restore(scaledH, resizeFactor);
        found := found + [Match(x, y, w, h, l.score, scale, Box(x, y, x + w, y + h))];
      }
      j := j + 1;
    }
    assert locs[..j] == locs;
  }

  /** The location loop of one scale as written: each match restores the
      template size into `scaledW`/`scaledH` themselves, so the next match
      starts from the enlarged size. */
  method CollectScaleAsWritten(locs: seq<Location>, scaledW: int, scaledH: int, scale: real, resizeFactor: real,
                               threshold: real, higherIsBetter: bool) returns (found: seq<Match>)
    requires resizeFactor > 0.0
    ensures found == ScaleMatchesAsWritten(locs, scaledW, scaledH, scale, resizeFactor, threshold, higherIsBetter)
  {
    found := [];
    var w, h := scaledW, scaledH;
    var j := 0;
    while j < |locs|
      invariant 0 <= j <= |locs|
      invariant found + ScaleMatchesAsWritten(locs[j..], w, h, scale, resizeFactor, threshold, higherIsBetter)
                == ScaleMatchesAsWritten(locs, scaledW, scaledH, scale, resizeFactor, threshold, higherIsBetter)
    {
      assert locs[j..][1..] == locs[j + 1..];
      var l := locs[j];
      if Passes(l.score, threshold, higherIsBetter) {
        var x := Restore(l.x, resizeFactor);
        var y := Restore(l.y, resizeFactor);
        w := Restore(w, resizeFactor);
        h := Restore(h, resizeFactor);
        found := found + [Match(x, y, w, h, l.score, scale, Box(x, y, x + w, y + h))];
      }
      j := j + 1;
    }
    assert found + [] == found;
  }

  /** Taking the first location off the front of `ScaleMatches`. */
  lemma {:induction false} ScaleMatchesCons(l: Location, rest: seq<Location>, scaledW: int, scaledH: int, scale: real,
                                            resizeFactor: real, threshold: real, higherIsBetter: bool)
    requires resizeFactor > 0.0
    ensures ScaleMatches([l] + rest, scaledW, scaledH, scale, resizeFactor, threshold, higherIsBetter) ==
            (if Passes(l.score, threshold, higherIsBetter) then [MatchAt(l, scaledW, scaledH, scale, resizeFactor)] else []) +
            ScaleMatches(rest, scaledW, scaledH, scale, resizeFactor, threshold, higherIsBetter)
    decreases |rest|
  {
    if rest != [] {
      var init := rest[..|rest| - 1];
      assert ([l] + rest)[..|rest|] == [l] + init;
      ScaleMatchesCons(l, init, scaledW, scaledH, scale, resizeFactor, threshold, higherIsBetter);
    } else {
      assert ([l] + rest)[..0] == [];
    }
  }

  /** Without down-scaling the loop as written and the corrected one report
      the same matches: the compounding needs a resize factor below 1. */
  lemma {:induction false} AsWrittenAgreesWithoutResize(locs: seq<Location>, scaledW: int, scaledH: int, scale: real,
                                                        resizeFactor: real, threshold: real, higherIsBetter: bool)
    requires resizeFactor >= 1.0
    ensures ScaleMatchesAsWritten(locs, scaledW, scaledH, scale, resizeFactor, threshold, higherIsBetter) ==
            ScaleMatches(locs, scaledW, scaledH, scale, resizeFactor, threshold, higherIsBetter)
    decreases |locs|
  {
    if locs != [] {
      assert locs == [locs[0]] + locs[1..];
      ScaleMatchesCons(locs[0], locs[1..], scaledW, scaledH, scale, resizeFactor, threshold, higherIsBetter);
      AsWrittenAgreesWithoutResize(locs[1..], scaledW, scaledH, scale, resizeFactor, threshold, higherIsBetter);
    }
  }

  /** The scale loop of `match_template_multiscale` with its two timeout
      checks; the partial list is returned on a timeout. */
  method MatchMultiscale(scales: seq<real>, runs: seq<ScaleRun>, tw: int, th: int, imageW: int, imageH: int,
                         threshold: real, higherIsBetter: bool, resizeFactor: real, timeout: real)
    returns (allMatches: seq<Match>, isTimeout: bool)
    requires |runs| == |scales| && resizeFactor > 0.0
    ensures var r := RunScales(scales, runs, 0, tw, th, imageW, imageH, threshold, higherIsBetter, resizeFactor, timeout);
            allMatches == r.0 && isTimeout == r.1
  {
    allMatches := [];
    isTimeout := false;
    ghost var whole := RunScales(scales, runs, 0, tw, th, imageW, imageH, threshold, higherIsBetter, resizeFactor, timeout);
    var i := 0;
    while i < |scales|
      invariant 0 <= i <= |scales|
      invariant whole.0 == allMatches + RunScales(scales, runs, i, tw, th, imageW, imageH, threshold, higherIsBetter, resizeFactor, timeout).0
      invariant whole.1 == RunScales(scales, runs, i, tw, th, imageW, imageH, threshold, higherIsBetter, resizeFactor, timeout).1
      invariant !isTimeout
    {
      RunScalesUnfold(scales, runs, i, tw, th, imageW, imageH, threshold, higherIsBetter, resizeFactor, timeout);
      var run := runs[i];
      if run.elapsedBefore > timeout {
        isTimeout := true;
        return;
      }
      var scaledW := Trunc(tw as real * scales[i]);
      var scaledH := Trunc(th as real * scales[i]);
      if scaledW < 3 || scaledH < 3 {
        i := i + 1;
        continue;
      }
      if scaledW > imageW || scaledH > imageH {
        i := i + 1;
        continue;
      }
      if run.failed {
        i := i + 1;
        continue;
      }
      if run.elapsedAfter > timeout {
        isTimeout := true;
        return;
      }
      var found := CollectScale(run.locations, scaledW, scaledH, scales[i], resizeFactor, threshold, higherIsBetter);
      allMatches := allMatches + found;
      i := i + 1;
    }
    assert RunScales(scales, runs, i, tw, th, imageW, imageH, threshold, higherIsBetter, resizeFactor, timeout) == ([], false);
    assert allMatches + [] == allMatches;
  }

  /** The score NMS and sorting use: negated for lower-is-better methods. */
  function Key(m: Match, higherIsBetter: bool): real
  {
    if higherIsBetter then m.score else -m.score
  }

  function Keys(ms: seq<Match>, higherIsBetter: bool): (r: seq<real>)
    ensures |r| == |ms| && forall k :: 0 <= k < |ms| ==> r[k] == Key(ms[k], higherIsBetter)
  {
    seq(|ms|, k requires 0 <= k < |ms| => Key(ms[k], higherIsBetter))
  }

  function MatchBoxes(ms: seq<Match>): (r: seq<Box>)
    ensures |r| == |ms| && forall k :: 0 <= k < |ms| ==> r[k] == ms[k].box
  {
    seq(|ms|, k requires 0 <= k < |ms| => ms[k].box)
  }

  /** Index of the first match of best key, as `max` and `min` pick it. */
  function FirstBest(ms: seq<Match>, higherIsBetter: bool): (b: nat)
    requires ms != []
    ensures b < |ms|
  {
    if |ms| == 1 then 0
    else
      var b := FirstBest(ms[..|ms| - 1], higherIsBetter);
      if Key(ms[|ms| - 1], higherIsBetter) > Key(ms[b], higherIsBetter) then |ms| - 1 else b
  }

  lemma {:induction false} FirstBestSpec(ms: seq<Match>, higherIsBetter: bool)
    requires ms != []
    ensures var b := FirstBest(ms, higherIsBetter);
            (forall k :: 0 <= k < |ms| ==> Key(ms[k], higherIsBetter) <= Key(ms[b], higherIsBetter)) &&
            (forall k :: 0 <= k < b ==> Key(ms[k], higherIsBetter) < Key(ms[b], higherIsBetter))
  {
    if |ms| > 1 {
      FirstBestSpec(ms[..|ms| - 1], higherIsBetter);
    }
  }

  /** Python's stable `sorted` by score, best first. */
  function SortByKey(s: seq<Match>, higherIsBetter: bool): (r: seq<Match>)
    ensures |r| == |s|
  {
    SortDesc(s, (m: Match) => Key(m, higherIsBetter))
  }

  ghost predicate SortedByKey(s: seq<Match>, higherIsBetter: bool)
  {
    forall a, b :: 0 <= a < b < |s| ==> Key(s[a], higherIsBetter) >= Key(s[b], higherIsBetter)
  }

  /** Python's `s[:n]`; a negative `n` counts from the end. */
  function SliceTo<T>(s: seq<T>, n: int): (r: seq<T>)
    ensures n >= 0 ==> |r| == Min(n, |s|)
  {
    if n >= 0 then s[..Min(n, |s|)]
    else s[..Max(0, |s| + n)]
  }

  /** The sort orders by key, best first, and keeps every match. */
  lemma SortByKeySpec(ms: seq<Match>, higherIsBetter: bool)
    ensures SortedByKey(SortByKey(ms, higherIsBetter), higherIsBetter)
    ensures multiset(SortByKey(ms, higherIsBetter)) == multiset(ms)
  {
    SortDescSpec(ms, (m: Match) => Key(m, higherIsBetter));
  }

  /** Result method 2 with a non-negative count keeps min(n, |ms|)
      matches, best first ... */
  lemma TopNSorted(ms: seq<Match>, higherIsBetter: bool, n: int)
    requires n >= 0
    ensures |SliceTo(SortByKey(ms, higherIsBetter), n)| == Min(n, |ms|)
    ensures SortedByKey(SliceTo(SortByKey(ms, higherIsBetter), n), higherIsBetter)
  {
    SortByKeySpec(ms, higherIsBetter);
  }

  /** ... each one of the input ... */
  lemma TopNFromInput(ms: seq<Match>, higherIsBetter: bool, n: int)
    requires n >= 0
    ensures multiset(SliceTo(SortByKey(ms, higherIsBetter), n)) <= multiset(ms)
  {
    var sorted := SortByKey(ms, higherIsBetter);
    SortByKeySpec(ms, higherIsBetter);
    var r := SliceTo(sorted, n);
    assert sorted == r + sorted[|r|..];
    assert multiset(sorted) == multiset(r) + multiset(sorted[|r|..]);
  }

  /** ... and leaves out none that beats a kept one. */
  lemma TopNBest(ms: seq<Match>, higherIsBetter: bool, n: int)
    requires n >= 0
    ensures forall a, b :: 0 <= a < Min(n, |ms|) <= b < |ms| ==>
              Key(SortByKey(ms, higherIsBetter)[a], higherIsBetter) >= Key(SortByKey(ms, higherIsBetter)[b], higherIsBetter)
  {
    SortByKeySpec(ms, higherIsBetter);
  }

  /** The matches at the kept indices, in the order of the indices. */
  function Picked(matches: seq<Match>, keep: seq<nat>): (r: seq<Match>)
    requires InRange(keep, |matches|)
    ensures |r| == |keep| && forall k :: 0 <= k < |keep| ==> r[k] == matches[keep[k]]
  {
    seq(|keep|, j requires 0 <= j < |keep| => matches[keep[j]])
  }

  /** Result method 0: the matches `nms_boxes` keeps, in its order. */
  method SelectByNms(matches: seq<Match>, higherIsBetter: bool, nmsThreshold: real, argsort: seq<nat>)
    returns (filtered: seq<Match>, ghost keep: seq<nat>)
    requires IsArgsort(argsort, Keys(matches, higherIsBetter))
    ensures keep == GreedyFront(MatchBoxes(matches), Reverse(argsort), nmsThreshold)
    ensures NmsResult(MatchBoxes(matches), Keys(matches, higherIsBetter), nmsThreshold, keep)
    ensures |filtered| == |keep| && forall k :: 0 <= k < |keep| ==> filtered[k] == matches[keep[k]]
  {
    var k := NmsBoxes(MatchBoxes(matches), Keys(matches, higherIsBetter), nmsThreshold, argsort);
    keep := k;
    filtered := Picked(matches, k);
  }

  /** The result-method branch: 0 suppresses (with negated scores for
      lower-is-better methods), 1 keeps the single best, 2 the best `topN`,
      anything else all matches. `argsort` is numpy's ascending argsort of
      the keys; `keep` is the suppression's choice when method 0 runs. */
  method SelectResults(matches: seq<Match>, resultMethod: int, higherIsBetter: bool, topN: int,
                       nmsThreshold: real, argsort: seq<nat>) returns (filtered: seq<Match>, ghost keep: seq<nat>)
    requires IsArgsort(argsort, Keys(matches, higherIsBetter))
    ensures resultMethod == 0 ==>
              keep == GreedyFront(MatchBoxes(matches), Reverse(argsort), nmsThreshold) &&
              NmsResult(MatchBoxes(matches), Keys(matches, higherIsBetter), nmsThreshold, keep) &&
              |filtered| == |keep| && forall k :: 0 <= k < |keep| ==> filtered[k] == matches[keep[k]]
    ensures resultMethod == 1 && matches == [] ==> filtered == []
    ensures resultMethod == 1 && matches != [] ==> filtered == [matches[FirstBest(matches, higherIsBetter)]]
    ensures resultMethod == 2 ==> filtered == SliceTo(SortByKey(matches, higherIsBetter), topN)
    ensures resultMethod !in {0, 1, 2} ==> filtered == matches
  {
    keep := [];
    if resultMethod == 0 {
      filtered, keep := SelectByNms(matches, higherIsBetter, nmsThreshold, argsort);
    } else if resultMethod == 1 {
      if |matches| == 0 {
        filtered := [];
        return;
      }
      filtered := [matches[FirstBest(matches, higherIsBetter)]];
    } else if resultMethod == 2 {
      filtered := SliceTo(SortByKey(matches, higherIsBetter), topN);
    } else {
      filtered := matches;
    }
  }
}
