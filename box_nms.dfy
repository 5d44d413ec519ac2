/** Greedy non-maximum suppression over boxes with inclusive pixel corners,
    as both template-matching tools write it: a box is suppressed by a kept
    one when their intersection covers more than `thresh` of the suppressed
    box's own area (intersection over the other box, not over the union). */
module BoxNms {
  import opened GoInt

  /** Corners (x1, y1) and (x2, y2), both inclusive. */
  datatype Box = Box(x1: int, y1: int, x2: int, y2: int)

  predicate WellFormed(b: Box)
  {
    b.x1 <= b.x2 && b.y1 <= b.y2
  }

  /** Pixel count with the +1 inclusive sizes. */
  function Area(b: Box): (a: int)
    ensures WellFormed(b) ==> a >= 1
  {
    (b.x2 - b.x1 + 1) * (b.y2 - b.y1 + 1)
  }

  /** Pixel count of the intersection, 0 when disjoint. */
  function Inter(a: Box, b: Box): (r: int)
    ensures r >= 0
  {
    Max(0, Min(a.x2, b.x2) - Max(a.x1, b.x1) + 1) * Max(0, Min(a.y2, b.y2) - Max(a.y1, b.y1) + 1)
  }

  /** Kept box `k` suppresses box `b` when the overlap ratio, measured
      against `b`'s area, exceeds the threshold. */
  predicate Suppresses(k: Box, b: Box, thresh: real)
  {
    Area(b) != 0 && (Inter(k, b) as real) / (Area(b) as real) > thresh
  }

  lemma InterSymmetric(a: Box, b: Box)
    ensures Inter(a, b) == Inter(b, a)
  {
  }

  /** Intersection never exceeds either box. */
  lemma InterBounded(a: Box, b: Box)
    requires WellFormed(a) && WellFormed(b)
    ensures Inter(a, b) <= Area(b)
  {
    var w := Max(0, Min(a.x2, b.x2) - Max(a.x1, b.x1) + 1);
    var h := Max(0, Min(a.y2, b.y2) - Max(a.y1, b.y1) + 1);
    assert 0 <= w <= b.x2 - b.x1 + 1 && 0 <= h <= b.y2 - b.y1 + 1;
    MulMonotone(w, b.x2 - b.x1 + 1, h, b.y2 - b.y1 + 1);
  }

  lemma MulMonotone(a: int, b: int, c: int, d: int)
    requires 0 <= a <= b && 0 <= c <= d
    ensures a * c <= b * d
  {
    assert a * c <= b * c;
    assert b * c <= b * d;
  }

  /** A box never suppresses a box with which it shares no pixel. */
  lemma DisjointNeverSuppresses(k: Box, b: Box, thresh: real)
    requires WellFormed(b) && thresh >= 0.0 && Inter(k, b) == 0
    ensures !Suppresses(k, b, thresh)
  {
  }

  /** The ratio is not symmetric: a 1x1 box inside a 10x10 box is
      suppressed by it at threshold 0.5, but does not suppress it. */
  lemma SuppressionNotSymmetric()
    ensures Suppresses(Box(0, 0, 9, 9), Box(0, 0, 0, 0), 0.5)
    ensures !Suppresses(Box(0, 0, 0, 0), Box(0, 0, 9, 9), 0.5)
  {
    assert Inter(Box(0, 0, 9, 9), Box(0, 0, 0, 0)) == 1;
    assert Area(Box(0, 0, 9, 9)) == 100;
  }

  ghost predicate Distinct(s: seq<nat>)
  {
    forall a, b :: 0 <= a < b < |s| ==> s[a] != s[b]
  }

  ghost predicate AllWellFormed(boxes: seq<Box>)
  {
    forall k :: 0 <= k < |boxes| ==> WellFormed(boxes[k])
  }

  /** The indices of `rest` that survive a round in which box `i` is kept,
      in their original order. */
  function Survivors(boxes: seq<Box>, i: nat, rest: seq<nat>, thresh: real): (r: seq<nat>)
    requires i < |boxes|
    requires forall k :: 0 <= k < |rest| ==> rest[k] < |boxes|
    ensures |r| <= |rest|
    ensures forall k :: 0 <= k < |r| ==> r[k] < |boxes|
  {
    if rest == [] then []
    else
      var last := rest[|rest| - 1];
      Survivors(boxes, i, rest[..|rest| - 1], thresh) +
      (if Suppresses(boxes[i], boxes[last], thresh) then [] else [last])
  }

  lemma {:induction false} SurvivorsSpec(boxes: seq<Box>, i: nat, rest: seq<nat>, thresh: real)
    requires i < |boxes|
    requires forall k :: 0 <= k < |rest| ==> rest[k] < |boxes|
    ensures forall x :: x in Survivors(boxes, i, rest, thresh) <==>
              x in rest && !Suppresses(boxes[i], boxes[x], thresh)
    ensures Distinct(rest) ==> Distinct(Survivors(boxes, i, rest, thresh))
  {
    if rest != [] {
      var init := rest[..|rest| - 1];
      SurvivorsSpec(boxes, i, init, thresh);
      assert rest == init + [rest[|rest| - 1]];
    }
  }

  ghost predicate InRange(s: seq<nat>, n: nat)
  {
    forall k :: 0 <= k < |s| ==> s[k] < n
  }

  ghost predicate Ascending(scores: seq<real>, s: seq<nat>)
    requires InRange(s, |scores|)
  {
    forall a, b :: 0 <= a < b < |s| ==> scores[s[a]] <= scores[s[b]]
  }

  ghost predicate Descending(scores: seq<real>, s: seq<nat>)
    requires InRange(s, |scores|)
  {
    forall a, b :: 0 <= a < b < |s| ==> scores[s[a]] >= scores[s[b]]
  }

  lemma {:induction false} SurvivorsInRange(boxes: seq<Box>, i: nat, rest: seq<nat>, thresh: real)
    requires i < |boxes| && InRange(rest, |boxes|)
    ensures InRange(Survivors(boxes, i, rest, thresh), |boxes|)
  {
    if rest != [] {
      SurvivorsInRange(boxes, i, rest[..|rest| - 1], thresh);
    }
  }

  lemma {:induction false} SurvivorsAscending(boxes: seq<Box>, scores: seq<real>, i: nat, rest: seq<nat>, thresh: real)
    requires i < |boxes| == |scores| && InRange(rest, |boxes|)
    requires Ascending(scores, rest)
    ensures InRange(Survivors(boxes, i, rest, thresh), |boxes|)
    ensures Ascending(scores, Survivors(boxes, i, rest, thresh))
  {
    SurvivorsInRange(boxes, i, rest, thresh);
    if rest != [] {
      var init := rest[..|rest| - 1];
      var last := rest[|rest| - 1];
      SurvivorsAscending(boxes, scores, i, init, thresh);
      SurvivorsSpec(boxes, i, init, thresh);
      var r0 := Survivors(boxes, i, init, thresh);
      if !Suppresses(boxes[i], boxes[last], thresh) {
        forall a | 0 <= a < |r0| ensures scores[r0[a]] <= scores[last] {
          assert r0[a] in init;
          var p :| 0 <= p < |init| && init[p] == r0[a];
        }
      }
    }
  }

  lemma {:induction false} SurvivorsDescending(boxes: seq<Box>, scores: seq<real>, i: nat, rest: seq<nat>, thresh: real)
    requires i < |boxes| == |scores| && InRange(rest, |boxes|)
    requires Descending(scores, rest)
    ensures InRange(Survivors(boxes, i, rest, thresh), |boxes|)
    ensures Descending(scores, Survivors(boxes, i, rest, thresh))
  {
    SurvivorsInRange(boxes, i, rest, thresh);
    if rest != [] {
      var init := rest[..|rest| - 1];
      var last := rest[|rest| - 1];
      SurvivorsDescending(boxes, scores, i, init, thresh);
      SurvivorsSpec(boxes, i, init, thresh);
      var r0 := Survivors(boxes, i, init, thresh);
      if !Suppresses(boxes[i], boxes[last], thresh) {
        forall a | 0 <= a < |r0| ensures scores[r0[a]] >= scores[last] {
          assert r0[a] in init;
          var p :| 0 <= p < |init| && init[p] == r0[a];
        }
      }
    }
  }

  /** `order` is what argsort returns for `scores`: every index once, by
      non-decreasing score. */
  ghost predicate IsArgsort(order: seq<nat>, scores: seq<real>)
  {
    |order| == |scores| && InRange(order, |scores|) && Distinct(order) &&
    (forall x :: 0 <= x < |scores| ==> x in order) && Ascending(scores, order)
  }

  function Reverse(s: seq<nat>): (r: seq<nat>)
    ensures |r| == |s| && forall k :: 0 <= k < |s| ==> r[k] == s[|s| - 1 - k]
  {
    seq(|s|, k requires 0 <= k < |s| => s[|s| - 1 - k])
  }

  /** An argsort read backwards (`[::-1]`) holds the same indices by
      non-increasing score. */
  lemma ReversedArgsort(order: seq<nat>, scores: seq<real>)
    requires IsArgsort(order, scores)
    ensures var r := Reverse(order);
            |r| == |scores| && InRange(r, |scores|) && Distinct(r) &&
            (forall x :: 0 <= x < |scores| ==> x in r) && Descending(scores, r)
  {
    var r := Reverse(order);
    forall x | 0 <= x < |scores| ensures x in r {
      assert x in order;
      var k :| 0 <= k < |order| && order[k] == x;
      assert r[|order| - 1 - k] == x;
    }
  }

  /** What greedy suppression has established after some rounds: `keep`
      holds the kept indices, `remaining` the undecided ones, and every
      other index was suppressed by a kept box scoring at least as high. */
  ghost predicate Progress(boxes: seq<Box>, scores: seq<real>, thresh: real, keep: seq<nat>, remaining: seq<nat>)
  {
    Shape(boxes, scores, keep, remaining) &&
    KeptApart(boxes, scores, thresh, keep) &&
    KeptDominate(boxes, scores, thresh, keep, remaining) &&
    FirstIsMax(scores, keep) &&
    Covered(boxes, scores, thresh, keep, remaining)
  }

  ghost predicate Shape(boxes: seq<Box>, scores: seq<real>, keep: seq<nat>, remaining: seq<nat>)
  {
    |boxes| == |scores| && InRange(keep, |boxes|) && InRange(remaining, |boxes|) &&
    Distinct(keep) && Distinct(remaining) && (forall x :: x in keep ==> x !in remaining)
  }

  /** No kept box suppresses a later kept one, and scores never rise. */
  ghost predicate KeptApart(boxes: seq<Box>, scores: seq<real>, thresh: real, keep: seq<nat>)
    requires |boxes| == |scores| && InRange(keep, |boxes|)
  {
    forall a, b :: 0 <= a < b < |keep| ==>
      !Suppresses(boxes[keep[a]], boxes[keep[b]], thresh) && scores[keep[b]] <= scores[keep[a]]
  }

  ghost predicate KeptDominate(boxes: seq<Box>, scores: seq<real>, thresh: real, keep: seq<nat>, remaining: seq<nat>)
    requires |boxes| == |scores| && InRange(keep, |boxes|) && InRange(remaining, |boxes|)
  {
    forall a, x :: 0 <= a < |keep| && x in remaining ==>
      !Suppresses(boxes[keep[a]], boxes[x], thresh) && scores[x] <= scores[keep[a]]
  }

  ghost predicate FirstIsMax(scores: seq<real>, keep: seq<nat>)
    requires InRange(keep, |scores|)
  {
    |keep| > 0 ==> forall x :: 0 <= x < |scores| ==> scores[x] <= scores[keep[0]]
  }

  /** Every index is kept, undecided, or suppressed by a kept box whose
      score is at least its own. */
  ghost predicate Covered(boxes: seq<Box>, scores: seq<real>, thresh: real, keep: seq<nat>, remaining: seq<nat>)
    requires |boxes| == |scores| && InRange(keep, |boxes|)
  {
    forall x :: 0 <= x < |boxes| ==>
      x in keep || x in remaining ||
      exists a :: 0 <= a < |keep| && Suppresses(boxes[keep[a]], boxes[x], thresh) && scores[x] <= scores[keep[a]]
  }

  /** The properties of a finished suppression. */
  ghost predicate NmsResult(boxes: seq<Box>, scores: seq<real>, thresh: real, keep: seq<nat>)
  {
    Progress(boxes, scores, thresh, keep, []) && (|boxes| > 0 <==> keep != [])
  }

  /** The first round starts from an argsort of the scores: every index
      exactly once. */
  lemma Start(boxes: seq<Box>, scores: seq<real>, thresh: real, order: seq<nat>)
    requires |boxes| == |scores| == |order|
    requires forall k :: 0 <= k < |order| ==> order[k] < |boxes|
    requires forall x :: 0 <= x < |boxes| ==> x in order
    requires Distinct(order)
    ensures Progress(boxes, scores, thresh, [], order)
  {
  }

  /** One round: the highest-scoring undecided index `i` is kept and the
      undecided ones it suppresses are dropped. */
  lemma Step(boxes: seq<Box>, scores: seq<real>, thresh: real, keep: seq<nat>, remaining: seq<nat>, i: nat, rest: seq<nat>)
    requires Progress(boxes, scores, thresh, keep, remaining)
    requires i in remaining
    requires forall x :: x in remaining ==> scores[x] <= scores[i]
    requires forall x :: x in remaining <==> x == i || x in rest
    requires i !in rest && Distinct(rest)
    requires InRange(rest, |boxes|)
    ensures Progress(boxes, scores, thresh, keep + [i], Survivors(boxes, i, rest, thresh))
  {
    SurvivorsSpec(boxes, i, rest, thresh);
    SurvivorsInRange(boxes, i, rest, thresh);
    var keep' := keep + [i];
    var rem' := Survivors(boxes, i, rest, thresh);
    assert Shape(boxes, scores, keep', rem');
    StepApart(boxes, scores, thresh, keep, remaining, i);
    assert KeptDominate(boxes, scores, thresh, keep', rem');
    StepFirstMax(boxes, scores, thresh, keep, remaining, i);
    StepCovered(boxes, scores, thresh, keep, remaining, i, rest);
  }

  lemma StepApart(boxes: seq<Box>, scores: seq<real>, thresh: real, keep: seq<nat>, remaining: seq<nat>, i: nat)
    requires Shape(boxes, scores, keep, remaining)
    requires KeptApart(boxes, scores, thresh, keep) && KeptDominate(boxes, scores, thresh, keep, remaining)
    requires i in remaining
    ensures InRange(keep + [i], |boxes|) && KeptApart(boxes, scores, thresh, keep + [i])
  {
    var keep' := keep + [i];
    forall a, b | 0 <= a < b < |keep'|
      ensures !Suppresses(boxes[keep'[a]], boxes[keep'[b]], thresh) && scores[keep'[b]] <= scores[keep'[a]]
    {
      if b == |keep| {
        assert keep'[a] == keep[a];
      }
    }
  }

  lemma StepFirstMax(boxes: seq<Box>, scores: seq<real>, thresh: real, keep: seq<nat>, remaining: seq<nat>, i: nat)
    requires Shape(boxes, scores, keep, remaining)
    requires FirstIsMax(scores, keep) && Covered(boxes, scores, thresh, keep, remaining)
    requires i in remaining && i < |boxes|
    requires forall x :: x in remaining ==> scores[x] <= scores[i]
    ensures InRange(keep + [i], |scores|) && FirstIsMax(scores, keep + [i])
  {
    if |keep| == 0 {
      forall x | 0 <= x < |scores| ensures scores[x] <= scores[(keep + [i])[0]] {
        assert x in remaining;
      }
    }
  }

  lemma StepCovered(boxes: seq<Box>, scores: seq<real>, thresh: real, keep: seq<nat>, remaining: seq<nat>, i: nat, rest: seq<nat>)
    requires Shape(boxes, scores, keep, remaining) && Covered(boxes, scores, thresh, keep, remaining)
    requires i in remaining && i < |boxes|
    requires forall x :: x in remaining ==> scores[x] <= scores[i]
    requires forall x :: x in remaining <==> x == i || x in rest
    requires InRange(rest, |boxes|)
    ensures InRange(keep + [i], |boxes|)
    ensures Covered(boxes, scores, thresh, keep + [i], Survivors(boxes, i, rest, thresh))
  {
    SurvivorsSpec(boxes, i, rest, thresh);
    var keep' := keep + [i];
    var rem' := Survivors(boxes, i, rest, thresh);
    forall x | 0 <= x < |boxes|
      ensures x in keep' || x in rem' ||
              exists a :: 0 <= a < |keep'| && Suppresses(boxes[keep'[a]], boxes[x], thresh) && scores[x] <= scores[keep'[a]]
    {
      if x in remaining && x != i && x !in rem' {
        assert keep'[|keep|] == i;
      } else if x !in keep && x !in remaining {
        var a :| 0 <= a < |keep| && Suppresses(boxes[keep[a]], boxes[x], thresh) && scores[x] <= scores[keep[a]];
        assert keep'[a] == keep[a];
      }
    }
  }

  /** A round of the ascending variant: the last undecided index is kept. */
  lemma StepLast(boxes: seq<Box>, scores: seq<real>, thresh: real, keep: seq<nat>, remaining: seq<nat>)
    requires Progress(boxes, scores, thresh, keep, remaining) && Ascending(scores, remaining)
    requires remaining != []
    ensures var i := remaining[|remaining| - 1];
            var next := Survivors(boxes, i, remaining[..|remaining| - 1], thresh);
            Progress(boxes, scores, thresh, keep + [i], next) && Ascending(scores, next)
  {
    var i := remaining[|remaining| - 1];
    var rest := remaining[..|remaining| - 1];
    BackFacts(scores, remaining);
    Step(boxes, scores, thresh, keep, remaining, i, rest);
    SurvivorsAscending(boxes, scores, i, rest, thresh);
  }

  /** The last index of an ascending undecided list has the top score, and
      the others form an ascending list of distinct indices without it. */
  lemma BackFacts(scores: seq<real>, remaining: seq<nat>)
    requires remaining != [] && InRange(remaining, |scores|) && Distinct(remaining)
    requires Ascending(scores, remaining)
    ensures remaining[|remaining| - 1] in remaining
    ensures forall x :: x in remaining ==> scores[x] <= scores[remaining[|remaining| - 1]]
    ensures forall x :: x in remaining <==> x == remaining[|remaining| - 1] || x in remaining[..|remaining| - 1]
    ensures remaining[|remaining| - 1] !in remaining[..|remaining| - 1]
    ensures Distinct(remaining[..|remaining| - 1]) && InRange(remaining[..|remaining| - 1], |scores|)
    ensures Ascending(scores, remaining[..|remaining| - 1])
  {
    var n := |remaining| - 1;
    assert remaining == remaining[..n] + [remaining[n]];
    forall x | x in remaining ensures scores[x] <= scores[remaining[n]] {
      var p :| 0 <= p < |remaining| && remaining[p] == x;
    }
  }

  /** A round of the descending variant: the first undecided index is kept. */
  lemma StepFirst(boxes: seq<Box>, scores: seq<real>, thresh: real, keep: seq<nat>, remaining: seq<nat>)
    requires Progress(boxes, scores, thresh, keep, remaining) && Descending(scores, remaining)
    requires remaining != []
    ensures var i := remaining[0];
            var next := Survivors(boxes, i, remaining[1..], thresh);
            Progress(boxes, scores, thresh, keep + [i], next) && Descending(scores, next)
  {
    var i := remaining[0];
    var rest := remaining[1..];
    FrontFacts(scores, remaining);
    Step(boxes, scores, thresh, keep, remaining, i, rest);
    SurvivorsDescending(boxes, scores, i, rest, thresh);
  }

  /** The first index of a descending undecided list has the top score, and
      the others form a descending list of distinct indices without it. */
  lemma FrontFacts(scores: seq<real>, remaining: seq<nat>)
    requires remaining != [] && InRange(remaining, |scores|) && Distinct(remaining)
    requires Descending(scores, remaining)
    ensures remaining[0] in remaining
    ensures forall x :: x in remaining ==> scores[x] <= scores[remaining[0]]
    ensures forall x :: x in remaining <==> x == remaining[0] || x in remaining[1..]
    ensures remaining[0] !in remaining[1..]
    ensures Distinct(remaining[1..]) && InRange(remaining[1..], |scores|)
    ensures Descending(scores, remaining[1..])
  {
    assert remaining == [remaining[0]] + remaining[1..];
    forall x | x in remaining ensures scores[x] <= scores[remaining[0]] {
      var p :| 0 <= p < |remaining| && remaining[p] == x;
    }
  }

  /** When nothing is undecided, something was kept iff there were boxes. */
  lemma Finish(boxes: seq<Box>, scores: seq<real>, thresh: real, keep: seq<nat>)
    requires Progress(boxes, scores, thresh, keep, [])
    ensures NmsResult(boxes, scores, thresh, keep)
  {
    if |boxes| > 0 {
      assert 0 in keep || 0 in [] ||
             exists a :: 0 <= a < |keep| && Suppresses(boxes[keep[a]], boxes[0], thresh) && scores[0] <= scores[keep[a]];
    }
    if keep != [] {
      assert keep[0] < |boxes|;
    }
  }

  /** Greedy suppression reading `order` from the front: keep the first
      index, drop the later ones it suppresses, and go on with the rest. */
  function GreedyFront(boxes: seq<Box>, order: seq<nat>, thresh: real): (keep: seq<nat>)
    requires InRange(order, |boxes|)
    ensures |keep| <= |order| && InRange(keep, |boxes|)
    decreases |order|
  {
    if order == [] then []
    else [order[0]] + GreedyFront(boxes, Survivors(boxes, order[0], order[1..], thresh), thresh)
  }

  /** Greedy suppression reading `indices` from the back: keep the last
      index, drop the earlier ones it suppresses, and go on with the rest. */
  function GreedyBack(boxes: seq<Box>, indices: seq<nat>, thresh: real): (keep: seq<nat>)
    requires InRange(indices, |boxes|)
    ensures |keep| <= |indices| && InRange(keep, |boxes|)
    decreases |indices|
  {
    if indices == [] then []
    else
      var i := indices[|indices| - 1];
      [i] + GreedyBack(boxes, Survivors(boxes, i, indices[..|indices| - 1], thresh), thresh)
  }

  /** One front-first round appended to the kept list leaves the list the
      greedy rounds end with unchanged. */
  lemma GreedyFrontRound(boxes: seq<Box>, thresh: real, keep: seq<nat>, order: seq<nat>)
    requires InRange(order, |boxes|) && order != []
    ensures keep + [order[0]] + GreedyFront(boxes, Survivors(boxes, order[0], order[1..], thresh), thresh) ==
            keep + GreedyFront(boxes, order, thresh)
  {
  }

  /** One back-first round appended to the kept list leaves the list the
      greedy rounds end with unchanged. */
  lemma GreedyBackRound(boxes: seq<Box>, thresh: real, keep: seq<nat>, indices: seq<nat>)
    requires InRange(indices, |boxes|) && indices != []
    ensures var i := indices[|indices| - 1];
            keep + [i] + GreedyBack(boxes, Survivors(boxes, i, indices[..|indices| - 1], thresh), thresh) ==
            keep + GreedyBack(boxes, indices, thresh)
  {
  }

  /** The front-first greedy rounds finish what `Progress` has started. */
  lemma {:induction false} GreedyFrontProgress(boxes: seq<Box>, scores: seq<real>, thresh: real, keep: seq<nat>, order: seq<nat>)
    requires Progress(boxes, scores, thresh, keep, order) && Descending(scores, order)
    ensures Progress(boxes, scores, thresh, keep + GreedyFront(boxes, order, thresh), [])
    decreases |order|
  {
    if order == [] {
      assert keep + GreedyFront(boxes, order, thresh) == keep;
    } else {
      var i := order[0];
      StepFirst(boxes, scores, thresh, keep, order);
      GreedyFrontProgress(boxes, scores, thresh, keep + [i], Survivors(boxes, i, order[1..], thresh));
      GreedyFrontRound(boxes, thresh, keep, order);
    }
  }

  /** The back-first greedy rounds finish what `Progress` has started. */
  lemma {:induction false} GreedyBackProgress(boxes: seq<Box>, scores: seq<real>, thresh: real, keep: seq<nat>, indices: seq<nat>)
    requires Progress(boxes, scores, thresh, keep, indices) && Ascending(scores, indices)
    ensures Progress(boxes, scores, thresh, keep + GreedyBack(boxes, indices, thresh), [])
    decreases |indices|
  {
    if indices == [] {
      assert keep + GreedyBack(boxes, indices, thresh) == keep;
    } else {
      var i := indices[|indices| - 1];
      var next := Survivors(boxes, i, indices[..|indices| - 1], thresh);
      StepLast(boxes, scores, thresh, keep, indices);
      GreedyBackProgress(boxes, scores, thresh, keep + [i], next);
      GreedyBackRound(boxes, thresh, keep, indices);
    }
  }

  /** Greedy suppression of a whole argsort read backwards, as the
      template tool runs it, has every property of a finished
      suppression. */
  lemma GreedyFrontIsNms(boxes: seq<Box>, scores: seq<real>, thresh: real, argsort: seq<nat>)
    requires |boxes| == |scores| && IsArgsort(argsort, scores)
    ensures NmsResult(boxes, scores, thresh, GreedyFront(boxes, Reverse(argsort), thresh))
  {
    ReversedArgsort(argsort, scores);
    Start(boxes, scores, thresh, Reverse(argsort));
    GreedyFrontProgress(boxes, scores, thresh, [], Reverse(argsort));
    assert [] + GreedyFront(boxes, Reverse(argsort), thresh) == GreedyFront(boxes, Reverse(argsort), thresh);
    Finish(boxes, scores, thresh, GreedyFront(boxes, Reverse(argsort), thresh));
  }

  /** Greedy suppression of a whole argsort from its back, as the shape
      tool runs it, has every property of a finished suppression. */
  lemma GreedyBackIsNms(boxes: seq<Box>, scores: seq<real>, thresh: real, argsort: seq<nat>)
    requires |boxes| == |scores| && IsArgsort(argsort, scores)
    ensures NmsResult(boxes, scores, thresh, GreedyBack(boxes, argsort, thresh))
  {
    Start(boxes, scores, thresh, argsort);
    GreedyBackProgress(boxes, scores, thresh, [], argsort);
    assert [] + GreedyBack(boxes, argsort, thresh) == GreedyBack(boxes, argsort, thresh);
    Finish(boxes, scores, thresh, GreedyBack(boxes, argsort, thresh));
  }

  /** Three boxes scored 0.9, 0.8 and 0.7, where the last two coincide and
      the first lies apart. */
  function WitnessBoxes(): seq<Box>
  {
    [Box(100, 100, 100, 100), Box(0, 0, 9, 9), Box(0, 0, 9, 9)]
  }

  /** Greedy suppression of the witness keeps 0 and 1: box 2 lies under
      box 1, which outscores it. */
  lemma GreedyWitness()
    ensures GreedyFront(WitnessBoxes(), [0, 1, 2], 0.5) == [0, 1]
  {
    var boxes := WitnessBoxes();
    assert Inter(boxes[0], boxes[1]) == 0 && Inter(boxes[0], boxes[2]) == 0;
    assert Inter(boxes[1], boxes[2]) == 100 && Area(boxes[2]) == 100;
    assert Survivors(boxes, 0, [1, 2], 0.5) == [1, 2] by {
      assert [1, 2][..1] == [1];
      assert [1][..0] == [];
    }
    assert Survivors(boxes, 1, [2], 0.5) == [] by {
      assert [2][..0] == [];
    }
    assert [0, 1, 2][1..] == [1, 2] && [1, 2][1..] == [2];
  }

  /** Keeping 0 and 2 instead is not a finished suppression: box 1 would
      be dropped by box 2, which scores less. */
  lemma NonGreedyRejected()
    ensures !NmsResult(WitnessBoxes(), [0.9, 0.8, 0.7], 0.5, [0, 2])
  {
    var boxes := WitnessBoxes();
    var scores := [0.9, 0.8, 0.7];
    var keep := [0, 2];
    assert Inter(boxes[0], boxes[1]) == 0;
    assert !exists a :: 0 <= a < |keep| && Suppresses(boxes[keep[a]], boxes[1], 0.5) && scores[1] <= scores[keep[a]];
    assert !Covered(boxes, scores, 0.5, keep, []);
  }

  /** The rounds of the descending variant, each keeping the first
      undecided index, until nothing is undecided. */
  method SuppressFromFront(boxes: seq<Box>, scores: seq<real>, thresh: real, keep0: seq<nat>, order0: seq<nat>)
    returns (keep: seq<nat>)
    requires Progress(boxes, scores, thresh, keep0, order0) && Descending(scores, order0)
    ensures keep == keep0 + GreedyFront(boxes, order0, thresh)
    ensures Progress(boxes, scores, thresh, keep, [])
  {
    keep := keep0;
    var order := order0;
    while |order| > 0
      invariant Progress(boxes, scores, thresh, keep, order)
      invariant Descending(scores, order)
      invariant InRange(order, |boxes|)
      invariant keep + GreedyFront(boxes, order, thresh) == keep0 + GreedyFront(boxes, order0, thresh)
      decreases |order|
    {
      var i := order[0];
      var next := Survivors(boxes, i, order[1..], thresh);
      StepFirst(boxes, scores, thresh, keep, order);
      GreedyFrontRound(boxes, thresh, keep, order);
      keep, order := keep + [i], next;
    }
  }

  /** The rounds of the ascending variant, each keeping the last undecided
      index and deleting the ones it suppresses. */
  method SuppressFromBack(boxes: seq<Box>, scores: seq<real>, thresh: real, keep0: seq<nat>, indices0: seq<nat>)
    returns (keep: seq<nat>)
    requires Progress(boxes, scores, thresh, keep0, indices0) && Ascending(scores, indices0)
    ensures keep == keep0 + GreedyBack(boxes, indices0, thresh)
    ensures Progress(boxes, scores, thresh, keep, [])
  {
    keep := keep0;
    var indices := indices0;
    while |indices| > 0
      invariant Progress(boxes, scores, thresh, keep, indices)
      invariant Ascending(scores, indices)
      invariant InRange(indices, |boxes|)
      invariant keep + GreedyBack(boxes, indices, thresh) == keep0 + GreedyBack(boxes, indices0, thresh)
      decreases |indices|
    {
      var i := indices[|indices| - 1];
      var next := Survivors(boxes, i, indices[..|indices| - 1], thresh);
      StepLast(boxes, scores, thresh, keep, indices);
      GreedyBackRound(boxes, thresh, keep, indices);
      keep, indices := keep + [i], next;
    }
  }
}
