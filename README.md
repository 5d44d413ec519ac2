# A verified model of the Flyff farming bot's core

The bot plays the browser game Flyff Universe. It captures the game page,
finds status bars, mobs, markers and the minimap arrow in the frame, and
drives a stage machine (search, attack, restore, pick up, escape, revive,
reconnect) that presses keys and clicks through injected JavaScript. A
set of Python OpenCV tools explores the same detectors. This project is a
Dafny model of that core, with proofs of what each part promises.

The model follows the code. Each source file becomes one module; where a
file is imperative (an object whose fields change, a loop over a slice)
the module has a `class` with `modifies` clauses or a `method` with loop
invariants proved against a specification function. Where it is pure the
module has functions and lemmas. Outside effects are made explicit:

- OpenCV and numpy results are inputs: contour rectangles, areas, moments,
  masks as pixel predicates, and score matrices.
- The clock is an integer parameter (milliseconds or nanoseconds).
- Random draws are parameters limited to the drawn range.
- Key presses, clicks and coordinator calls are appended to a trace.
- The answer of the wait-context helper of the src2 loop is an input.

Modules, file by file:

- `GoInt`, `Text`, `Clock` (common.dfy, text.dfy, clock.dfy): Go's truncating `/` and `%`, `int()` of a float, 64-bit wrap-around, `%d` formatting, trimming with Go's `unicode.IsSpace` (`strings.TrimSpace`) and with Python's `str.isspace` (`str.strip()`), `time.Time`/`Duration` arithmetic.
- `Sorting`, `Selection`, `History` (sorting.dfy, selection.dfy, history.dfy): the hand-written exchange sorts, splitting sorted points into runs, Python's `sorted`/list filters, the "first strictly better" scans, the bounded logs.
- `ImageRect`, `BarFill`, `BoxNms` (image_rect.dfy, bar_fill.dfy, box_nms.dfy): `image.Rect` and the size filters of the src2 detectors, the fill-width scans, the greedy box suppression of both Python template tools.
- `Data` (data.dfy): data.go.
- `Analyzer` (analyzer.dfy): analyzer.go.
- `SrcAnalyzer` (src_analyzer.dfy): src/analyzer.go (its avoidance list, overlap test and closest-mob choice are the same code as analyzer.go and reuse `Analyzer`).
- `TestShape`, `TestTemplate`, `TestMap`, `TestArrow`, `MapPoints`, `WebView` (test_shape.dfy, test_template.dfy, test_map.dfy, test_arrow.dfy, detect_map_points.dfy, test_webview.dfy): opencv/test_shape.py, opencv/test_template.py, opencv/test_map.py, opencv/test_arrow.py, map/detect_map_points.py, opencv/test_webview.py.
- `Src2Config`, `Detect`, `DebugStatus`, `DebugTarget` (config.dfy, detect.dfy, debug_status.dfy, debug_target.dfy): src2/config.go, src2/detect.go, src2/debug_status.go, src2/debug_target.go.
- `Stats`, `TestMain` (stats.dfy, test_main.dfy): src/stats.go, src/test/main.go.
- `Farming` (farming.dfy): farming.go.
- `FarmStages`, `SrcFarming`, `Src2Farming` (farm_stages.dfy, src_farming.dfy, src2_farming.dfy): the decisions src/farming.go and src2/farming.go share, then each loop.
- `Support`, `Shout`, `Utils` (support.dfy, shout.dfy, utils.dfy): src/support.go, src/shout.go, src/utils.go.
- `Tray`, `Browser`, `Action` (tray.dfy, browser.dfy, action.dfy): tray.go, browser.go, action.go.

## Model

| member | source | states |
|---|---|---|
| Data.Center | data.go:88-93 | the centre of a well-formed rectangle lies inside it |
| Data.BottomCenter | data.go:96-101 | the point on the bottom edge, horizontally at the centre, inside a well-formed rectangle |
| Data.Size | data.go:104-106 | the area is non-negative for a well-formed rectangle and zero when either side is zero |
| Data.Grow | data.go:115-122 | width and height grow by `amount`; the corner moves back by Go's truncated half of it |
| Data.GrowZero | data.go:115-122 | growing by zero leaves the rectangle unchanged |
| Data.GrowKeepsPoints | data.go:115-122 | growing by a non-negative amount keeps every contained point |
| Data.CornersContained | data.go:109-112 | `Contains` is inclusive on all four edges and excludes points just outside |
| Data.AttackCoords | data.go:290-292 | a target is clicked at the bottom centre of its box, which lies inside the box |
| Data.AbsDiff | data.go:314-319 | the unsigned byte difference equals the integer distance |a - b|, with no wrap-around |
| Data.MatchesReflexive | data.go:307-311 | every colour matches itself at any tolerance |
| Data.MatchesSymmetric | data.go:307-311 | colour matching is symmetric |
| Data.MatchesPerChannel | data.go:307-311 | two colours match exactly when each channel differs by at most the tolerance |
| Data.Extrema | data.go:248-272 | the running minima and maxima bound every point and each is attained |
| Data.BoundsOfContainsAll | data.go:248-272 | the bounding box is well formed, holds every point and each edge touches a point |
| Data.BoundsOfBySet | data.go:248-272 | the bounding box depends only on the set of points, not on order or repetition |
| Data.ExtremaStep | data.go:258-270 | one loop step of `pointsToBounds` updates each extremum with the new point |
| Data.PointsToBounds | data.go:248-272 | the loop computes exactly the bounding box of the points |
| Data.TwoPassCluster | data.go:195-245 | the X-sorted copy is a permutation cut into exactly the `Runs` of `nearX`; each run's Y-sorted copy is cut into exactly the `Runs` of `nearY`; those Y runs are the clusters, they partition the points, each box bounds its run, and every point lies in some box |
| Data.BoxesOfOneRun | data.go:214-245 | the Y pass cuts one X run into non-empty pieces that rebuild it in order, with no step inside a piece larger than `distanceY` and every cut a step larger than it |
| Data.ClusterByX | data.go:205-222 | the X pass sorts a copy (a permutation) and cuts it into exactly the runs of `nearX`: maximal, linked inside, broken between |
| Data.AppendClusters | data.go:225-242 | appending the Y runs of one X run keeps every cluster well formed |
| Data.CoverAll | data.go:195-245 | a partition into boxed runs covers every point and has no more clusters than points |
| Data.ClusterByY | data.go:226-242 | the Y pass sorts one X run (a permutation) and cuts it into exactly the runs of `nearY`, each with its bounding box |
| Data.RunIsGood | data.go:232-241 | a run cut from a Y-sorted sequence is non-empty, sorted and linked within `distanceY` |
| Data.SortedCopyByY | data.go:227-230 | the sorted copy is ordered by Y and a permutation of the input |
| Data.RunOfSortedIsSorted | data.go:232-241 | a run of a sorted sequence is sorted |
| Data.SubrunSorted | data.go:232-241 | each piece of a sorted concatenation is sorted |
| Data.PointCloud.constructor | data.go:131-135 | a new cloud is empty |
| Data.PointCloud.Add | data.go:138-142 | the point is appended at the end |
| Data.PointCloud.Len | data.go:145-149 | the count of stored points |
| Data.PointCloud.Clear | data.go:152-156 | the cloud becomes empty |
| Data.PointCloud.ToBounds | data.go:159-191 | the bounding box of the stored points |
| Data.PointCloud.ClusterByDistance | data.go:195-245 | the X runs are maximal runs within `distanceX` of the X-sorted points (`RunsOf`), the clusters are the runs within `distanceY` of each X run sorted by Y, a partition of the points with one bounding box each that covers every point; the cloud is unchanged |
| Analyzer.BoundsOverlapSymmetric | analyzer.go:89-94 | overlap is symmetric |
| Analyzer.EdgeTouchingDoesNotOverlap | analyzer.go:89-94 | the inequalities are strict, so rectangles sharing only an edge do not overlap |
| Analyzer.OverlapWitness | analyzer.go:89-94 | two non-empty rectangles overlap exactly when their open interiors intersect |
| Analyzer.AvoidanceList.constructor | analyzer.go:39-43 | a new list is empty |
| Analyzer.AvoidanceList.Add | analyzer.go:46-54 | the area is appended with its creation time and duration |
| Analyzer.AvoidanceList.IsAvoided | analyzer.go:57-71 | true exactly when an area whose age has not passed its duration overlaps the rectangle |
| Analyzer.AvoidanceList.CleanExpired | analyzer.go:74-86 | the list keeps, in order, exactly the areas whose age is at most their duration |
| Analyzer.FilterActiveSpec | analyzer.go:74-86 | cleaning keeps exactly the active areas and never grows the list |
| Analyzer.CleanExpiredKeepsAvoidance | analyzer.go:56-86 | `IsAvoided` and `CleanExpired` use the same boundary: cleaning never changes what is avoided at the same instant |
| Analyzer.ColorMatchesAgreesWithMatches | analyzer.go:393-405 | a pixel matches iff alpha is at least 250 and each channel is within the tolerance |
| Analyzer.ScanPixelsForColors | analyzer.go:361-390 | the result is exactly the matching pixels of the region clipped to the image, outside the HUD corner (x ≤ 250 and y ≤ 110), in row-major order |
| Analyzer.ClusterPoints | analyzer.go:408-467 | empty input gives no boxes; otherwise the points are sorted by X (a permutation) and cut into maximal runs whose neighbours are within `distanceX`; each run is sorted by Y and cut the same way with `distanceY`; the clusters are exactly those Y runs, they partition the points, each box is its cluster's bounding box, and every point lies in a box |
| Analyzer.AbsNearAgrees | analyzer.go:430-456 | on a pair sorted by the coordinate, the absolute-difference test is the plain difference test, so both clusterings cut at the same places |
| Analyzer.AcceptedTargets | analyzer.go:224-237 | the filter never returns more targets than clusters |
| Analyzer.AcceptedTargetsSpec | analyzer.go:224-255 | a target is returned iff its box is an input cluster with MinMobNameWidth < w < MaxMobNameWidth and y ≥ 110, tagged with the list's kind |
| Analyzer.IdentifyMobs | analyzer.go:218-271 | the mobs are the accepted passive clusters followed by the accepted aggressive ones |
| Analyzer.IdentifiedMobsAreFiltered | analyzer.go:218-271 | no identified mob is violet, each passed the exclusive width filter and y ≥ 110, and each comes from its own colour's clusters |
| Analyzer.DistanceSquared | analyzer.go:472-507 | the squared distance to the screen centre is non-negative |
| Analyzer.FindClosestMob | analyzer.go:472-507 | none iff no mob centre is within 325 px; otherwise the first mob attaining the minimum distance |
| SrcAnalyzer.KeptMobBoxes | src/analyzer.go:344-368 | the filter never returns more boxes than contours |
| SrcAnalyzer.KeptMobBoxesSound | src/analyzer.go:344-368 | every kept box has MinMobNameWidth < w < MaxMobNameWidth, lies outside the HUD corner and is an input rectangle moved by the ROI origin |
| SrcAnalyzer.KeptMobBoxesComplete | src/analyzer.go:344-368 | every input rectangle that passes the filter is kept |
| SrcAnalyzer.DetectMobsByHSV | src/analyzer.go:320-369 | nothing when the ROI is not inside the image; otherwise exactly the filtered, translated rectangles in contour order |
| SrcAnalyzer.BelowHud | src/analyzer.go:275-316 | the Y filter never returns more targets than candidates |
| SrcAnalyzer.BelowHudSpec | src/analyzer.go:275-316 | a target is returned iff its box is a candidate of that kind with y ≥ 110 |
| SrcAnalyzer.IdentifyMobs | src/analyzer.go:247-317 | the mobs are the passive candidates below the HUD line followed by the aggressive ones |
| SrcAnalyzer.IdentifiedMobsOrdered | src/analyzer.go:247-317 | no identified mob is violet, all lie below the HUD line, and no aggressive mob precedes a passive one |
| SrcAnalyzer.TargetMarkerEitherColour | src/analyzer.go:372-439 | a marker is reported iff the ROI lies inside the image and the blue or the red mask has more than 20 non-zero pixels |
| SrcAnalyzer.FindMarkerCenterByColor | src/analyzer.go:498-538 | none iff the ROI is outside the image or there is no contour; otherwise the centre of the first contour of largest area, or the ROI origin when no contour has a positive area |
| SrcAnalyzer.FindMarkerCenter | src/analyzer.go:485-495 | the blue marker's centre when there is one, else the red one's; none only when both are missing |
| SrcAnalyzer.FloorSqrt | src/analyzer.go:476-479 | the integer square root: the largest r with r·r ≤ n |
| SrcAnalyzer.DetectTargetDistance | src/analyzer.go:442-482 | the sentinel 9999 without a marker; otherwise the truncated Euclidean distance from the screen centre |
| BoxNms.Area | opencv/test_shape.py:626 | a well-formed box covers at least one pixel with the +1 inclusive sizes |
| BoxNms.Inter | opencv/test_shape.py:635-641 | the intersection's pixel count is never negative (0 when the boxes are disjoint) |
| BoxNms.InterSymmetric | opencv/test_shape.py:635-641 | the intersection does not depend on the order of the boxes |
| BoxNms.InterBounded | opencv/test_shape.py:635-643 | the intersection never exceeds the other box's area, so the overlap ratio is at most 1 |
| BoxNms.DisjointNeverSuppresses | opencv/test_shape.py:643-646 | a kept box never suppresses a box it shares no pixel with |
| BoxNms.SuppressionNotSymmetric | opencv/test_shape.py:643 | the ratio divides by the other box's area and is not IoU: a 10x10 box suppresses a 1x1 box inside it at 0.5, but not the reverse |
| BoxNms.SurvivorsSpec | opencv/test_shape.py:635-646 | after a round exactly the undecided indices that the kept box does not suppress remain, still distinct |
| BoxNms.ReversedArgsort | opencv/test_template.py:80 | an argsort read backwards lists every index once by non-increasing score |
| BoxNms.Step | opencv/test_shape.py:630-646 | one round that keeps a top-scoring undecided index preserves the suppression invariant |
| BoxNms.Finish | opencv/test_shape.py:630-648 | when nothing is undecided the kept list is duplicate-free, its first index has the top score, kept boxes are pairwise not suppressed, every dropped box is suppressed by an earlier kept box scoring at least as high, and something is kept iff there were boxes |
| BoxNms.GreedyFrontRound | opencv/test_template.py:83-101 | appending one front-first round (keep the first index, drop what it suppresses) to the kept list does not change the list the rounds end with |
| BoxNms.GreedyBackRound | opencv/test_shape.py:630-646 | appending one back-first round (keep the last index, drop what it suppresses) to the kept list does not change the list the rounds end with |
| BoxNms.GreedyFrontProgress | opencv/test_template.py:83-101 | from any state of the suppression invariant over a descending order, the greedy front-first rounds reach a finished state |
| BoxNms.GreedyBackProgress | opencv/test_shape.py:630-646 | from any state of the suppression invariant over an ascending order, the greedy back-first rounds reach a finished state |
| BoxNms.GreedyFrontIsNms | opencv/test_template.py:80-103 | the greedy result over an argsort read backwards has every property of a finished suppression |
| BoxNms.GreedyBackIsNms | opencv/test_shape.py:630-648 | the greedy result over an argsort read from its back has every property of a finished suppression |
| BoxNms.GreedyWitness | opencv/test_template.py:83-101 | on three boxes scored 0.9, 0.8 and 0.7, where the last two coincide, greedy suppression at 0.5 keeps boxes 0 and 1 |
| BoxNms.NonGreedyRejected | opencv/test_template.py:83-101 | keeping boxes 0 and 2 of the same witness is not a finished suppression, because box 1 would be dropped by a lower-scoring box |
| BoxNms.SuppressFromFront | opencv/test_template.py:83-101 | the rounds that keep the first undecided index append exactly the greedy front-first result to the kept list, finish with nothing undecided and keep the invariant |
| BoxNms.SuppressFromBack | opencv/test_shape.py:630-646 | the rounds that keep the last undecided index append exactly the greedy back-first result to the kept list, finish with nothing undecided and keep the invariant |
| TestShape.ClassifyShapeSpec | opencv/test_shape.py:315-336 | four vertices give a square iff h > 0 and 0.95 ≤ w/h ≤ 1.05, otherwise a rectangle; 6..11 give an n-gon; other counts give a circle iff the perimeter is positive and circularity > 0.8, and a polygon for a zero perimeter |
| TestShape.ApplyBlur | opencv/test_shape.py:274-288 | the kernel size becomes odd and at least 1, odd sizes are kept and even ones raised by one; unknown blur types leave the image alone |
| TestShape.ApplyBlurIdempotent | opencv/test_shape.py:274-278 | normalising the kernel size twice changes nothing |
| TestShape.ContourShapes | opencv/test_shape.py:232-263 | the detector never reports more shapes than contours |
| TestShape.ContourShapesNumbered | opencv/test_shape.py:232-263 | reported shapes are numbered 1..n in order and each lies in the area window |
| TestShape.ContourShapesCount | opencv/test_shape.py:234-238 | exactly the contours inside the area window are reported |
| TestShape.DetectContourShapes | opencv/test_shape.py:232-263 | the loop with its running shape count produces exactly the specified shapes |
| TestShape.ConfidenceSpec | opencv/test_shape.py:564-580 | a location is kept iff its confidence reaches the threshold, the confidence being 1 − result for squared differences and the result otherwise |
| TestShape.Boxes | opencv/test_shape.py:615-617 | one corner box per match, in order |
| TestShape.Scores | opencv/test_shape.py:619 | one score per match, its confidence |
| TestShape.NonMaxSuppression | opencv/test_shape.py:610-648 | empty input keeps nothing; otherwise the kept indices are exactly the greedy back-first result over the area argsort, and they satisfy the suppression result (distinct, first has top score, kept pairwise apart, every dropped one suppressed by a kept one scoring at least as high) |
| TestShape.NumberAfterSuppression | opencv/test_shape.py:595-601 | suppression at 0.5 keeps exactly the greedy back-first result, then the kept matches get ids 1..n in output order |
| TestShape.Renumber | opencv/test_shape.py:599-601 | the kept matches are copied out in order with ids 1..n |
| TestTemplate.NmsBoxes | opencv/test_template.py:69-103 | empty input keeps nothing; otherwise the kept indices are exactly the greedy front-first result over the argsort read backwards: distinct, the first has the top score, no kept box suppresses a later one, and every dropped box is suppressed by an earlier kept box scoring at least as high |
| TestTemplate.Scales | opencv/test_template.py:146-150 | [1.0] for at most one step, otherwise `scale_steps` evenly spaced values from `scale_min` to `scale_max` |
| TestTemplate.ScaleMatches | opencv/test_template.py:194-213 | one scale never contributes more matches than locations |
| TestTemplate.RestoreCompounds | opencv/test_template.py:199-203 | as written the template size is divided by the resize factor once per location, so a second hit of a 10x10 template at factor 0.5 is reported 40 wide instead of 20 |
| TestTemplate.ScaleMatchesSpec | opencv/test_template.py:187-213 | every match passes the threshold in the method's direction, has the size restored once and the box (x, y, x + w, y + h); every passing location yields a match |
| TestTemplate.RestoreGrows | opencv/test_template.py:199-203 | restoring never shrinks a non-negative size and is the identity without down-scaling |
| TestTemplate.RunScalesSpec | opencv/test_template.py:153-185 | a timed-out search returns a prefix of the full match list; without a late clock reading it returns all of it and no timeout |
| TestTemplate.AllScalesSpec | opencv/test_template.py:161-213 | every reported match passes the threshold and is at least 3 pixels in each direction; undersized or oversized scales are skipped |
| TestTemplate.RunScalesUnfold | opencv/test_template.py:154-213 | one scale: a timeout before or after matching stops with the partial list, a skipped scale adds nothing, otherwise its matches come before those of later scales |
| TestTemplate.CollectScale | opencv/test_template.py:194-213 | the corrected location loop (the size restored once per match) produces exactly `ScaleMatches`, whose properties `ScaleMatchesSpec` states |
| TestTemplate.CollectScaleAsWritten | opencv/test_template.py:194-213 | the location loop as written, restoring the size into the variables the next match reuses, produces exactly `ScaleMatchesAsWritten` |
| TestTemplate.AsWrittenAgreesWithoutResize | opencv/test_template.py:199-203 | with a resize factor of at least 1 the loop as written and the corrected one report the same matches |
| TestTemplate.MatchMultiscale | opencv/test_template.py:153-213 | the scale loop with its two timeout checks returns `RunScales`: a prefix of all matches on a timeout, all of them otherwise (`RunScalesSpec`); each scale's matches are the corrected `ScaleMatches` |
| TestTemplate.Keys | opencv/test_template.py:221 | scores as given for higher-is-better methods and negated otherwise |
| TestTemplate.MatchBoxes | opencv/test_template.py:220 | one box per match, in order |
| TestTemplate.FirstBest | opencv/test_template.py:230-233 | the chosen index lies in the list |
| TestTemplate.FirstBestSpec | opencv/test_template.py:230-233 | `max`/`min` pick a match of best key, the first one on ties |
| TestTemplate.SortByKey | opencv/test_template.py:238-241 | sorting keeps the length |
| TestTemplate.SliceTo | opencv/test_template.py:243 | a non-negative `top_n` keeps min(top_n, n) elements |
| TestTemplate.SortByKeySpec | opencv/test_template.py:238-241 | the sort is best first and a permutation of the matches |
| TestTemplate.TopNSorted | opencv/test_template.py:237-243 | method 2 keeps min(top_n, n) matches, best first |
| TestTemplate.TopNFromInput | opencv/test_template.py:237-243 | every kept match comes from the input |
| TestTemplate.TopNBest | opencv/test_template.py:237-243 | no left-out match beats a kept one |
| TestTemplate.SelectByNms | opencv/test_template.py:216-224 | method 0 returns the matches of the greedy front-first suppression, in its order, over scores negated for lower-is-better methods |
| TestTemplate.SelectResults | opencv/test_template.py:215-248 | method 0 keeps exactly the greedy suppression result, method 1 keeps the single first-best match (none for no matches), method 2 the best `top_n`, anything else all matches |
| TestMap.DropReason | opencv/test_map.py:150-171 | a contour is kept iff its area lies in [min_area, max_area], its perimeter is non-zero, its circularity reaches the threshold and m00 is non-zero; otherwise the first failing check is reported |
| TestMap.HsvMonsters | opencv/test_map.py:147-185 | the detector never reports more monsters than contours |
| TestMap.HsvMonstersNumbered | opencv/test_map.py:147-185 | ids run 1..n in contour order and every reported monster passed the circularity filter |
| TestMap.HsvMonstersCount | opencv/test_map.py:150-185 | exactly one monster per accepted contour |
| TestMap.DetectHsv | opencv/test_map.py:147-187 | the loop with its running id produces exactly the specified monsters |
| TestMap.StepsLeftDecreases | opencv/test_map.py:265-293 | with a positive step each turn of the scale loop brings it closer to its end |
| TestMap.ZeroStepNeverEnds | opencv/test_map.py:265-293 | with a zero step the scale never moves, so a loop that starts at or below its end never leaves it |
| TestMap.CentredMatches | opencv/test_map.py:283-291 | one match per hit |
| TestMap.ScaleLoopStep | opencv/test_map.py:266-293 | one turn keeps the collected matches a prefix of the whole loop's |
| TestMap.ScaleLoopDone | opencv/test_map.py:266 | past the end the loop adds nothing |
| TestMap.ScalesFrom | opencv/test_map.py:265-293 | the loop visits no scale exactly when it starts past its end |
| TestMap.MatchAtScale | opencv/test_map.py:267-293 | an undersized or oversized template adds nothing; otherwise the scale's centred matches |
| TestMap.CentreHits | opencv/test_map.py:283-291 | each recorded position is the top-left corner plus half the template size (floor division) |
| TestMap.CollectTemplateMatches | opencv/test_map.py:262-293 | the loop terminates only for a positive step or a start past the end, and then collects exactly the specified matches |
| TestMap.ScanScales | opencv/test_map.py:265-293 | for a positive step the scale loop collects exactly the matches of every visited scale, in order |
| TestMap.OverlappingSymmetric | opencv/test_map.py:325-332 | the centre-distance overlap is symmetric, and at threshold 0 nothing overlaps |
| TestMap.Nms | opencv/test_map.py:307-323 | the kept matches are exactly the greedy rounds over the score-sorted input: empty input keeps nothing; the kept come from the input, are pairwise apart with non-increasing scores, every dropped match overlaps a kept one scoring at least as high, the first kept has the top score, and at threshold 0 every match is kept, best first |
| TestMap.GreedyRound | opencv/test_map.py:316-321 | appending one pop-and-filter round to the kept list does not change the list the greedy rounds end with |
| TestMap.NmsLoopEnd | opencv/test_map.py:316-323 | when the loop ends its invariant gives the properties of `_nms` |
| TestMap.NmsLoopStep | opencv/test_map.py:316-321 | one pop-and-filter round keeps the loop invariant, including that each dropped match is covered by a kept one scoring at least as high |
| TestMap.NmsRound | opencv/test_map.py:316-321 | one round keeps the kept list apart and dominant and every dropped match covered by a kept one scoring at least as high |
| TestMap.OrderStep | opencv/test_map.py:316-321 | one round keeps the kept scores non-increasing, the first kept the best, and at threshold 0 the kept list a prefix of the sorted input |
| TestMap.NumberMonsters | opencv/test_map.py:300-303 | after suppression each monster's id is its 1-based position and its area is w × h |
| TestMap.ClampHough | opencv/test_map.py:370-392 | every parameter becomes at least 1, the maximum radius exceeds the minimum, and the blur size becomes odd; parameters already valid are kept |
| MapPoints.RedMaskSpec | map/detect_map_points.py:64-80 | red is the union of its two hue ranges: a saturated, bright pixel is red iff its hue is at most 10 or at least 170, under either red name, labelled 'red' |
| MapPoints.SharedHueBoundaries | map/detect_map_points.py:27-44 | the inclusive ranges share hues 10 (orange and red) and 25 (orange and yellow), while hues 11..24 are neither red nor yellow |
| MapPoints.Circularity | map/detect_map_points.py:95-102 | 0 for a zero perimeter, otherwise 4π·area/perimeter² |
| MapPoints.PointsFromMaskSpec | map/detect_map_points.py:104-137 | the points are exactly those of contours with 10 ≤ area ≤ 200, circularity ≥ 0.5 and m00 ≠ 0, in contour order, labelled with the mask's colour |
| MapPoints.DetectPointsFromMask | map/detect_map_points.py:104-137 | the contour loop produces exactly the specified points |
| MapPoints.MembersSpec | map/detect_map_points.py:153-160 | an index joins the seed's cluster iff it is later than the seed, unused, and closer than merge_distance to the seed itself (not to other members); members come in index order |
| MapPoints.UsedAfter | map/detect_map_points.py:160 | the used set grows by exactly the cluster's members |
| MapPoints.ClustersFrom | map/detect_map_points.py:147-160 | there are no more clusters than points left, each cluster is non-empty and holds valid indices |
| MapPoints.ClustersPartition | map/detect_map_points.py:144-170 | the clusters partition the unused points: disjoint, covering each exactly once, star-shaped around their seed, in seed order |
| MapPoints.TruncMean | map/detect_map_points.py:163-164 | `int(mean)` of integers is division truncated toward zero, not rounding |
| MapPoints.CentreSpec | map/detect_map_points.py:162-168 | the merged point lies inside its cluster's bounding box and takes the seed's colour; a one-point cluster merges to that point |
| MapPoints.MergedSpec | map/detect_map_points.py:139-170 | merging never adds points, returns inputs of at most one point unchanged, and gives one point per cluster with its seed's colour, in seed order |
| MapPoints.MergeOverlappingPoints | map/detect_map_points.py:139-170 | the loop over a used-index set produces exactly the specified merged points |
| MapPoints.MergeStep | map/detect_map_points.py:147-168 | one outer-loop round appends the seed's merged point and keeps the rest in step |
| MapPoints.GrowCluster | map/detect_map_points.py:152-160 | the inner loop yields the seed's members, the used set with them added, and the cluster's points seed first |
| MapPoints.GrowStep | map/detect_map_points.py:153-160 | one inner step adds index j iff it is unused and close to the seed |
| MapPoints.Detect | map/detect_map_points.py:172-205 | the points of orange, red and yellow, concatenated in that order and merged |
| MapPoints.AllPointsOrdered | map/detect_map_points.py:191-202 | before merging, orange points come first, then red, then yellow |
| MapPoints.MergedOrdered | map/detect_map_points.py:139-170 | merging keeps the colour order, since a merged point takes its seed's colour and seeds increase |
| TestArrow.CardinalIndex | opencv/test_arrow.py:121-122 | the compass index is always one of the eight labels (0 ≤ i < 8) |
| TestArrow.CardinalExamples | opencv/test_arrow.py:112-123 | 0° and 359° are N, 44° is NE, 90° is E, 180° is S, and -30° is still N because `int` truncates toward zero |
| TestArrow.CardinalSector | opencv/test_arrow.py:112-123 | every 45° sector centred on a compass direction gets that direction's label, and [337.5, 360) wraps to N |
| TestArrow.CardinalRawIndex | opencv/test_arrow.py:121-122 | before `% 8` the truncated quotient of an angle in [0, 360) lies in 0..8 and is 8 exactly from 337.5° on |
| TestArrow.Mod360 | opencv/test_arrow.py:283 | Python's float `% 360` lands in [0, 360) and differs from its argument by whole turns |
| TestArrow.Mod360Unique | opencv/test_arrow.py:283 | the representative in [0, 360) is unique: any such value a whole number of turns away is the result |
| TestArrow.GameAngle | opencv/test_arrow.py:357-360 | the game angle `(90 - math_angle) % 360` is in [0, 360) |
| TestArrow.GameAngleSpec | opencv/test_arrow.py:357-360 | on one turn the game angle is exactly 90 − math angle, and adding 360° to the math angle does not change it |
| TestArrow.DirectionMinAreaRect | opencv/test_arrow.py:269-285 | the rectangle direction is a game angle in [0, 360), and a taller-than-wide rectangle is turned by 90° first |
| TestArrow.CornerAt | opencv/test_arrow.py:323-337 | a hull vertex is a tip candidate iff both of its cyclic neighbours differ from it, and the candidate is that vertex |
| TestArrow.Corners | opencv/test_arrow.py:323-347 | the tip candidates of the hull, one per vertex in order |
| TestArrow.FurthestCandidates | opencv/test_arrow.py:371-377 | the fallback's candidates, one per hull point with its distance from the centroid |
| TestArrow.FurthestNone | opencv/test_arrow.py:364-380 | the fallback gives no direction iff no hull point is at a positive distance from the centroid |
| TestArrow.FurthestIsFurthest | opencv/test_arrow.py:364-392 | the fallback points at a hull point that no other hull point is further from |
| TestArrow.TipExists | opencv/test_arrow.py:314-349 | no tip is found iff no hull vertex has two neighbours distinct from it |
| TestArrow.TipIsSharpest | opencv/test_arrow.py:314-347 | the tip is a proper corner whose angle, the kept minimum, is no larger than any corner's and strictly smaller than every earlier corner's |
| TestArrow.CalculateDirection | opencv/test_arrow.py:251-267 | only methods 0, 1 and 2 give a direction, always in [0, 360); methods 0 and 2 always give one |
| TestArrow.HsvCandidate | opencv/test_arrow.py:195-244 | a contour is a candidate iff its area is within [min, max], m00 ≠ 0 and a direction exists; its score is its area, its cardinal matches its angle and its confidence is min(1, area/2000) |
| TestArrow.HsvCandidates | opencv/test_arrow.py:195-244 | one candidate per contour, in contour order |
| TestArrow.HsvDetectSpec | opencv/test_arrow.py:192-249 | an arrow is found iff some accepted contour has positive area; it comes from an accepted contour at least as large as every accepted one and strictly larger than every earlier one |
| TestArrow.CornerAngle | opencv/test_arrow.py:324-341 | the corner-angle computation agrees with the tip-candidate definition |
| TestArrow.SharpestCorner | opencv/test_arrow.py:314-347 | the loop over hull vertices returns the tip and minimum angle of the specified scan |
| TestArrow.SharpestStep | opencv/test_arrow.py:344-346 | one vertex of the loop is one step of the scan: a smaller angle is a larger negated key |
| TestArrow.FurthestPoint | opencv/test_arrow.py:364-392 | the loop over hull points returns the specified fallback direction |
| TestArrow.DirectionConvexHullOf | opencv/test_arrow.py:287-362 | the convex-hull method returns the specified direction, falling back to the furthest point when there is no tip sharper than 120° |
| TestArrow.CalculateDirectionOf | opencv/test_arrow.py:251-267 | the dispatcher returns the specified direction |
| TestArrow.ContourCandidate | opencv/test_arrow.py:196-244 | the work on one contour yields its specified candidate |
| TestArrow.DetectHsv | opencv/test_arrow.py:192-249 | the contour loop returns the specified best arrow |
| TestArrow.PyRange | opencv/test_arrow.py:506 | `range(start, end, step)` holds start + k·step for each k, every element is short of end, and the next one would not be |
| TestArrow.TemplateCandidate | opencv/test_arrow.py:515-549 | an (angle, scale) pair is tried iff the resized template is 5 pixels or more on each side and fits the image; its score, confidence and angle are the correlation and the searched angle |
| TestArrow.AngleCandidates | opencv/test_arrow.py:514-549 | one candidate per scale, in order |
| TestArrow.CandidateOrigin | opencv/test_arrow.py:506-549 | every candidate of the search comes from one searched (angle, scale) pair |
| TestArrow.TemplateDetectSpec | opencv/test_arrow.py:474-552 | a match needs a template and scores strictly above the threshold and at least as well as every candidate, coming from a searched pair; with a template and no match every candidate scores at most the threshold |
| TestArrow.TemplateScanStep | opencv/test_arrow.py:514-549 | one scale of the inner loop is one step of the best-score scan |
| TestArrow.AllCandidatesStep | opencv/test_arrow.py:506-514 | one angle of the outer loop appends that angle's candidates |
| TestArrow.MatchScaled | opencv/test_arrow.py:515-549 | one (angle, scale) step yields its specified candidate |
| TestArrow.DetectTemplate | opencv/test_arrow.py:463-556 | no template gives no match; with a template an angle step of 0 is the `ValueError` of `range`; otherwise the nested loops return the best match over `range(angle_start, angle_end, angle_step)` as `TemplateDetectSpec` states |
| Src2Config.GlobalCooldownMs | src2/config.go:34-41 | exactly Attack, Food, Pill, MP and FP have a global cooldown, and it is positive |
| Src2Config.WithGlobal | src2/config.go:515-520 | starting a type's global cooldown leaves every other type's field, and the buff and obstacle times, unchanged |
| Src2Config.RepeatBlocked | src2/config.go:435-457 | right after an action of a type with a global cooldown, the same type is blocked at the same instant |
| Src2Config.NoGlobalNeverBlocked | src2/config.go:436-457 | a type with no global cooldown is never blocked globally, and an action of it changes no global field |
| Src2Config.SlotKeyInjective | src2/config.go:484 | the `page:slot` key gives back its page and slot, so distinct slots never share a cooldown entry |
| Src2Config.Live | src2/config.go:459-464 | the clean-up keeps exactly the entries strictly in the future, with their times |
| Src2Config.CandidatesSpec | src2/config.go:466-492 | a slot is a candidate iff it is configured, enabled, of the requested type, within its threshold (if any) and not on its own cooldown |
| Src2Config.LowestSpec | src2/config.go:499-507 | the Food/Pill choice is the first slot with the smallest threshold when any candidate has one, and the first candidate otherwise |
| Src2Config.ChoiceIsCandidate | src2/config.go:499-531 | the chosen slot is one of the candidates |
| Src2Config.StartSlotCooldown | src2/config.go:509-513 | pressing a slot with a cooldown sets its entry to now plus that cooldown, one without leaves the map alone; other entries never change |
| Src2Config.PageToPress | src2/config.go:522-526 | the page is -1 exactly when the slot is on the current page |
| Src2Config.FindCandidates | src2/config.go:466-492 | the slot loop collects exactly the specified candidates |
| Src2Config.PickLowest | src2/config.go:500-507 | the loop over candidates picks the specified lowest-threshold slot |
| Src2Config.ChooseSlot | src2/config.go:499-531 | Food and Pill take the lowest-threshold candidate, every other type the first |
| Src2Config.TimeToRemaining | src2/config.go:404-413 | whole milliseconds until t, rounded down; 0 for the zero time or a time already reached |
| Src2Config.TimeToElapsed | src2/config.go:416-425 | whole milliseconds since t, rounded down; 0 for the zero time or a time not yet reached |
| Src2Config.RemainingOrElapsed | src2/config.go:404-425 | a timestamp is never both ahead and behind: one of the two views is 0 |
| Src2Config.Config.GetAvailableSlot | src2/config.go:429-554 | a global cooldown answers (-1, -1) and changes nothing; otherwise expired slot cooldowns are dropped, no candidate answers (-1, -1), and the chosen slot is returned with its page (or -1), its own cooldown started and its type's global cooldown started |
| Src2Config.Config.AddAction | src2/config.go:592-600 | the history gains the action and keeps only the newest ten |
| Src2Config.Config.AddKilled | src2/config.go:575-581 | the kill count goes up by one and the last kill time is now |
| Src2Config.Config.UpdateTarget | src2/config.go:557-572 | the target is cleared unless one is selected, in which case it holds the given level, HP, MP and passive flag |
| Detect.FromEdge | src2/detect.go:240-252 | a non-negative coordinate is kept and a negative one counts back from the far edge |
| Detect.ActualROIExamples | src2/detect.go:240-259 | the player region (0, 0)-(500, 350) is used as it is when it fits the image, and the default target region (400, 200)-(-400, 200) is rejected whatever the image size |
| Detect.WidestFit | src2/detect.go:309-324 | the widest fitting width is never below 0 |
| Detect.WidestFitSpec | src2/detect.go:309-324 | no fitting contour is wider than the result, and the result is 0 or the width of a fitting contour |
| Detect.WidestContour | src2/detect.go:309-324 | the contour loop returns the specified widest fitting width |
| Detect.Clamp100 | src2/detect.go:357-362 | the value is clamped into [0, 100] and a value already there is kept |
| Detect.MeasuredBounds | src2/detect.go:327-362 | the maximum width never shrinks and is at least the new width, and the value is a percentage |
| Detect.MeasuredCount | src2/detect.go:331-339 | the stable counter restarts on a change of width, counts a repeat, and restarts when the 30th repeat promotes the width to the maximum |
| Detect.MeasuredPercent | src2/detect.go:342-354 | a width equal to the known maximum reads 100, and otherwise the value is the width's share of the maximum rounded down |
| Detect.BarInfo.constructor | src2/detect.go:121-139 | a new bar has its kind and all counters at 0 |
| Detect.UpdateStateDetect | src2/detect.go:233-362 | an unused bar or a region outside the image leaves the bar unchanged; otherwise the bar takes the widest fitting width and updates its counters and value as specified; its kind never changes |
| Detect.DetectedPercent | src2/detect.go:233-362 | a bar reading a percentage keeps reading one after an update, and its known maximum width never shrinks |
| Detect.ClosedAfterFive | src2/detect.go:406-410 | five all-zero readings in a row close the bars, whatever the state before |
| Detect.NonZeroOpens | src2/detect.go:411-414 | a reading with any non-zero bar opens the bars and restarts the count |
| Detect.StatsBar.constructor | src2/detect.go:119-160 | a new bar group has its region and filter, three distinct fresh bars of the given kinds, and every flag cleared |
| Detect.StatsBar.UpdateState | src2/detect.go:399-429 | each of the three bars takes the reading `Detected` gives for its own contours; then visibility follows the all-zero counter, NPC holds iff the FP bar is unused or empty and HP reads 100 and MP 0, and alive holds iff HP reads above 0 |
| Detect.StatsBar.UpdateFlags | src2/detect.go:405-428 | the flags are set from the three readings as stated for `UpdateState` |
| Detect.MobsFromSpec | src2/detect.go:505-531 | a mob is reported iff it is a fitting contour moved by the region origin and outside the HP-bar corner (x ≤ 250 and y ≤ 110) |
| Detect.UpdateMobsDetect | src2/detect.go:432-531 | the list is cleared; a region outside the image leaves it empty, and otherwise it holds exactly the specified mobs in contour order |
| DebugStatus.BarWidth | src2/debug_status.go:1292-1343 | a bar whose cached region has no width reads 0 |
| DebugStatus.Percent | src2/debug_status.go:1364-1380 | the value is in [0, 100], reads 100 exactly when the fill reaches the cached full width, and is otherwise the share rounded down |
| DebugStatus.PercentCap | src2/debug_status.go:1365-1368 | the uncapped percentage reaches 100 exactly when the fill reaches the full width |
| DebugStatus.BarAreaSpec | src2/debug_status.go:1528-1548 | the bar area runs from the avatar's right edge to the frame's right edge and from 15 pixels above the avatar (at least row 1 of the frame) to the avatar's bottom |
| DebugStatus.BlendSpec | src2/debug_status.go:1730-1742 | the 0.7/0.3 blend of a value with itself is that value, and a blend lies between its two inputs |
| DebugStatus.AcceptSpec | src2/debug_status.go:1713-1748 | accepted bars read 100 with the fill as width; a bar not in use takes the new region with the fill as full width, and a bar in use gets a blended region between the old one and the new one |
| DebugStatus.StepKeepsValid | src2/debug_status.go:1350-1416 | every step keeps the retry counter within 0..5 and the frame counter non-negative |
| DebugStatus.FailuresAbsorbed | src2/debug_status.go:1404-1415 | from retry count r the next 5 − r failed readings only raise the counter, and the one after closes the bars, resets both counters and hands the frame to the full search |
| DebugStatus.Spread | src2/debug_status.go:1636-1698 | the running maximum minus the running minimum is the largest difference between two elements, and some pair attains it |
| DebugStatus.SpreadWithin | src2/debug_status.go:1655-1699 | a spread of at most t means exactly that every pair of elements differs by at most t |
| DebugStatus.Validate | src2/debug_status.go:1631-1701 | the bars are valid iff the spreads of left edges, right edges, heights and fill widths and the difference of the two gaps are all at most 5 |
| DebugStatus.Status.constructor | src2/debug_status.go:1273-1280 | the detector starts closed with zeroed counters and bars |
| DebugStatus.Status.BarsValue | src2/debug_status.go:1286-1345 | the fill width read inside each cached region is the specified one |
| DebugStatus.Status.IncrementalStep | src2/debug_status.go:1350-1416 | the incremental path: all three fills found updates the values (capped at 100), counts the frame and clears the retries; a failure counts a retry, and the sixth closes the bars and asks for the full search |
| DebugStatus.Status.MeasureBars | src2/debug_status.go:1583-1630 | the fill widths of the top three bars are the specified ones |
| DebugStatus.Status.ApplyBars | src2/debug_status.go:1582-1757 | with fewer than three bars or inconsistent bars nothing changes; otherwise the bars are accepted as specified |
| DebugStatus.Status.FullSearch | src2/debug_status.go:1477-1757 | with no outer frame, avatar or bar area nothing changes; otherwise the bars are the candidates sorted by top edge (a permutation), well formed, and applied |
| DebugStatus.Status.Detect | src2/debug_status.go:1283-1761 | one frame: the incremental path when open and the frame count is not a multiple of 30; the full search when it does not apply or gave up; the counters stay valid |
| DebugTarget.ClampSpanSpec | src2/debug_target.go:491-513 | the clamped span starts at max(lo, 0) and is usable exactly when that start is inside the frame, then lying in [0, size]; a span left empty by the clamp is stretched to the frame's far edge |
| DebugTarget.ROIParams.constructor | src2/debug_target.go:387-392 | a new region holds the given corners |
| DebugTarget.ROIParams.Clamp | src2/debug_target.go:486-514 | the region is clamped in place to the specified corners, and it is usable (inside the frame and non-empty) exactly when the source goes on |
| DebugTarget.ROIParams.ClampHorizontal | src2/debug_target.go:491-504 | the horizontal edges become the clamped span of the old ones |
| DebugTarget.ROIParams.ClampVertical | src2/debug_target.go:494-507 | the vertical edges become the clamped span of the old ones |
| DebugTarget.ClampTo | src2/debug_target.go:795-821 | a cut rectangle lies inside the image and inside the original rectangle, with at least one pixel |
| DebugTarget.ClampToSpec | src2/debug_target.go:795-821 | a rectangle already inside the image is kept as it is, and the cut is empty exactly when the rectangle and the image share no pixel |
| DebugTarget.AvatarSidesIsSquare | src2/debug_target.go:641-667 | testing the larger and the smaller side against [min, max] is testing both sides |
| DebugTarget.AvatarCircle | src2/debug_target.go:668-673 | the avatar circle's centre lies in its rectangle and its radius is a non-negative quarter of width plus height, rounded down |
| DebugTarget.SelectAvatar | src2/debug_target.go:633-697 | no avatar is found iff no contour fits the size box, and otherwise the avatar is the circle of the first contour that fits |
| DebugTarget.BarAreaSwaps | src2/debug_target.go:715-736 | the bar area is always well formed and non-empty: offsets that invert its left and right edges make `image.Rect` swap them |
| DebugTarget.Percentage | src2/debug_target.go:1014 | the fill percentage is in [0, 100] and is 100 exactly when the fill spans the bar |
| DebugTarget.TargetBarsSpec | src2/debug_target.go:944-1027 | at most two bars are reported and none when fewer than two were found; each is inside the image, with its fill within the bar and its percentage in [0, 100]; the first is HP when the top bar survives the cut |
| DebugTarget.MeasureBars | src2/debug_target.go:944-1027 | the measuring loop returns the specified bars |
| DebugTarget.DetectInROI | src2/debug_target.go:607-1027 | the avatar, bar-area, bar and measurement steps give the specified sorted candidates and bars |
| DebugTarget.DetectStatusBars4 | src2/debug_target.go:474-1082 | an empty frame gives no bars and leaves the region alone; otherwise the region is clamped in place, an unusable region gives no bars, and a usable one gives the specified detection in it |
| DebugTarget.DetectInUsable | src2/debug_target.go:510-1082 | an unusable region gives no bars, and a usable one the specified detection in it |
| Stats.KindNames | src/stats.go:50-65 | the five bar kinds have five different names, none "Unknown", and every other value is "Unknown" |
| Stats.ConfigSpec | src/stats.go:97-192 | an unknown kind gets the zero configuration; the player's three bars share the region (105, 30)-(225, 110); every known region has positive width and height; each target bar uses its player bar's colour range |
| Stats.Widest | src/stats.go:249-257 | the width is no smaller than any contour's, and is 0 or some contour's width |
| Stats.WidestWidth | src/stats.go:249-257 | the contour loop returns the specified widest width |
| Stats.Percentage | src/stats.go:271-284 | the value is in [0, 100], 0 for a region without width, 100 for a width reaching the region's, and otherwise the share rounded down |
| Stats.PercentageBounds | src/stats.go:274-281 | truncating the rational share is the integer quotient for a non-negative width and at most 0 for a negative one |
| Stats.UpdatedStatSpec | src/stats.go:217-301 | a missing or empty frame, or a region outside it, changes nothing; otherwise the maximum width never shrinks and becomes the widest width if larger, the value is the specified percentage, the time moves to now exactly when the value changes, and the result says whether the maximum or the value changed |
| Stats.UnknownKindReadsZero | src/stats.go:282-284 | a bar of unknown kind has a region without width, so once read its value is 0 |
| Stats.StatInfo.constructor | src/stats.go:205-213 | a new bar holds the given maximum, value and kind, with previous value 100 and time now |
| Stats.StatInfo.GetValue | src/stats.go:338-342 | returns the current value |
| Stats.StatInfo.ResetLastUpdateTime | src/stats.go:345-349 | only the value's time changes, to now |
| Stats.StatInfo.UpdateValue | src/stats.go:217-301 | the bar's new state and the changed flag are the specified update |
| Stats.TrayNextSpec | src/stats.go:430-450 | the tray reads open exactly when some player bar is non-zero; the miss counter stays in [0, 4] and is 0 after an open reading |
| Stats.MissesCycle | src/stats.go:436-444 | after n closed readings in a row from a cleared counter the counter is n mod 5, so it wraps every fifth miss |
| Stats.AliveOf | src/stats.go:453-464 | the alive state is tray-closed iff the tray is closed, alive iff it is open and HP is above 0, and dead iff it is open and HP is 0 or less |
| Stats.ClientStats.constructor | src/stats.go:386-401 | the player's bars start at 100 and the target's at 0, as five distinct bars; the tray is closed and every target flag is false |
| Stats.ClientStats.DetectStatTray | src/stats.go:430-450 | the tray reading and the new miss counter are the specified ones |
| Stats.ClientStats.UpdateOpenCV | src/stats.go:404-427 | every bar is updated as specified from the frame; then the tray and alive state follow from the new player values, and the target is an NPC iff its HP reads 100 and MP 0, a mover iff MP is above 0, alive iff HP is above 0 |
| Stats.ClientStats.UpdateFlags | src/stats.go:415-426 | the tray, alive and target flags follow from the current values as stated for `UpdateOpenCV` |
| Stats.ClientStats.UpdateAliveState | src/stats.go:482-486 | only the alive state changes, to the one the tray flag and HP value give |
| TestMain.PixelMatches | src/test/main.go:230-243 | a pixel matches iff each of its three channels is within the tolerance of the reference's, the difference taken so that the unsigned subtraction cannot wrap |
| TestMain.ChannelsWithinReflexiveSymmetric | src/test/main.go:230-243 | a pixel matches itself at every tolerance, and matching does not depend on which side is the reference |
| TestMain.ChannelsWithinMonotone | src/test/main.go:230-243 | a larger tolerance accepts every pair a smaller one does |
| TestMain.Bgr | src/test/main.go:320-324 | a pixel's channels are blue, green and red in that order |
| TestMain.RefColors | src/test/main.go:252-309 | every known bar type has at least one reference colour |
| TestMain.RefColorsKnown | src/test/main.go:254-309 | exactly hp, mp, fp, target_hp and target_mp have reference colours; any other type reads 0 |
| TestMain.MatchesAny | src/test/main.go:327-338 | the loop over reference colours finds a hit iff some reference colour matches within tolerance 2 |
| TestMain.RightmostSpec | src/test/main.go:318-340 | the rightmost matched column below x is matched, and no column between it and x is |
| TestMain.LeftmostSpec | src/test/main.go:318-340 | the leftmost matched column from x is matched (or is the width when none is), and no column before it is |
| TestMain.RatioBounds | src/test/main.go:347-354 | a span inside the region gives a positive share of at most 100, so the cap never applies |
| TestMain.BarPercentageSpec | src/test/main.go:250-357 | an unknown type reads 0; the percentage is in [0, 100], positive iff two different columns match, and then the share of the width between the outermost matched columns, both included |
| TestMain.NextRow | src/test/main.go:318-319 | the scan's end of a row and start of the next one have seen the same columns |
| TestMain.Outermost | src/test/main.go:314-340 | columns that are matched and bound all matches from their side are the leftmost and rightmost matched columns |
| TestMain.ScanStep | src/test/main.go:327-337 | scanning one pixel adds its column to the seen ones and moves the bounds exactly when it matches |
| TestMain.RowDone | src/test/main.go:318-340 | the end of one row is the start of the next |
| TestMain.ScanRow | src/test/main.go:319-339 | one row of the scan keeps the scan state as specified |
| TestMain.ScanSpan | src/test/main.go:314-340 | the scan finds something iff some column matches, then returning the outermost matched columns; otherwise the width and 0 |
| TestMain.DetectBarPercentage | src/test/main.go:250-357 | the pixel scan returns the specified percentage |
| TestMain.PlayerGuardCovers | src/test/main.go:186-211 | the 250-row guard covers the three player bar rows |
| TestMain.DetectStats | src/test/main.go:180-227 | fewer than 250 rows gives nothing; from 250 rows a frame too narrow for the bar regions faults in `Region`; otherwise the three bars' percentages from rows 8, 14 and 20, reported iff one of them is non-zero |
| TestMain.TargetGuardAdmitsShortFrame | src/test/main.go:144-158 | a 400 × 100 frame passes the 80-row guard, yet both target bar regions lie below its last row |
| TestMain.TargetGuardSpec | src/test/main.go:144-162 | the corrected guard admits exactly the frames tall enough for both target regions |
| TestMain.DetectTargetStats | src/test/main.go:138-176 | as written: below 80 rows nothing; 80 to 151 rows pass the guard and fault in `Region`; from 152 rows a frame narrower than 380 columns faults, otherwise the target HP and MP percentages, reported iff one of them is non-zero |
| TestMain.TargetStatsGuarded | src/test/main.go:138-176 | with a guard of `minRows`: nothing below it; past it a fault exactly when a bar region leaves the frame; otherwise the two percentages, reported iff one is non-zero |
| TestMain.DetectTargetStatsCorrected | src/test/main.go:138-176 | with the 152-row guard a frame at least 380 wide never faults, a frame turned away cannot hold the regions, and otherwise the percentages are those of the guarded detection |
| TestMain.TargetsOfSpec | src/test/main.go:95-134 | every target comes from a name-sized rectangle with the given name and colour, and every name-sized rectangle yields one |
| TestMain.TargetsAreNames | src/test/main.go:116-131 | each target has the given name and colour and a box 35 to 260 wide and 8 to 30 high |
| TestMain.ExtractTargets | src/test/main.go:95-134 | the contour loop returns the specified targets |
| TestMain.DetectTargets | src/test/main.go:44-92 | the red-name targets come first, then the yellow ones |
| TestMain.NormalizedSpec | src/test/main.go:512-520 | the normalised angle lies in (-180, 180] and differs from the input by whole turns |
| TestMain.NormalizedUnique | src/test/main.go:512-520 | it is the only such angle |
| TestMain.NormalizedIdempotent | src/test/main.go:512-520 | normalising twice is normalising once |
| TestMain.NormalizeAngle | src/test/main.go:512-520 | the two loops return the normalised angle |
| TestMain.Degrees | src/test/main.go:436-440 | an `atan2` angle moved into [0, 360] by adding one turn when negative |
| TestMain.SectorOf | src/test/main.go:443-446 | the sector index is one of the 36 sectors, 360 folded into the last |
| TestMain.SectorSpec | src/test/main.go:443 | below 360 degrees the sector is the one whose 10 degrees hold the angle |
| TestMain.Weight | src/test/main.go:449 | the inverse-distance weight is in (0, 1] |
| TestMain.Contribution | src/test/main.go:424-450 | a blob adds nothing iff it lies within 5 pixels of the centre, and otherwise a positive weight to one sector |
| TestMain.Binned | src/test/main.go:410-451 | there are 36 sector weights |
| TestMain.Added | src/test/main.go:450 | adding a contribution keeps the number of sectors |
| TestMain.BinnedSpec | src/test/main.go:410-451 | no weight is negative, and a sector has weight iff some blob away from the centre falls in it |
| TestMain.BinnedSector | src/test/main.go:417-451 | one more blob keeps a sector's weight non-negative and positive iff some blob so far falls in it |
| TestMain.AnyWeight | src/test/main.go:417-465 | some sector has weight iff some blob lies 5 or more pixels from the centre |
| TestMain.BinnedSnoc | src/test/main.go:417-451 | one more blob adds its contribution to the weights of the others |
| TestMain.SectorWeights | src/test/main.go:410-451 | the contour loop fills a new array with the specified sector weights |
| TestMain.AddBlob | src/test/main.go:418-450 | one contour adds its contribution to the array |
| TestMain.Strongest | src/test/main.go:453-461 | the best weight is no smaller than any sector's; a positive best is the weight of a strongest sector, ties keeping the earlier one; a zero best leaves sector 0 |
| TestMain.DetectDirection | src/test/main.go:360-479 | a direction is found iff the minimap fits the frame and some blob lies 5 or more pixels from its centre; then the current angle is the normalised arrow angle and the best angle the normalised centre of a strongest sector; otherwise all fields are zero |
| Farming.UnexpiredSpec | farming.go:667-679 | exactly the areas still in force are kept, each as often as before, never more areas than before, and the clean-up is idempotent |
| Farming.MarkerAreasSpec | farming.go:478-516 | the last-click marker covers the click and lasts exactly 5 s; the target marker covers the marker point, is 40 + 10·count pixels square and lasts exactly 2 s |
| Farming.WaitedAccumulates | farming.go:682-690 | two waits in a row from idle add up and keep the first call's start time |
| Farming.CooldownSpec | farming.go:693-701 | waiting holds exactly while a pending wait has not elapsed; a finished or absent wait leaves nothing pending |
| Farming.WaitThenCooldown | farming.go:682-701 | a positive wait started now is running now and is over once its length has passed |
| Farming.SlotReadySpec | farming.go:592-610 | a slot never used, or without a configured cooldown, is ready; a slot just used is ready again exactly when its cooldown has passed |
| Farming.OfKindSpec | farming.go:315-321 | the mobs of one kind are exactly the input's mobs of that kind |
| Farming.NonVioletSpec | farming.go:300-308 | the non-violet mobs are exactly the input's mobs that are not violet |
| Farming.PrioritizedSpec | farming.go:299-333 | no violet mob is returned; without aggro priority every other mob is; with it, all passive mobs when HP is at least the attack minimum and there is no aggressive mob or the one left follows an aggressive kill less than 5 s ago, and all aggressive mobs otherwise |
| Farming.FarmingBehavior.constructor | farming.go:110-120 | a new behaviour is searching, with its last kill and pet summon at now, the last kill counted as passive, and every counter and list empty |
| Farming.FarmingBehavior.UpdateTimestamps | farming.go:667-679 | the avoided areas become the ones still in force |
| Farming.FarmingBehavior.Wait | farming.go:682-690 | the pending wait and its start are the specified accumulation |
| Farming.FarmingBehavior.WaitCooldown | farming.go:693-701 | the answer and the pending wait are the specified ones |
| Farming.FarmingBehavior.PrioritizeMobs | farming.go:299-333 | returns the specified prioritised mobs, with the time since the last kill read at now |
| Farming.FarmingBehavior.AvoidLastClick | farming.go:503-517 | a last click adds its marker to the avoided areas; no last click adds nothing |
| Farming.FarmingBehavior.OnVerifyTarget | farming.go:356-366 | attacks iff the target is on screen and alive; otherwise marks the last click and searches again |
| Farming.FarmingBehavior.AbortAttack | farming.go:473-500 | always presses Escape, stops attacking and searches again; after an attack was started it adds the grown target marker (if any) and counts the attempt, otherwise it resets the obstacle counter and marks the last click |
| Farming.FarmingBehavior.SendSlot | farming.go:592-610 | a ready slot is used and its use time recorded; a slot in its cooldown is skipped and nothing changes |
| Farming.FarmingBehavior.UpdatePickupPet | farming.go:542-561 | once the pet cooldown (3 s unless a positive one is configured) has passed since the summon, the pet slot is sent and the summon time moves to now; otherwise nothing changes |
| Farming.FarmingBehavior.PerformPickup | farming.go:564-589 | a configured pet: the pet slot sent and, 1.5 s later, sent again when its cooldown has passed (`PetPickup`); else the motion slot sent when ready; else the legacy pickup keys; nothing else changes |
| Farming.PetPickupSpec | farming.go:542-589 | the pet pickup sends only the pet slot, at most twice, and sends it when ready; with a cooldown of 1.5 s or more (the default 3 s) the pet is summoned at most once and stays; a shorter cooldown summons and dismisses it within one pickup |
| Farming.FarmingBehavior.AfterEnemyKill | farming.go:520-539 | the kill and search times are handed on, the kill is counted, the steal counter reset, the target dropped, the pickup done as `PerformPickup` states, and the search resumed |
| Farming.FarmingBehavior.Stop | farming.go:704-708 | stops attacking, drops the target and returns to the search |
| FarmStages.Code | src/farming.go:18-29 | the ten stages have codes 0 to 9 |
| FarmStages.CodesRoundTrip | src/farming.go:18-29 | codes and stages correspond one to one: a stage's code gives it back, and exactly 0..9 are codes |
| FarmStages.StageStringSpec | src/farming.go:32-57 | "Unknown" is the name exactly of values outside the ten codes, and the ten names are pairwise different |
| FarmStages.SlotPresses | src/farming.go:584-594 | using a slot presses the page key first when a page is given, and always ends with the slot key |
| FarmStages.Use | src/farming.go:147-149 | a slot is used, pressing something, exactly when the lookup found one (page or slot not -1) |
| FarmStages.RestoreSpec | src/farming.go:110-163 | the checks come in the order closed bar (Initializing), death (Dead), watchdog (Offline); those stages skip restoration and press nothing; otherwise the only stage change is to Escaping, which needs HP below 100 and below the escape threshold with neither food nor pill available |
| FarmStages.ReplenishmentSpec | src/farming.go:144-189 | with HP below 100 and food available the food is pressed first and no pill; without food the pill is tried; with all bars full only the buff is used |
| FarmStages.MissesSpec | src/farming.go:232-243 | from a reset counter, k consecutive lost-target frames return to the search k / 5 times and leave k mod 5 on the counter |
| FarmStages.TrackedHPSpec | src/farming.go:261-267 | the tracked target HP is the lower of the old one and the reading: it moves only when HP drops, and a repeated reading changes nothing |
| FarmStages.AvoidAttemptsSpec | src/farming.go:269-315 | a stuck target never hit is dropped without an avoidance attempt; otherwise the remaining attempts up to the limit are made and then the attack is given up |
| FarmStages.AvoidReleasedIff | src/farming.go:288-301 | the avoidance move as written releases the arrow it held exactly when the two random draws agree; the corrected move always does |
| FarmStages.AvoidEventsReleased | src/farming.go:288-301 | the corrected avoidance move, releasing the arrow it held, leaves no key held whichever arrow it draws |
| FarmStages.FirstMobSpec | src/farming.go:389-427 | a mob is clicked exactly when one is in view: the first aggressive one, else the first passive one, else the first violet one |
| FarmStages.MobCentreInside | src/farming.go:420-424 | the click point lies inside the mob's rectangle |
| FarmStages.TurnSpec | src/farming.go:430-497 | remaining rotations are spent one at a time towards the current side; looking down on steps 1-3 and up on 4-6 refills 7 to 12 rotations and moves a step on; then the search navigates when enabled, or walks forward, restarting at step 1 facing the other way; the sweep stays bounded |
| FarmStages.ForwardReleased | src/farming.go:460-492 | the forward walk holds `w` and releases every other key it holds |
| FarmStages.Repeat | src/farming.go:213-216 | n repetitions of a press sequence are n times as long |
| FarmStages.RepeatMembers | src/farming.go:213-216 | every event of a repetition is one of the repeated events, and it ends with one full copy |
| FarmStages.PickupSpec | src/farming.go:203-219 | an available pet is summoned once; otherwise an available pickup slot is pressed ten times and nothing else; with neither nothing is pressed |
| SrcFarming.ForwardSpec | src/farming.go:466-492 | a forward walk lasts at least 20 s, longer than the jump and strafe pauses of the step that starts it |
| SrcFarming.Farming.constructor | src/farming.go:100-107 | a new loop is Initializing with every counter, timer and flag cleared and no events |
| SrcFarming.Farming.UseSlot | src/farming.go:584-594 | the page key (if any) then the slot key are pressed, with 100 ms after a page switch |
| SrcFarming.Farming.RestoreHP | src/farming.go:144-163 | food, else the pill, else Escaping when HP is below the escape threshold; the presses and pauses are the specified ones |
| SrcFarming.Farming.UseIf | src/farming.go:165-181 | a slot is used only when wanted and available |
| SrcFarming.Farming.TopUp | src/farming.go:165-189 | MP and FP items below 100, then the buff with its interval, as specified |
| SrcFarming.Farming.Replenish | src/farming.go:139-189 | the restoring part presses the specified replenishment and changes the stage only to escape |
| SrcFarming.Farming.Restore | src/farming.go:110-190 | the stage, presses and elapsed time are the specified restoration, the watchdog read at the current clock |
| SrcFarming.Farming.Pickup | src/farming.go:203-219 | the pet, or ten pickups 300 ms apart, or nothing |
| SrcFarming.Farming.AfterEnemyKill | src/farming.go:193-223 | the kill is counted at the current time, the defeat interval waited, the pickup done and the search resumed |
| SrcFarming.Farming.FinishAttack | src/farming.go:317-341 | the whole new state (`Finished`): a timed-out attack presses Escape and searches again; a dead target moves on to the kill with the obstacle counter reset; otherwise the attack slot is used and its pause waited; nothing else changes |
| SrcFarming.Farming.AvoidObstacle | src/farming.go:283-305 | as written: the move steps forward, holds the arrow of one draw, jumps and releases the arrow of a second draw, and leaves no key held exactly when the two draws agree; the attempt is counted, the HP timer restarted and the cooldown waited |
| SrcFarming.TrackHP | src/farming.go:261-267 | `LastHP` becomes the lower of itself and the target's HP, and only `LastHP` and its timer change |
| SrcFarming.Farming.Engage | src/farming.go:254-341 | the whole new state (`Engaged`): `LastHP` tracked, then the stalled-HP handling and the end of the attack as `Unstick` states |
| SrcFarming.Farming.Unstick | src/farming.go:269-341 | the whole new state (`Obstructed`): a target stalled past the threshold is cancelled when never hit, given the as-written avoidance move of two draws while attempts remain (then the attack finishes), and given up otherwise; a target not stalled has its attack finished |
| SrcFarming.Farming.Attacking | src/farming.go:226-341 | the whole new state (`Attacked`): a lost target counts a miss and returns to the search on the fifth; a present target clears the counter; an NPC is cancelled with Escape; otherwise the attack is engaged with the as-written avoidance move |
| SrcFarming.Farming.ClickMob | src/farming.go:389-427 | with mobs in view: careful mode when more than 7 and not yet careful, else stop any forward walk and click the chosen mob |
| SrcFarming.Farming.WalkForward | src/farming.go:459-496 | walks forward for 20 to 40 s with the optional jump and strafe, and restarts the sweep at step 1 facing the other way |
| SrcFarming.Farming.Turn | src/farming.go:430-497 | one sweep step: rotate, look down or up, start navigating or walk forward, as specified |
| SrcFarming.Farming.StopExpiredWalk | src/farming.go:499-505 | a forward walk past its deadline is released and the sweep restarts at step 1; otherwise nothing changes |
| SrcFarming.Farming.Sweeping | src/farming.go:430-505 | the rotation search with no mob in view is the specified sweep |
| SrcFarming.Farming.SearchingForEnemy | src/farming.go:344-506 | an NPC target is cancelled with Escape; another target starts the attack with its timers reset; mobs in view are clicked; otherwise the sweep runs |
| SrcFarming.Farming.Offline | src/farming.go:509-546 | refresh, wait 5 s, press Enter 30 times and Escape 10 times a second apart, then Initializing |
| SrcFarming.Farming.Initializing | src/farming.go:549-581 | ready iff the status bar is open, then searching; otherwise `t` is pressed five times two seconds apart and the stage is kept |
| SrcFarming.Farming.Dispatch | src/farming.go:635-666 | the whole new state is the stage's handler's (`Dispatched`): Initializing, searching, attacking, the kill and Offline as their methods state; Escaping and Navigating go to the search; Dead presses Enter and waits the death-confirm time; every field a handler does not name keeps its value, and an attack uses the as-written avoidance move of two draws |
| SrcFarming.DispatchedStages | src/farming.go:635-666 | the stage graph of one dispatch: each stage leads only to the stages its handler names, and events are only appended |
| SrcFarming.ObstructedStages | src/farming.go:269-341 | an attack step on a targeted mob stays in the attack or moves to the search or the kill, and only appends events |
| SrcFarming.Farming.Prepare | src/farming.go:620-633 | the clock set to now, the bars read, the mobs only while searching or navigating, then the restoration and the stage name written |
| SrcFarming.Farming.Step | src/farming.go:601-677 | one loop iteration: `Prepare`'s state, then exactly the dispatch of the restored stage, then one more second when the stats type is positive; each of the three states is stated in full |
| Src2Farming.OfflineSpec | src2/farming.go:610-669 | the reconnect counter stays in [0, 41]; Enter is pressed exactly while the bar is closed and the counter is at most 30, Escape exactly at step 3 with the counter at most 40; the stage ends exactly at step 4 with the counter reset; a pending wait changes nothing |
| Src2Farming.Twos | src2/farming.go:624-641 | a run of `k` frames all answering step 2 |
| Src2Farming.OfflineRunSnoc | src2/farming.go:610-669 | running one more frame extends the counter and the key log by exactly that frame's effect |
| Src2Farming.EnterPhase | src2/farming.go:624-641 | with the bar closed, `k` step-2 frames from counter `c` end at min(c+k, 31) having pressed Enter min(k, 31-c) times |
| Src2Farming.EnterPresses | src2/farming.go:624-641 | while the counter stays at most 30 every step-2 frame presses Enter once |
| Src2Farming.EnterSaturates | src2/farming.go:624-641 | once the counter passes 30 further step-2 frames press nothing |
| Src2Farming.TwosSnoc | src2/farming.go:624-641 | a run of `k` step-2 frames is the run of `k-1` followed by one more |
| Src2Farming.EnterStep | src2/farming.go:624-641 | one closed-bar step-2 frame presses Enter and counts exactly when the counter is at most 30 |
| Src2Farming.ReconnectPresses | src2/farming.go:610-669 | after the page refresh, a reconnection with the bar closed throughout presses Enter exactly 30 times however many frames it gets |
| Src2Farming.Settle | src2/farming.go:688-701 | the reply `Initializing` acts on is the first one other than 2 |
| Src2Farming.InitSpec | src2/farming.go:672-719 | the retry counter stays in [0, 5]; `t` is pressed exactly on the sixth closed check in a row; the stage is left exactly when a check sees the bar open; other replies change nothing |
| Src2Farming.ClosedRunSpec | src2/farming.go:672-719 | `k` closed checks from a fresh counter leave `k mod 6` and press `t` `k div 6` times |
| Src2Farming.DeadSpec | src2/farming.go:577-607 | death is left exactly when a due check reads the bar alive; otherwise each due step presses Enter and waits the death-confirm time |
| Src2Farming.EscapeSpec | src2/farming.go:529-574 | the escape ends exactly at step 3; its steps hold and release `w` and use the board twice, leaving no key held |
| Src2Farming.AvoidStepsSpec | src2/farming.go:288-320 | as written, steps 1-3 of the staged obstacle move with the draws of steps 2 and 3 send the keys of the blocking move with the same two draws, and leave no key held exactly when the draws agree |
| Src2Farming.AvoidIntendedReleases | src2/farming.go:298-312 | the corrected step 3, releasing the arrow step 2 held, always leaves no key held, whatever its own draw |
| Src2Farming.Farming.constructor | src2/farming.go:99-106 | a new loop is Initializing with every counter, timer and flag cleared and no events |
| Src2Farming.Farming.UseSlot | src2/farming.go:722-731 | the page key when the page changes, then the slot key, are appended to the events |
| Src2Farming.Farming.UseIf | src2/farming.go:146-188 | a slot is used only when it is wanted and found |
| Src2Farming.Farming.RestoreHP | src2/farming.go:143-164 | food, else the pill, else Escaping when HP is below the escape threshold; the stage changes only in that last case |
| Src2Farming.Farming.TopUp | src2/farming.go:166-188 | MP, FP and buff slots are used exactly per the restoration rules |
| Src2Farming.Farming.Replenish | src2/farming.go:138-188 | the HP part then the top-up part, with the stage set only by the HP part |
| Src2Farming.Farming.Restore | src2/farming.go:109-188 | a closed bar, death and the watchdog switch to Initializing, Dead and Offline first; those stages skip restoration; otherwise the replenishment events are sent |
| Src2Farming.Farming.Pickup | src2/farming.go:205-218 | the pet when one is found, else ten pickups when a pickup slot is found, else nothing |
| Src2Farming.Farming.AfterEnemyKill | src2/farming.go:191-229 | step 1 counts the kill, stamps its time and waits the defeat interval; step 2 picks up and returns to searching; a pending wait changes nothing |
| Src2Farming.Farming.AvoidObstacle | src2/farming.go:288-325 | the whole new state (`AvoidStep`) of one step of the staged obstacle move as written; step 3 releases the arrow of its own draw, which is the held one exactly when the two draws agree, counts the attempt and restarts the HP timer |
| Src2Farming.Farming.FinishAttack | src2/farming.go:337-361 | the whole new state (`Finished`): a timed-out attack gives up with Escape; a dead target moves to AfterEnemyKill with the obstacle count reset; otherwise the attack slot is used; nothing else changes |
| Src2Farming.TrackHP | src2/farming.go:267-273 | `LastHP` becomes the lower of itself and the target's HP, and only `LastHP` and its timer change |
| Src2Farming.Farming.Engage | src2/farming.go:251-361 | the whole new state (`Engaged`): `LastHP` tracked, then the stalled-HP handling or the end of the attack as `Unstick` states |
| Src2Farming.Farming.Unstick | src2/farming.go:275-361 | the whole new state (`Obstructed`): a target stalled past the threshold is cancelled when never hit, given one as-written obstacle step while attempts are left (ending the frame), and given up otherwise; a target not stalled has its attack finished |
| Src2Farming.Farming.Attacking | src2/farming.go:232-361 | the whole new state (`Attacked`): a lost target counts a retry and falls back to searching on the fifth; a present target clears the counter; an NPC target is cancelled with Escape; a mob target is engaged |
| Src2Farming.Farming.ClickMob | src2/farming.go:410-447 | careful mode on more than seven mobs, else the forward walk stopped and the centre of the first aggressive, passive or violet mob clicked |
| Src2Farming.Farming.Turn | src2/farming.go:451-517 | one sweep turn: rotate while turns remain, look down then up, then navigate or walk forward for 20-40 s and reverse |
| Src2Farming.Farming.StopExpiredWalk | src2/farming.go:520-525 | a forward walk past its deadline is stopped and the look cycle restarts |
| Src2Farming.Farming.Sweeping | src2/farming.go:451-525 | a turn followed by the expiry check |
| Src2Farming.Farming.SearchingForEnemy | src2/farming.go:364-526 | an NPC target is cancelled; a mob target starts the attack with fresh timers; visible mobs are clicked; otherwise the sweep runs |
| Src2Farming.Farming.Escaping | src2/farming.go:529-574 | one escape step, leaving the stage exactly when the escape completes |
| Src2Farming.Farming.Dead | src2/farming.go:577-607 | one death step, returning to Initializing exactly when revived |
| Src2Farming.Farming.Offline | src2/farming.go:610-669 | one reconnection step, per `OfflineSpec` |
| Src2Farming.Farming.Initializing | src2/farming.go:672-719 | replies of 2 clear the context and retry, so only the first other reply acts; the stage becomes searching exactly when that reply sees the bar open |
| Src2Farming.Farming.Resume | src2/farming.go:191-669 | the whole new state of each waiting stage's handler for its reply (`Resumed`): the kill step, the escape, death and reconnection steps each change only the fields they name, and the other stages change nothing |
| Src2Farming.Farming.Dispatch | src2/farming.go:774-800 | the whole new state is the stage's handler's for its replies (`Dispatched`); Navigating falls back to searching; every field a handler does not name keeps its value, and an attack frame takes one as-written obstacle step |
| Src2Farming.DispatchedStages | src2/farming.go:774-800 | the stage graph of one dispatch: each stage leads only to the stages its handler names, and events are only appended |
| Src2Farming.ObstructedStages | src2/farming.go:275-361 | an attack step on a targeted mob stays in the attack or moves to the search or the kill, and only appends events |
| Src2Farming.Farming.Sense | src2/farming.go:739-765 | the clock set to now, the bars read, the mobs only while searching or navigating, nothing else changed |
| Src2Farming.Farming.Prepare | src2/farming.go:739-771 | the readings, then the restoration and the stage name written |
| Src2Farming.Farming.Step | src2/farming.go:734-813 | a frame is `Prepare`'s state followed by exactly the dispatch of the restored stage, both stated in full |
| Support.StateNameSpec | src/support.go:58-79 | each of the eight states has a name of its own, and every other value reads "Unknown" |
| Support.ToggleSpec | src/support.go:431-436 | the circle move's side key alternates between "A" and "D", and toggling twice returns to the start |
| Support.CirclePanicsAsWritten | src/support.go:419-437 | as written, the circle move goes through a coordinator that is never set and fails at its first key; through a set coordinator every key is delivered |
| Support.CheckRangeSpec | src/support.go:382-416 | in range exactly when a distance was measured and it is at most the follow distance; out of range the first time seen far is kept; the circle move is made when nothing was measured, beyond twice the distance, or when the target has drifted further for over 3 s |
| Support.FollowNextSpec | src/support.go:206-244 | following continues exactly when the target, life, range, heal, buff and self-buff checks all pass; healing only for a live target in range below the threshold; buffing only with buff slots; self-buffing only in a party |
| Support.BuffRunSpec | src/support.go:281-307 | with `n` buff slots a round takes exactly `n` calls, and after `k` calls the counter is `k` and the round is over exactly at `k == n` |
| Support.BuffStepEmpty | src/support.go:281-307 | without buff slots the first call ends the round |
| Support.ResurrectNextSpec | src/support.go:347-379 | following resumes exactly when no dead target is left or the awaited target shows HP; a revive is awaited exactly while the state stays Resurrecting |
| Support.PartyCalls | src/support.go:483-494 | one slot call per party skill, in order |
| Support.SelfHealSpec | src/support.go:497-538 | nothing above the heal threshold; heal slots before area heals, which are used only without heal slots; the target is dropped for a self-heal only in a party |
| Support.SupportBehavior.constructor | src/support.go:113-121 | a new behaviour has no target, timers started now, no wait, no buffing, and side key "D" |
| Support.SupportBehavior.GetState | src/support.go:58-79 | the state's name is "Unknown" exactly for a value outside the eight states |
| Support.SupportBehavior.Wait | src/support.go:541-549 | a pending wait is lengthened, otherwise one is started now |
| Support.SupportBehavior.WaitCooldown | src/support.go:552-560 | waiting while a pending wait runs; a finished wait is cleared |
| Support.SupportBehavior.MoveCirclePattern | src/support.go:419-437 | the circle move is made in full and the side key switches |
| Support.SupportBehavior.IsTargetInRange | src/support.go:382-416 | the answer and the new distance bookkeeping are those of `CheckRange`, with the circle move made when it says so |
| Support.SupportBehavior.FollowTarget | src/support.go:459-463 | Z is pressed exactly when there is a target |
| Support.SupportBehavior.OnNoTarget | src/support.go:188-195 | in a party the leader is selected with a 500 ms wait and the state becomes TargetSelected; alone nothing happens |
| Support.SupportBehavior.OnFollowing | src/support.go:206-244 | the next state is `FollowNext` of this frame's checks, with the range check made only for a live target on screen and Z pressed when following goes on |
| Support.SupportBehavior.OnTooFar | src/support.go:247-257 | follow, and return to Following exactly once in range |
| Support.SupportBehavior.OnHealing | src/support.go:260-278 | a heal and a 2 s wait, else three area heals and a 100 ms wait, else nothing; then Following |
| Support.SupportBehavior.OnBuffing | src/support.go:281-307 | one buff per call with a 2.5 s wait, until every buff slot has had its turn; the buff time is stamped when the round ends |
| Support.SupportBehavior.OnSelfBuffing | src/support.go:310-344 | the target is dropped, then buffing as `OnBuffing`; once done the state returns to NoTarget |
| Support.SupportBehavior.OnResurrecting | src/support.go:347-379 | the resurrection is cast once with a 3 s wait, then the state waits until the target shows HP |
| Support.SupportBehavior.RunStateMachine | src/support.go:164-185 | the whole new state and the next state are the current state's handler's (`Handled`); TargetSelected follows exactly when there is a target; an unknown state falls back to NoTarget changing nothing |
| Support.HandledStates | src/support.go:164-185 | the state graph: every step lands on a named state, keeps the target flag, only appends calls, and moves only along its handler's edges |
| Support.WaitsAdd | src/support.go:541-549 | two waits added at the same instant are one wait of their sum |
| Support.SupportBehavior.UsePartySkills | src/support.go:483-494 | every party skill is used, each adding 100 ms to the wait |
| Support.SupportBehavior.CheckSelfRestorations | src/support.go:497-538 | the self-heal then the MP/FP restoration calls, with a 2 s wait exactly when the target is dropped for a heal |
| Support.SupportBehavior.RandomCameraMovement | src/support.go:474-480 | a short turn when more than 10 s have passed since the last one, else nothing |
| Support.Turned | src/support.go:474-480 | the camera turn keeps the state and only appends calls |
| Support.SupportBehavior.Prepare | src/support.go:140-147 | the whole new state: party skill calls with 100 ms of wait each, the self-restoration calls with a 2 s wait when the target is dropped to heal, and the target flag read from the screen |
| Support.SupportBehavior.Run | src/support.go:129-161 | nothing while dead; otherwise `Prepare`'s state, then a running wait changes nothing more, and a finished or absent one is cleared before the camera turn and one handler step (`Advanced`) |
| Support.PreparedAdvanced | src/support.go:129-161 | a live run's target flag follows the screen, the party skills come first, a fresh party cast starts a wait, a selected target is followed exactly when one is on screen, and the state stays named |
| Support.SupportBehavior.Advance | src/support.go:154-158 | the camera turn, then one handler step whose next state is stored (`Advanced`) |
| Support.SupportBehavior.Stop | src/support.go:563-569 | no target, no buffing, no wait, state NoTarget |
| Shout.StateName | src/shout.go:36-45 | "Idle" and "Shouting" name exactly their states, "Unknown" every other value |
| Shout.ShoutInputs | src/shout.go:168-191 | a message blank after trimming sends nothing; otherwise eight inputs: Enter, type the message, Enter to send, Escape to close, with pauses between |
| Shout.NextMessage | src/shout.go:152-165 | "" for an empty list; else the trimmed current message with the index moved on cyclically; an index past the end of a non-empty list is an out-of-range failure |
| Shout.Calls | src/shout.go:152-165 | `k` successive calls give `k` results |
| Shout.ModStep | src/shout.go:161 | advancing the index cyclically and then by j-1 is advancing by j |
| Shout.CallsHead | src/shout.go:152-165 | the first of several calls from a valid index returns that index's trimmed message and moves on cyclically |
| Shout.CallsAt | src/shout.go:152-165 | call j from a valid index returns message (index + j) mod n |
| Shout.CallsCycle | src/shout.go:152-165 | from a valid index the messages come round in order, each trimmed |
| Shout.ShorterListStrandsIndex | src/shout.go:91-101 | replacing the list by a shorter one keeps the index, so an index valid for the old list can be out of range for the new one |
| Shout.ShorterListExample | src/shout.go:91-101 | two messages with the second current, replaced by one message: the next call is out of range |
| Shout.ShoutBehavior.constructor | src/shout.go:64-72 | idle, no messages, a 30 s interval, index 0, the clock started now |
| Shout.ShoutBehavior.GetState | src/shout.go:75-77 | "Unknown" exactly for a state other than Idle and Shouting |
| Shout.ShoutBehavior.UpdateConfig | src/shout.go:91-101 | only a non-empty list replaces the messages and only a positive interval the interval; the index is left alone |
| Shout.Configured | src/shout.go:91-101 | the refresh keeps the state, index, clock and inputs, and keeps the messages exactly when no different non-empty list is given |
| Shout.ShoutBehavior.GetNextMessage | src/shout.go:152-165 | returns what `NextMessage` gives and moves the index on, keeping a valid index valid |
| Shout.ShoutBehavior.OnIdle | src/shout.go:116-142 | nothing before the interval; then no messages or a blank one only restart the clock (the index passing the blank one); an out-of-range index is an error; otherwise the message is shouted and the state becomes Shouting |
| Shout.ShoutBehavior.OnShouting | src/shout.go:145-149 | back to Idle with the clock restarted |
| Shout.ShoutBehavior.Run | src/shout.go:80-113 | the configuration refresh then exactly one step (`Ran`): from Idle the `onIdle` outcome with its error passed on, from Shouting back to Idle with the clock restarted, an unknown state back to Idle; a valid index with no new list never fails |
| Shout.RanIdle | src/shout.go:80-142 | from Idle, once the interval has passed with messages, a run fails exactly for an index out of range and shouts exactly when the current message is not blank; the state stays named and inputs are only appended |
| Shout.ShoutBehavior.Stop | src/shout.go:194-196 | back to Idle, nothing else touched |
| Shout.ShoutTypesTrimmed | src/shout.go:127-136 | a shout is sent only for a message not blank after trimming, and it types exactly the trimmed message |
| Utils.Clamp | src/utils.go:98-106 | with `lo <= hi` the result is in range; a value below `lo` yields `lo`, otherwise the smaller of the value and `hi`, even when `lo > hi` |
| Utils.ClampIdempotent | src/utils.go:98-106 | clamping twice into the same range clamps once |
| Utils.ClampReal | src/utils.go:109-117 | the same two tests over reals: in range for `lo <= hi`, the value itself when inside |
| Utils.ClampRealIdempotent | src/utils.go:109-117 | clamping twice into the same range clamps once |
| Utils.DurationFields | src/utils.go:78-89 | for a non-negative duration the hours, minutes in [0, 60) and seconds in [0, 60) add back up to the whole seconds |
| Utils.FieldsSplit | src/utils.go:78-89 | whole minutes and hours are whole seconds and minutes divided by 60 |
| Utils.FormatDurationForm | src/utils.go:78-89 | "Xh Ym Zs" from one hour, "Ym Zs" from one minute, "Zs" below, with fields that add back up to the whole seconds |
| Utils.LeadingFields | src/utils.go:78-89 | the hours field is non-zero exactly from one hour and the minutes field from one minute below an hour |
| Utils.RateLimiter.constructor | src/utils.go:139-143 | the interval as given and the last execution at the zero time |
| Utils.RateLimiter.Allow | src/utils.go:146-156 | fires exactly when at least the interval has passed since the last execution, and then records now; otherwise nothing changes |
| Utils.RateLimiter.Reset | src/utils.go:159-163 | the last execution goes back to the zero time |
| Utils.AllowsAfterReset | src/utils.go:146-163 | after a reset the next call fires, since the distance from the zero time saturates at the largest duration |
| Utils.RefusesImmediateRepeat | src/utils.go:146-156 | with a positive interval an immediate repeat is refused |
| Utils.AllowsLater | src/utils.go:146-156 | waiting longer never turns a firing call into a refusal |
| Tray.FirstIndex | tray.go:397-404 | the index of the first occurrence of the slot, or the length when it is absent |
| Tray.ToggledCounts | tray.go:395-409 | a click removes one occurrence of a present slot or adds one of an absent slot, and no other element's count changes |
| Tray.ToggledFlips | tray.go:395-409 | in a list without repeats a click flips the slot's membership and leaves every other element's membership alone |
| Tray.ToggledDistinct | tray.go:395-409 | a click keeps a list free of repeats |
| Tray.ToggleTwice | tray.go:395-409 | two clicks on the same slot restore the original set of slots |
| Tray.ToggleSlot | tray.go:395-409 | the scan-then-splice-or-append loop computes the toggled list |
| Tray.TrayConfig.HandleSlotClick | tray.go:371-421 | the clicked list is toggled and every other list, the pickup choices and the cooldowns are unchanged |
| Tray.TrayConfig.HandlePickupPetSlotClick | tray.go:573-599 | the pet slot is disabled (-1) when the clicked slot was selected, else selected; nothing else changes |
| Tray.TrayConfig.HandlePickupMotionSlotClick | tray.go:602-628 | the same toggle for the motion slot; nothing else changes |
| Tray.TrayConfig.HandleSlotCooldownChoice | tray.go:668-680 | a choice of 0 deletes the slot's cooldown, any other value stores it; nothing else changes |
| Tray.RadioClick | tray.go:577-584 | the clicked slot is selected exactly when it was not selected; otherwise the choice becomes -1 |
| Tray.RadioClickTwice | tray.go:577-584 | a click on an unselected slot selects it and a second click disables it |
| Tray.CooldownChoice | tray.go:674-679 | the slot has an entry exactly for a non-zero choice, holding that choice; every other slot's entry is kept |
| Tray.SlotCheckmarks | tray.go:459-474 | ten marks, mark `i` set exactly when `i` is in the configured list |
| Tray.ThresholdCheckmarks | tray.go:490-499 | eleven marks, mark `i` set exactly when i × 10 equals the threshold |
| Tray.ThresholdCheckmarksAtMostOne | tray.go:490-499 | at most one threshold mark is set, and one is exactly when the threshold is a multiple of ten from 0 to 100 |
| Tray.RadioCheckmarks | tray.go:507-529 | ten marks, mark `i` set exactly when `i` is the chosen slot, so a disabled choice (-1) sets none |
| Browser.FormatInt | browser.go:49-51 | the text is a decimal numeral that reads back as the number |
| Browser.FormatIntSlice | browser.go:63-72 | the loop builds the numbers joined by ", " |
| Browser.Decimals | browser.go:63-72 | one numeral per number, in order |
| Browser.FormatIntSliceShape | browser.go:63-72 | the empty slice prints as "" and only it does; one number prints as its numeral alone |
| Browser.JoinNonEmpty | browser.go:63-72 | a non-empty list of numerals never joins to "" |
| Browser.Browser.constructor | browser.go:114-118 | a new browser has an empty action log |
| Browser.Browser.LogAction | browser.go:121-134 | the entry is appended and only the newest ten are kept, newest last |
| Browser.Browser.GetActionLogs | browser.go:137-144 | the copy equals the current log |
| Browser.Browser.GetRecentLogs | browser.go:323-340 | the last min(5, n) entries |
| Browser.GetScreenBounds | browser.go:318-320 | an 800 by 600 rectangle at the origin |
| Action.EscapeRune | action.go:405-422 | a quote, backslash, newline or carriage return becomes a two-rune backslash form; every other rune is copied |
| Action.EscapeJavaScriptString | action.go:405-422 | the rune-by-rune loop computes the escape of the whole string |
| Action.EscapePlain | action.go:405-422 | a string without the four special runes is returned unchanged |
| Action.EscapeShape | action.go:405-422 | the output is never shorter than the input and holds no raw newline or carriage return |
| Action.EscapeConcat | action.go:405-422 | escaping distributes over concatenation |
| Action.UnescapeRune | action.go:405-422 | decoding undoes the escape of one rune |
| Action.EscapeRoundTrip | action.go:405-422 | decoding the escapes gives the original string back |
| Action.KeyModeName | action.go:130-142 | press, hold and release have their words and every other mode is an error |
| Action.SendKey | action.go:121-172 | an invalid browser context fails first; otherwise the call succeeds exactly for a known key mode |
| Action.KeyModesDistinct | action.go:130-142 | the three key modes have three different words |
| Action.MouseEvent | action.go:262-317 | exactly the six mouse modes have a mouse event |
| Action.MouseModesDistinct | action.go:262-317 | the six mouse modes map to six different events |
| Action.Click | action.go:262-317 | an invalid context fails first; otherwise the call succeeds exactly for the six mouse modes |
| Action.SendMessage | action.go:355-387 | the script carries the escaped text and the log the raw text; an invalid context fails |
| Action.SendSlot | action.go:199-228 | fails exactly for an invalid context |
| WebView.Find | opencv/test_webview.py:321-323 | the index of the first occurrence of the character, or the length when it is absent |
| WebView.Split | opencv/test_webview.py:321 | at least one piece, and no piece holds the separator |
| WebView.SplitJoin | opencv/test_webview.py:321 | joining the pieces with the separator gives the string back |
| WebView.SplitFirst | opencv/test_webview.py:323 | the key holds no '=' and key, '=' and value rebuild the piece |
| WebView.KeyIndex | opencv/test_webview.py:324 | the position of the key in the dictionary, or its size when absent |
| WebView.AssignSpec | opencv/test_webview.py:324 | the assigned key maps to the new value, every other key keeps its value, and keys stay distinct |
| WebView.ParseCookies | opencv/test_webview.py:309-330 | nothing for a missing or empty cookie string; otherwise the dictionary of its `key=value` pieces |
| WebView.ParsedSpec | opencv/test_webview.py:318-324 | the parsed keys are distinct and hold no '=' |
| WebView.LaterPieceWins | opencv/test_webview.py:318-324 | the last piece with '=' decides its key's value |
| WebView.PieceWithoutEqualsIgnored | opencv/test_webview.py:322 | a piece without '=' changes nothing |
| WebView.RestoreCookies | opencv/test_webview.py:332-347 | one `document.cookie` assignment per entry, in dictionary order, none for an empty dictionary |
| WebView.SleepTime | opencv/test_webview.py:183-187 | the pause is never negative, fills the frame period when processing was shorter, and is zero when it was longer |
| GoInt.Div | data.go:114-121 | Go's division truncates toward zero: it agrees with floor division on non-negative operands, and halving keeps the sign and at most half the magnitude |
| GoInt.Rem | src/utils.go:78-89 | Go's remainder: dividend = quotient × divisor + remainder, smaller than the divisor in magnitude, with the dividend's sign |
| GoInt.RemBounds | src/utils.go:78-89 | the remainder is the magnitude remainder, negated for a negative dividend |
| GoInt.HalfBounds | data.go:114-121 | halving a non-negative amount gives at most half of it, a non-positive one at least half, and the two halves plus the remainder rebuild it |
| GoInt.Abs | analyzer.go:544-550 | the magnitude, either the value or its negation |
| GoInt.Max | analyzer.go:552-558 | the larger of the two, one of them |
| GoInt.Min | analyzer.go:560-565 | the smaller of the two, one of them |
| GoInt.Trunc | map/detect_map_points.py:129-130 | `int()` of a real truncates toward zero, within one of the value |
| GoInt.Wrap64 | src/shout.go:98-100 | a 64-bit signed product wraps into range, agreeing with the value when it fits |
| Text.DigitChar | browser.go:49-51 | the digit character of a digit value |
| Text.DigitValue | browser.go:49-51 | the value of a digit character, inverse to `DigitChar` |
| Text.NatDigits | browser.go:49-51 | a non-empty run of digits without a leading zero |
| Text.Decimal | browser.go:49-51 | a decimal numeral, starting with '-' exactly for a negative number |
| Text.NatDigitsRoundTrip | browser.go:49-51 | reading the digits back gives the number |
| Text.DecimalRoundTrip | browser.go:49-51 | reading the numeral back gives the number |
| Text.DecimalInjective | browser.go:49-51 | different numbers print differently |
| Text.Join | browser.go:63-72 | no parts join to "", one part to itself |
| Text.JoinSnoc | browser.go:63-72 | one more part adds the separator and the part at the end |
| Text.StripLeftSpec | src/shout.go:164 | the left trim is a suffix that starts with a non-space, and everything cut was space, for Go's and for Python's whitespace |
| Text.StripRightSpec | src/shout.go:164 | the right trim is a prefix that ends with a non-space, and everything cut was space, for Go's and for Python's whitespace |
| Text.StripSpec | src/shout.go:164 | the trim is a slice of the string with only spaces cut on both sides and non-spaces at both ends, for Go's and for Python's whitespace |
| Text.StripKeeps | src/shout.go:164 | every non-space character survives the trim, for Go's and for Python's whitespace |
| Text.SpaceSets | src/shout.go:164 | Go's `unicode.IsSpace` set lies inside Python's `str.isspace` set, which adds exactly U+001C to U+001F |
| Text.StripIdempotent | src/shout.go:164-170 | trimming twice trims once |
| Sorting.ExchangeSort | src2/debug_status.go:1574-1580 | the exchange sort leaves the array sorted by the key and a permutation of its old contents |
| Sorting.SmallestToFront | src2/debug_status.go:1575-1579 | one outer round puts the smallest remaining element at position `i`, keeping a permutation |
| Sorting.Swap | src2/debug_status.go:1577 | the two elements exchange places and nothing else moves |
| Sorting.Runs | data.go:214-221 | a non-empty list of at most as many runs as elements |
| Sorting.RunsShape | data.go:214-221 | every run is non-empty and the last run ends with the last element |
| Sorting.RunsFlatten | data.go:214-221 | concatenating the runs gives the input back |
| Sorting.RunsLinked | data.go:214-221 | within a run each element is near its predecessor |
| Sorting.RunsBreak | data.go:214-221 | across a run boundary the two elements are not near |
| Sorting.SplitRuns | data.go:214-221 | the loop computes exactly the runs |
| Sorting.RunsAreRunsOf | data.go:214-221 | the scan's runs cut the list into non-empty, linked pieces broken from each other |
| Sorting.RunsUnique | data.go:214-221 | any cut of the list into linked pieces broken from each other is the scan's: the runs are the maximal ones |
| Sorting.SortDesc | opencv/test_map.py:313 | the sort keeps the length |
| Sorting.InsertDescPerm | opencv/test_map.py:313 | an insertion adds exactly the new element |
| Sorting.InsertDescSorted | opencv/test_map.py:313 | an insertion keeps a list sorted by descending key |
| Sorting.SortDescSpec | opencv/test_map.py:313 | sorted by descending key and a permutation of the input |
| Sorting.Filter | opencv/test_map.py:321 | the filter never lengthens the list |
| Sorting.FilterSpec | opencv/test_map.py:321 | exactly the kept elements remain, a sub-multiset of the input |
| Sorting.FilterSortedDesc | opencv/test_map.py:321 | filtering keeps descending order |
| ImageRect.Rect | src2/debug_target.go:736 | a well-formed rectangle whose corners are the given ones, swapped on an axis where they are inverted |
| ImageRect.RectCorners | src2/debug_target.go:736 | ordered corners are kept as given, and the width and height are the absolute differences |
| ImageRect.Translate | src2/debug_target.go:920-925 | a well-formed rectangle is shifted by the offset and keeps its size |
| ImageRect.FirstFitSpec | src2/debug_target.go:641-676 | the chosen contour is the first whose both sides are within the size range, and none is chosen exactly when none fits |
| ImageRect.FirstMatch | src2/debug_target.go:641-676 | the loop picks exactly the first fitting rectangle |
| ImageRect.BarsInSpec | src2/debug_target.go:907-932 | every kept bar is a fitting contour shifted to absolute coordinates, every fitting contour is kept, and no more bars than contours |
| ImageRect.CollectBars | src2/debug_target.go:907-932 | the loop collects exactly those bars |
| ImageRect.BlockSize | src2/debug_target.go:543-549 | an odd block size of at least 3, an odd one of at least 3 kept as given |
| ImageRect.BlurSize | src2/debug_status.go:358-363 | an odd blur size of at least 1, an odd positive one kept as given |
| ImageRect.KernelSide | src2/debug_target.go:568-575 | a kernel side of at least 1, a positive one kept as given |
| ImageRect.NormaliseIdempotent | src2/debug_target.go:543-575 | normalising a size twice normalises it once |
| BarFill.FillFromSpec | src2/debug_status.go:1326-1340 | the scan from a column finds one past the rightmost lit column before it, or 0 when none is lit |
| BarFill.FillSpec | src2/debug_status.go:1326-1340 | the fill width is one past the rightmost column holding a lit pixel, 0 exactly when none does, and every column from it on is dark |
| BarFill.FillWidth | src2/debug_status.go:1326-1340 | the nested loops compute exactly that fill width |
| BarFill.ColumnSumPositive | src2/debug_target.go:1001-1012 | a column's pixel sum is positive exactly when one of its pixels is lit |
| BarFill.ColumnSumFill | src2/debug_target.go:1001-1012 | the column-sum scan gives the same fill width as the pixel scan |
| Selection.ScanSpec | opencv/test_arrow.py:313-346 | the kept candidate is the first one with the best score above the start, or none with the start score when nothing beats it |
| Selection.ScanFinds | opencv/test_arrow.py:368-377 | a candidate is kept exactly when some candidate beats the starting score |
| History.Recent | browser.go:323-340 | the last min(n, length) entries |
| History.AppendedNewestLast | browser.go:121-134 | the log never exceeds its capacity and the new entry is last |
| History.AppendedKeepsRecent | browser.go:121-134 | the new log is the newest capacity-1 old entries followed by the new one |
| History.AppendedShift | browser.go:121-134 | below capacity the entry is appended; at capacity the oldest entry drops out |
| Clock.Sub | src/utils.go:151 | the difference of two times, saturated at the smallest and largest duration |
| Clock.Milliseconds | src2/config.go:404-425 | whole milliseconds of a duration, truncated toward zero |
| Clock.FromMilliseconds | src/shout.go:98-100 | a millisecond count becomes that many milliseconds when it fits in a duration |
| Clock.SubSign | src2/config.go:404-425 | the difference is positive exactly when the first time is later, and zero exactly when they are equal |

## Left out

- Browser automation: chromedp sessions, page capture, cookies in the browser, `Close`, and the result of evaluating a script. Each action yields the script and log entry it would produce; a failing evaluation is not modelled.
- OpenCV and numpy primitives: colour conversion, `inRange`, morphology, contour search, bounding rectangles, areas, perimeters, moments, template matching, Hough circles, rotated rectangles, convex hulls and eigenvectors. Their results are inputs.
- Floating point: arithmetic on `float64`/Python floats is done over exact reals, and `sqrt`, `atan2`, `arccos` and `arctan2` are inputs. Where only integers meet, `sqrt(d) < r` becomes `d < r * r`, and `int(math.Sqrt(d))` becomes the integer square root.
- Stats.Percentage: computed over exact rationals, so 29 of 100 pixels gives 29, where `float64` arithmetic (src/stats.go:274-275) gives 28.
- DebugStatus.BlendSpec: the 0.7/0.3 blend (src2/debug_status.go:1736-1741) is over exact rationals, not binary floats.
- DebugTarget.Percentage: the bar percentage is an exact rational.
- Time: `time.Now`, `time.Since` and `time.Sleep` become integer clock parameters and clock advances. The Go clock is nanoseconds in `Clock`, and the behaviours count milliseconds. Support reads the time once per `Run`.
- Randomness: every `rand.Intn` draw is a parameter limited to the drawn range.
- The movement coordinator, the browser's key and mouse calls and the sleeps inside them are a trace of calls. Their delivery is not modelled, except where the coordinator lacks its action (the finding below).
- `SwitchWaitCtx`/`SetupWaitCtx` of the src2 loop are not part of this model. Their reply is an input, and their arguments are recorded in a map.
- Concurrency: mutexes, goroutines, channels and the tray's event loops. Every handler is one sequential call.
- Persistence: JSON, configuration files, `SaveStatus`, `saveStat` and status strings written for the overlay. `cfg.UpdateStage` is modelled as the stored stage name only.
- Logging: `Log`, `LogDebug` and `fmt.Printf` output.
- Data.PointCloud.ClusterByDistance: uses one exchange sort where the source calls `sort.Slice`, whose order among equal keys is unspecified. Independence from the input order is proved only for the bounds of a point set (`Data.BoundsOfBySet`), not for the whole cluster list.
- SrcFarming.Farming.AvoidObstacle: the loop keeps the release as written (two separate draws), so `SrcFarming.Farming.Step` inherits the stuck-key behaviour of the finding below; the corrected move is `FarmStages.AvoidEvents`, proved to release what it holds (`FarmStages.AvoidEventsReleased`) apart from the loop.
- Src2Farming.Farming.AvoidObstacle: the loop keeps the release as written (step 3 draws its own arrow), so `Src2Farming.Farming.Step` inherits the stuck-key behaviour of the finding below; the corrected step is `AvoidReplyIntended`, proved apart from the loop.
- TestTemplate.MatchMultiscale: the scale loop is modelled with the corrected location loop `CollectScale`; the as-written loop `CollectScaleAsWritten` is proved apart and agrees with it without down-scaling.
- TestMain.DetectTargetStats and TestMain.DetectStats: a `Region` that leaves the frame is reported as a `fault` result rather than the OpenCV error it raises.
- Src2Farming.Farming.Initializing: the replies of the recursive calls made after a reply of 2 are a finite list given in advance.
- TestMap.ScanScales: the scale loop terminates only for a positive step (`TestMap.ZeroStepNeverEnds`), so the model requires one.
- Action.SendKey, Action.Click and Action.SendSlot: the contracts state when the call succeeds. The script text is the format string itself, and no separate property is stated about it.
- Utils: `Timer` and `SafeGo` (wall-clock logging and panic recovery) and `FormatFloat` (float printing) are not modelled.
- The rest of farming.go is not modelled: `Run`, `runStateMachine`, the search, attack, obstacle, restoration and party-skill steps, and `String`/`GetState`. They move the character through the movement coordinator; the modelled part is their bookkeeping.
- The stats accessors `GetHPPercent`, `GetMPPercent` and `GetFPPercent` are not modelled: they read a field.
- src/test/main.go: `calculateArrowDirection` is the input angle, and `DrawResult` and `main` are drawing and I/O.
- The Python tools' windows, trackbars, drawing, FPS counter and configuration reload loop are not modelled.

## Findings

| source | as written | input that shows it | evidently intended | confidence | as-written member | corrected member |
|---|---|---|---|---|---|---|
| opencv/test_template.py:199-203 | each match of a scale divides `scaled_w`/`scaled_h` by the resize factor again, in the variables the next match reuses | two hits of a 10x10 template at resize factor 0.5: the second is reported 40 wide | every match of the scale is 20 wide, the template size restored once | high, not executed | TestTemplate.RestoreCompounds | TestTemplate.CollectScale |
| src/test/main.go:144-158 | the guard only asks for 80 rows, but the target bars are read at rows 145-152 | a 400×100 frame passes the guard, and both bar regions lie below its last row | the guard asks for a frame tall enough for both regions | medium, not executed | TestMain.TargetGuardAdmitsShortFrame | TestMain.DetectTargetStatsCorrected |
| src/farming.go:288-301 | the arrow held and the arrow released come from two separate `rand.Intn(2)` draws | draws 0 then 1: ArrowLeft is held and never released, and ArrowRight is released without being held | the arrow that was held is released | high, not executed | SrcFarming.Farming.AvoidObstacle | FarmStages.AvoidEventsReleased |
| src/support.go:419-437 | the circle move builds its own coordinator with only the screen information, so it has no action to send keys through | any call of the circle move: its first key dereferences a nil action | the move goes through the behaviour's coordinator and reaches the browser | medium, not executed | Support.CirclePanicsAsWritten | Support.SupportBehavior.MoveCirclePattern |
| src2/farming.go:299-312 | step 2 of the staged obstacle move holds the arrow of one `rand.Intn(2)` draw and step 3 releases the arrow of another | draws 0 at step 2 and 1 at step 3: ArrowLeft stays held and ArrowRight is released without being held | step 3 releases the arrow step 2 held | high, not executed | Src2Farming.AvoidStepsSpec | Src2Farming.AvoidIntendedReleases |
