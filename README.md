# Sock detection core, modelled in Dafny

This project models the image-analysis core of a sock-pairing web app: `app/utils/sockDetection.ts`.
Given an RGBA frame (a browser `ImageData`), the detector works in four stages:

1. It scans a coarse grid of seed pixels (`findColorRegions`).
2. It grows each seed into a colour-coherent blob by an 8-neighbour flood fill (`growRegion`). It keeps blobs that look like socks: tall, large enough, not background.
3. It describes each blob's texture by grey-level samples, edges and a dominant direction (`getTextureFeatures`).
4. It scores every pair of blobs on overlap, size, colour and texture (`textureDifference`). It then picks non-overlapping pairs greedily, best first (`findMatchingPairs`).

Modules, one file each:

- `Pixels` (pixels.dfy): colours, the frame, pixel addressing, `getPixelColor`, `colorDifference` and `isSurfaceColor`.
- `Grower` (grower.dfy): the `Settings` and `Region` records, and `growRegion` as an imperative flood fill over an `array2<bool>` of visited marks.
- `Scanner` (scanner.dfy): `findColorRegions`, the grid scan with the brightness and shape filters.
- `Textures` (textures.dfy): the `Texture` record and `getTextureFeatures`, as nested sampling loops. They are proved against a fold over the sample sequence they visit.
- `Comparator` (comparator.dfy): `textureDifference`. This covers the normalisation, the sliding-window correlation, the density and contrast ratios and the blend.
- `Matcher` (matcher.dfy): `findMatchingPairs`. This covers the size sort, the pair filters and scores, the candidate loops and the greedy selection.

Numbers are exact: pixel bytes and counts are `int`, and JavaScript doubles are `real`. `Math.round`, `Math.floor` and the clamps are written out. Where the source divides, the model also proves the integer form of the test; for example, the overlap test `overlap / minArea > 0.3` is the same as `10 * overlap > 3 * minArea`.

## Model

| member | source | states |
|---|---|---|
| Pixels.GetPixelColor | app/utils/sockDetection.ts:40-47 | reading an in-frame pixel yields a colour whose three channels are bytes |
| Pixels.PixelOffsetInBuffer | app/utils/sockDetection.ts:41 | the four bytes of every in-frame pixel lie inside the RGBA buffer |
| Pixels.PixelOffsetInjective | app/utils/sockDetection.ts:41 | two in-frame pixels with the same byte offset are the same pixel |
| Pixels.ColorDifference | app/utils/sockDetection.ts:49-53 | the distance is non-negative, zero exactly for equal colours, and at most 765 for byte colours |
| Pixels.ColorDifferenceSymmetric | app/utils/sockDetection.ts:49-53 | the colour distance does not depend on argument order |
| Pixels.ColorDifferenceTriangle | app/utils/sockDetection.ts:49-53 | the colour distance obeys the triangle inequality |
| Pixels.IsSurfaceColor | app/utils/sockDetection.ts:55-59 | true exactly when some surface colour is strictly closer than the threshold; always false for an empty list |
| Pixels.Luma | app/utils/sockDetection.ts:107 | the weighted grey level of a byte colour is in 0..255, and a grey colour maps to its own level |
| Pixels.Brightness | app/utils/sockDetection.ts:227 | the channel mean of a byte colour is in 0..255, and a grey colour maps to its own level |
| Grower.Neighbors | app/utils/sockDetection.ts:279-282 | the eight listed points are exactly the pixels at Chebyshev distance 1 |
| Grower.AcceptsInIntegers | app/utils/sockDetection.ts:294 | the colour test colorDiff <= colorThreshold * 1.8 holds exactly when 5 * colorDiff <= 9 * colorThreshold |
| Grower.VisitedSetIs | app/utils/sockDetection.ts:288-295 | a visited record that agrees cell by cell with a set of in-frame cells is that set |
| Grower.AcceptedRegion | app/utils/sockDetection.ts:295-304 | the accepted neighbour joins the pixels, every earlier pixel stays and nothing else joins; size grows by one; the box grows to contain the neighbour and never shrinks; colour, width and height are left for lines 310-327 |
| Grower.AcceptedConnected | app/utils/sockDetection.ts:284-297 | adding a neighbour of a member pixel keeps every pixel after the seed adjacent to an earlier one |
| Grower.Consider | app/utils/sockDetection.ts:284-305 | a neighbour is accepted exactly when it is in the frame, not visited (before the fill or by it) and within 1.8 thresholds of the seed colour; acceptance marks it visited, queues it, adds it to the pixels, widens the box and adds one to size; otherwise nothing changes; either way the neighbour ends up visited or fails the colour test, and the pixels stay connected |
| Grower.SettledGrows | app/utils/sockDetection.ts:288 | a pixel that is visited or fails the colour test stays so while more pixels are marked |
| Grower.TracksAccepted | app/utils/sockDetection.ts:297 | pushing an accepted neighbour keeps the queue equal to the queue before the pass plus the pixels accepted since |
| Grower.NeighborsExpanded | app/utils/sockDetection.ts:279-284 | when all eight listed neighbours are visited or fail the colour test, so is every adjacent pixel |
| Grower.AcceptKeepsInv | app/utils/sockDetection.ts:294-304 | accepting an unvisited pixel within 1.8 times the threshold, next to a member pixel, keeps the region invariant: seed first, no duplicate pixels, pixels are the seed plus the accepted set, size is one plus the number accepted, tight bounding box, and the seed counts as accepted only if an accepted pixel next to it exists |
| Grower.AcceptedPixels | app/utils/sockDetection.ts:296 | adding a key to the insertion-ordered pixel set keeps the seed first and leaves no duplicates; its members are the seed plus the accepted set |
| Grower.AcceptedBoxed | app/utils/sockDetection.ts:300-303 | after widening the box with the new pixel, every member pixel lies inside the box |
| Grower.BoxTightGrows | app/utils/sockDetection.ts:300-303 | after widening the box with the new pixel, each side of the box is still touched by a member pixel |
| Grower.VisitNeighbors | app/utils/sockDetection.ts:276-306 | one dequeued pixel's neighbour pass keeps the invariant and the connectivity; every pixel it accepts is one of the eight around the dequeued pixel; afterwards every pixel adjacent to it is visited or fails the colour test; the queue becomes the old queue plus exactly the newly accepted pixels; size grows by at most 8 |
| Grower.QueuedStep | app/utils/sockDetection.ts:275-297 | after a dequeue and the pushes of one pass, every queued pixel is still the seed or an accepted pixel |
| Grower.ExpandedStep | app/utils/sockDetection.ts:275-306 | after the head of the queue has been processed, every accepted pixel no longer queued has all its adjacent pixels visited or failing the colour test |
| Grower.RemainingShrinks | app/utils/sockDetection.ts:275-307 | each growth strictly shrinks the set of unaccepted frame cells, so the while loop terminates |
| Grower.Spread | app/utils/sockDetection.ts:275-307 | the while loop keeps the region invariant (including: the seed counts as accepted only once an accepted pixel next to it exists), the visited marks and the connectivity; it stops with size 1 or at most maxRegionSize + 7; when it stops below maxRegionSize (the queue ran empty), every pixel adjacent to the seed or to an accepted pixel is visited or fails the colour test |
| Grower.SeedStarts | app/utils/sockDetection.ts:258-272 | the one-pixel region at the seed, with the seed queued, satisfies the region invariant and connectivity, and nothing is yet expanded but the queued seed |
| Grower.SpreadFilled | app/utils/sockDetection.ts:271-307 | when the loop ends, its accepted pixels are a fill from the seed: sound, listed connected from the seed, the seed re-accepted only next to an accepted pixel, and complete below maxRegionSize |
| Grower.Flood | app/utils/sockDetection.ts:258-307 | from the initial one-pixel region, the accepted pixels are exactly those newly marked visited; each was unvisited before and passes the colour test against the seed colour; every pixel reaches the seed through adjacent member pixels; the seed counts as accepted (size one more than the pixel count) only if an accepted pixel next to it exists; when 1 + accepted < maxRegionSize, no unvisited in-frame pixel next to the seed or an accepted pixel passes the test without being accepted |
| Grower.SumColors | app/utils/sockDetection.ts:314-321 | the forEach loop computes the channel sums of the region's pixels |
| Grower.ColorSumBounds | app/utils/sockDetection.ts:314-321 | each channel sum lies between 0 and 255 times the pixel count |
| Grower.ColorSumUniform | app/utils/sockDetection.ts:314-321 | pixels of one colour sum to that colour times their count |
| Grower.Round | app/utils/sockDetection.ts:324-326 | Math.round returns the integer within half a unit, rounding halves up |
| Grower.RoundedMeanInByteRange | app/utils/sockDetection.ts:323-327 | a rounded channel mean over at least as many counted pixels is a byte |
| Grower.MeanColorValid | app/utils/sockDetection.ts:323-327 | the region's average colour is a valid byte colour, even when size exceeds the pixel count |
| Grower.MeanColorUniform | app/utils/sockDetection.ts:313-327 | a single-colour region averages to that colour when size is its pixel count; when size counts the seed twice (pixel count + 1), each channel keeps its value exactly when twice the value is at most size, and otherwise comes out lower |
| Grower.RoundShrunkMean | app/utils/sockDetection.ts:323-327 | n equal values v divided by n + 1 round back to v exactly when 2v is at most n + 1, and never round above v |
| Grower.RoundedMeanNearest | app/utils/sockDetection.ts:324-326 | Math.round(total / size) is the whole number m nearest to the mean, halves up: -size <= 2 * (total - m * size) < size |
| Grower.MeanColorNearest | app/utils/sockDetection.ts:323-327 | each channel of the average colour is the whole number nearest to the channel sum divided by size, halves up |
| Grower.FinishedIsGrown | app/utils/sockDetection.ts:309-327 | setting width, height and the rounded mean colour on a flooded region yields everything growRegion promises of its result |
| Grower.RoundExactMean | app/utils/sockDetection.ts:324-326 | rounding an exact mean returns it unchanged |
| Grower.GrowRegion | app/utils/sockDetection.ts:250-335 | accepted pixels were in the frame, unvisited and close to the seed colour, and the visited set grows by exactly them; on both outcomes the seed and the accepted pixels can be listed from the seed so that each touches an earlier one, and the seed counts as accepted only if an accepted pixel next to it exists; null exactly when 1 + accepted < 0.7 * minRegionSize; otherwise the region has the seed first, no duplicates, a tight box with matching width and height, a size of one plus the number accepted bounded by maxRegionSize + 7, the rounded mean colour, and every pixel joined to the seed through adjacent member pixels; when 1 + accepted < maxRegionSize the fill is complete: every in-frame pixel adjacent to the seed or an accepted pixel that passes the colour test was accepted or visited before |
| Scanner.ScanStep | app/utils/sockDetection.ts:220 | the seed stride is at least 20 and at least gridSize |
| Scanner.ShapeOkInIntegers | app/utils/sockDetection.ts:235-239 | the aspect filter holds exactly when 2h >= 3w, h <= 4w, h >= 100 and w >= 50 |
| Scanner.ShapeOkBounds | app/utils/sockDetection.ts:235-239 | a kept region is at least 50 wide and between 100 and 4w tall |
| Scanner.SeedsBeforeLater | app/utils/sockDetection.ts:222-223 | seeds that come before a scan position also come before every later one |
| Scanner.ScanSeed | app/utils/sockDetection.ts:224-242 | one grid point, recorded as one visit: skipped exactly when already visited; otherwise skipped as background exactly when its brightness is above 240 or below 15; otherwise grown, with the fill's accepted pixels connected to the seed and complete below maxRegionSize on every outcome (dropped ones included), and the region is dropped exactly when growRegion returns null, appended exactly when it passes the shape filter, and discarded otherwise; the visited marks grow by exactly the accepted pixels, the list by exactly the kept region; the scan invariant holds for the next point |
| Scanner.ScanAt | app/utils/sockDetection.ts:223-243 | one round of the inner loop appends its visit to the trace and moves the scan state to the next grid column |
| Scanner.ScanRow | app/utils/sockDetection.ts:222-244 | one round of the outer loop visits every grid column of its row and moves the scan state to the next grid row |
| Scanner.ScanStart | app/utils/sockDetection.ts:214-215 | the empty list, the empty visited set and the empty trace satisfy the scan state at (0, 0) |
| Scanner.TraceKeeps | app/utils/sockDetection.ts:224-241 | appending a visit adds its accepted pixels to the marks and, if it was kept, its region to the list |
| Scanner.TraceAppend | app/utils/sockDetection.ts:222-244 | a visit explained by the marks left by the visits before it extends an explained trace |
| Scanner.ExplainedLast | app/utils/sockDetection.ts:222-244 | the last visit of an explained trace is explained by the marks of the visits before it |
| Scanner.KeptOfMembers | app/utils/sockDetection.ts:240 | a region is in the returned list exactly when some visit kept it |
| Scanner.MultipleStep | app/utils/sockDetection.ts:223 | adding the stride to a multiple of the stride gives a multiple of it |
| Scanner.MultiplesApart | app/utils/sockDetection.ts:222-223 | two multiples of the stride less than a stride apart are equal: no grid point lies between two consecutive seeds |
| Scanner.ScannedSkip | app/utils/sockDetection.ts:223 | after the visit at (x, y), the seeds are exactly the grid points before (x + stride, y) |
| Scanner.ScannedRowEnd | app/utils/sockDetection.ts:222-223 | past the end of a row, the seeds are exactly the grid points before the start of the next row |
| Scanner.ScannedAll | app/utils/sockDetection.ts:222 | once y passes the height, the seeds are exactly the grid points of the frame |
| Scanner.MarksVisitedSet | app/utils/sockDetection.ts:215 | the cells the scan has marked are exactly the visited cells |
| Scanner.KeepOldRegions | app/utils/sockDetection.ts:233 | marking more pixels visited keeps every kept region valid |
| Scanner.AppendKept | app/utils/sockDetection.ts:240 | pushing a found region onto the list keeps the scan invariant and the seed order |
| Scanner.AppendFound | app/utils/sockDetection.ts:240 | after the push, every listed region still satisfies what the scan promises |
| Scanner.AppendMarked | app/utils/sockDetection.ts:240 | after the push, every listed pixel other than a seed is marked visited |
| Scanner.AppendShares | app/utils/sockDetection.ts:240 | after the push, two listed regions share at most the earlier one's seed |
| Scanner.AppendOrdered | app/utils/sockDetection.ts:240 | after the push, seeds are still in row-major scan order |
| Scanner.FindColorRegions | app/utils/sockDetection.ts:213-248 | each region has a grid-aligned, non-background seed, only pixels close to the seed colour, a tight box, at least 0.7 * minRegionSize pixels counted and a sock shape; regions share at most the earlier seed; seeds are in scan order; the trace visits every grid point of the frame exactly once, in row-major order, and each visit took the branch the visited marks of the earlier visits dictate, every fill (a dropped one too) marking only pixels connected to its seed (see ScanSeed); the result is exactly the regions of the kept visits, in order |
| Textures.Areas | app/utils/sockDetection.ts:67-86 | three sample areas, horizontally centred, each of size a quarter of the region's smaller side; for a box at least two rows tall, their rows lie top to bottom within the box; for a one-row box, top and middle sit on that row and the bottom one on the row above it |
| Textures.GrayAt | app/utils/sockDetection.ts:103-107 | the grey level at a clamped position is in 0..255 |
| Textures.SampleAt | app/utils/sockDetection.ts:103-137 | one grid point gives a grey level in 0..255 and edge differences in 0..255; the edge differences are zero when the point is not checked for edges |
| Textures.GridStep | app/utils/sockDetection.ts:98 | the sampling step is at least 1 |
| Textures.GridStepOfIntegral | app/utils/sockDetection.ts:97-98 | for a whole sample size, the real-valued step formula equals the integer one |
| Textures.FoldAppend | app/utils/sockDetection.ts:96-141 | accumulating two sample runs in turn equals accumulating their concatenation |
| Textures.FoldCount | app/utils/sockDetection.ts:108-110 | every visited sample adds exactly one to totalSamples |
| Textures.FoldConsistent | app/utils/sockDetection.ts:88-141 | accumulating valid samples keeps the totals consistent: edgeCount is vertical plus horizontal edges, edge counts are at most the sample count, grey levels are in 0..255, the contrast and brightness sums are bounded |
| Textures.ColumnValid | app/utils/sockDetection.ts:102-139 | every sample in a column of the grid is valid |
| Textures.GridValid | app/utils/sockDetection.ts:101-140 | every sample of a grid is valid |
| Textures.AreasValid | app/utils/sockDetection.ts:96-141 | every sample over all areas is valid |
| Textures.ColumnNonEmpty | app/utils/sockDetection.ts:102 | a column with a non-negative sample size visits at least one point |
| Textures.AreasSamplesNonEmpty | app/utils/sockDetection.ts:96-102 | every area contributes at least one sample |
| Textures.AreaSizesNonNegative | app/utils/sockDetection.ts:97 | the sample sizes of a region's areas are non-negative |
| Textures.TotalsConsistent | app/utils/sockDetection.ts:96-141 | the totals over all areas are consistent and count at least one sample per area |
| Textures.RegionTotals | app/utils/sockDetection.ts:88-141 | the totals of a region are consistent and count at least three samples |
| Textures.SummarizeDirection | app/utils/sockDetection.ts:144-154 | the returned direction is both, vertical, horizontal or none exactly as ten times each edge count exceeds the sample count or not |
| Textures.SummarizeBounds | app/utils/sockDetection.ts:156-164 | the average brightness and contrast of consistent totals lie in 0..255 |
| Textures.TextureOf | app/utils/sockDetection.ts:61-165 | the texture has at least three grey levels, all in 0..255; edgeCount is vertical plus horizontal edges; each edge count is at most the sample count; average brightness and contrast are in 0..255; the pattern direction is both, vertical, horizontal or none exactly as ten times each edge count exceeds the sample count or not |
| Textures.VisitPoint | app/utils/sockDetection.ts:103-137 | the inner loop body adds the sample at one grid point to the totals |
| Textures.SampleColumn | app/utils/sockDetection.ts:102-139 | the j loop accumulates exactly the samples of one column, in order |
| Textures.SampleGrid | app/utils/sockDetection.ts:101-140 | the i loop accumulates exactly the samples of the grid, in order |
| Textures.SampleArea | app/utils/sockDetection.ts:96-141 | one area's loops accumulate exactly its samples |
| Textures.GetTextureFeatures | app/utils/sockDetection.ts:61-165 | the imperative sampling computes exactly the texture TextureOf specifies |
| Textures.ClassifyInIntegers | app/utils/sockDetection.ts:144-154 | the direction is both, vertical, horizontal or none according to whether 10 times each edge count exceeds the sample count; each case is an if-and-only-if |
| Textures.RatioAbove | app/utils/sockDetection.ts:144-148 | the ratio test edges / samples > 0.1 holds exactly when 10 * edges > samples |
| Textures.ClassifySwap | app/utils/sockDetection.ts:144-154 | swapping the vertical and horizontal counts swaps vertical and horizontal and keeps both and none |
| Comparator.Normalize | app/utils/sockDetection.ts:173-177 | normalisation keeps the pattern length |
| Comparator.SumUniform | app/utils/sockDetection.ts:174 | a constant pattern sums to its length times the constant |
| Comparator.NormalizeUniform | app/utils/sockDetection.ts:173-177 | a constant pattern normalises to all zeros (the `std \|\| 1` guard) |
| Comparator.WindowSize | app/utils/sockDetection.ts:170 | the window is at least 1 and fits in both patterns |
| Comparator.OffsetCount | app/utils/sockDetection.ts:183 | every window offset the loop tries stays inside the first pattern |
| Comparator.BestCorrelation | app/utils/sockDetection.ts:183-190 | the result is non-negative, at least the absolute correlation at every offset tried, and equal to one of them or 0 |
| Comparator.MaxCorrelation | app/utils/sockDetection.ts:169-190 | the best correlation of two textures is non-negative |
| Comparator.Correlate | app/utils/sockDetection.ts:184-188 | the inner loop computes the window correlation at one offset |
| Comparator.Slide | app/utils/sockDetection.ts:183-190 | the offset loop computes the best absolute correlation |
| Comparator.DirectionScore | app/utils/sockDetection.ts:198-199 | 1 exactly for equal directions; 0.7 exactly when they differ and one is both; 0.3 exactly otherwise |
| Comparator.DirectionScoreSymmetric | app/utils/sockDetection.ts:198-199 | the direction score does not depend on argument order |
| Comparator.EdgeDensity | app/utils/sockDetection.ts:193-194 | the edge density is non-negative, and zero exactly when there are no edges |
| Comparator.RatioAsWritten | app/utils/sockDetection.ts:195 | min / max is undefined exactly when both values are 0, and in 0..1 otherwise |
| Comparator.Ratio | app/utils/sockDetection.ts:195 | the guarded ratio is in 0..1, equals 1 exactly for equal values, and agrees with min / max whenever that is defined |
| Comparator.RatioSymmetric | app/utils/sockDetection.ts:202 | the ratio does not depend on argument order |
| Comparator.TextureDifferenceAsWritten | app/utils/sockDetection.ts:167-211 | the score as written is undefined exactly when both edge counts are 0 or both contrasts are 0 |
| Comparator.UniformPairUndefined | app/utils/sockDetection.ts:193-195 | two textures without edges get no score as written |
| Comparator.TextureDifferenceOf | app/utils/sockDetection.ts:167-211 | the corrected score agrees with the as-written score wherever that is defined; the part beyond 0.4 times the correlation is between 0.09 and 0.6 |
| Comparator.SelfDifference | app/utils/sockDetection.ts:167-211 | a texture compared with itself scores 0.4 times its self-correlation plus 0.6, the highest the non-correlation part can reach |
| Comparator.BestCorrelationOfZeros | app/utils/sockDetection.ts:183-190 | a zero pattern correlates to 0 at every offset |
| Comparator.WindowDotOfZeros | app/utils/sockDetection.ts:185-187 | a window sum over a zero pattern is 0 |
| Comparator.UniformPairScores | app/utils/sockDetection.ts:167-211 | two flat, edge-free textures with the same direction score exactly 0.6 |
| Comparator.TextureDifference | app/utils/sockDetection.ts:167-211 | the imperative computation returns the corrected score |
| Matcher.Insert | app/utils/sockDetection.ts:348 | inserting into a list sorted by size, largest first, keeps it sorted and adds exactly that one region |
| Matcher.AppendDescending | app/utils/sockDetection.ts:348 | appending a region no larger than the last keeps the largest-first order |
| Matcher.InsertBefore | app/utils/sockDetection.ts:348 | placing the last element after the insertion into the rest keeps the order and the multiset |
| Matcher.SortBySize | app/utils/sockDetection.ts:348 | the sorted copy is a permutation of the regions with sizes non-increasing |
| Matcher.SortedMembers | app/utils/sockDetection.ts:348 | every region of the sorted copy is one of the input regions |
| Matcher.SortedMatchable | app/utils/sockDetection.ts:348 | sorting keeps every region scorable |
| Matcher.Overlap | app/utils/sockDetection.ts:358-362 | the overlap product is non-negative |
| Matcher.OverlapSymmetric | app/utils/sockDetection.ts:358-362 | the overlap does not depend on argument order |
| Matcher.OverlapIgnoresSharedEdge | app/utils/sockDetection.ts:358-362 | boxes that share only a column edge have overlap 0, because the formula omits the +1 of a pixel count |
| Matcher.CrowdedInIntegers | app/utils/sockDetection.ts:363-364 | the overlap test overlap / minArea > 0.3 holds exactly when 10 * overlap > 3 * minArea |
| Matcher.HalfRatio | app/utils/sockDetection.ts:369-373 | a size ratio below 0.5 means exactly that twice the smaller is less than the larger |
| Matcher.SizeScore | app/utils/sockDetection.ts:374 | the size score lies between the smallest and largest of the three ratios |
| Matcher.ColorScore | app/utils/sockDetection.ts:377-390 | the colour score is at most 1 and exactly 1 for equal colours; it is non-negative unless both are dark, and positive for two dark byte colours |
| Matcher.ScoreIsMean | app/utils/sockDetection.ts:395-408 | in all three regimes the score is a weighted mean of the texture, colour and size scores |
| Matcher.TextureComparable | app/utils/sockDetection.ts:352 | the texture of a scorable region has at least two grey levels and a non-negative edge count and contrast, as textureDifference needs |
| Matcher.Assess | app/utils/sockDetection.ts:376-421 | a recorded match names the pair being scored |
| Matcher.AssessWith | app/utils/sockDetection.ts:392-421 | a match is recorded exactly when the regime's score and texture gates are both passed, with the computed scores |
| Matcher.AssessAsWritten | app/utils/sockDetection.ts:376-421 | the gating with the texture score as written: a recorded match names the pair being scored |
| Matcher.AssessAgreesWhereDefined | app/utils/sockDetection.ts:376-421 | the model's gating records the same match as the source's wherever the source's texture score is a number; where it is NaN the source records nothing |
| Matcher.Evaluate | app/utils/sockDetection.ts:355-421 | a recorded match names the pair being evaluated; what it records is stated by EvaluateSound, EvaluateRejects and EvaluateScores |
| Matcher.EvaluatePassedFilters | app/utils/sockDetection.ts:363-374 | once the overlap and ratio filters pass, scoring proceeds with the mean of the three ratios |
| Matcher.EvaluateSound | app/utils/sockDetection.ts:355-421 | a recorded match has overlap at most 0.3 of the smaller size, each ratio at least 0.5, a size score in 0.5..1, the colour score of lines 377-390, the corrected texture score (the source's wherever that is a number), the regime's weighted score, and passes both gates |
| Matcher.EvaluateRejects | app/utils/sockDetection.ts:363-373 | a pair that overlaps too much or whose height, width or size differ by more than a factor of two is never recorded |
| Matcher.EvaluateScores | app/utils/sockDetection.ts:363-374 | conversely, a pair within the overlap and ratio limits is scored with the mean of its three ratios, so it is recorded exactly when AssessWith's gates pass |
| Matcher.UniformTwinsPass | app/utils/sockDetection.ts:355-421 | two identical, non-overlapping flat regions are recorded as a match under the corrected texture score |
| Matcher.UniformTwinsDiverge | app/utils/sockDetection.ts:355-421 | two identical, non-overlapping regions of one flat colour without edges or contrast are recorded by the model and rejected by the source's gating |
| Matcher.EvaluateAt | app/utils/sockDetection.ts:350-355 | the evaluation at positions i, j records a match naming i and j |
| Matcher.EvaluatePair | app/utils/sockDetection.ts:355-421 | the imperative inner-loop body, with its early continues, yields exactly the specified evaluation of the pair |
| Matcher.ScorePair | app/utils/sockDetection.ts:376-421 | the scoring and gating code yields exactly the specified assessment |
| Matcher.PairEvaluation | app/utils/sockDetection.ts:350-355 | the pair evaluation agrees with the per-position evaluation on every pair of positions |
| Matcher.CollectedStep | app/utils/sockDetection.ts:354-422 | evaluating pair (i, j) and pushing its match, if any, extends what has been collected to the next column |
| Matcher.CollectedRowStart | app/utils/sockDetection.ts:354 | the inner loop's start at j = i + 1 skips no pair |
| Matcher.CollectedRowEnd | app/utils/sockDetection.ts:350-423 | finishing row i is the same as starting row i + 1 |
| Matcher.CandidateMatches | app/utils/sockDetection.ts:350-423 | allMatches holds exactly the matches of pairs i < j that pass every filter and gate, in loop order |
| Matcher.CompareMatchesAntisymmetric | app/utils/sockDetection.ts:426-432 | swapping the two matches flips the comparator's sign |
| Matcher.CompareMatchesCycle | app/utils/sockDetection.ts:426-432 | three matches exist that the comparator orders a before b, b before c and c before a |
| Matcher.Used | app/utils/sockDetection.ts:436-463 | every region of every chosen pair is in the used set |
| Matcher.UsedWitness | app/utils/sockDetection.ts:436-463 | every used region belongs to some chosen pair |
| Matcher.BlockedGrows | app/utils/sockDetection.ts:438-465 | choosing another pair keeps every earlier match chosen or blocked |
| Matcher.TakeKeeps | app/utils/sockDetection.ts:439-463 | taking a match with both regions unused keeps the chosen pairs disjoint and adds both regions to the used set |
| Matcher.SkipKeeps | app/utils/sockDetection.ts:439 | a skipped match shares a region with an earlier chosen pair |
| Matcher.SelectPairs | app/utils/sockDetection.ts:435-465 | the greedy loop chooses matches in list order; the chosen pairs are disjoint; every match is chosen or shares a region with a chosen pair |
| Matcher.BlockedCovers | app/utils/sockDetection.ts:438-465 | at the end, every match is chosen or shares a region with a chosen pair |
| Matcher.SameMembers | app/utils/sockDetection.ts:426 | reordering the matches keeps the same members |
| Matcher.FindMatchingPairs | app/utils/sockDetection.ts:337-468 | every returned pair is a candidate of two input regions, and no region appears in two pairs; the sorted list holds exactly the candidates, and each of them is returned or shares a region with a pair returned before it in that list, whatever order the match sort produced |

## Left out

- The React page (`app/page.tsx`), image loading, canvas drawing and the `console.log` of lines 246 and 440-459: user interface and logging. No detector state depends on them.
- `Math.sqrt` in the normalisation is a parameter `sqrt`, since no proved property depends on its values. A zero result is still replaced by 1, as `std || 1` does.
- JavaScript doubles are modelled as exact reals. Rounding error in the luma weights, the averages and the ratios is not modelled.
- Comparator.Normalize: only the length is stated, beyond the all-zero case of NormalizeUniform, because the square root is a parameter.
- The sort of `allMatches` (lines 426-432) is the parameter `sortMatches` of Matcher.FindMatchingPairs, required only to permute its input. Matcher.CompareMatchesCycle shows the comparator is not transitive, so the order `Array.prototype.sort` produces depends on the engine's algorithm. Every property of FindMatchingPairs holds for any order.
- Matcher.SortBySize is a stable insertion sort, as `Array.prototype.sort` is required to be. Its contract states order and permutation, not stability.
- The string keys `"x,y"` of `visited` and `region.pixels` are modelled as points. `visited` is an `array2<bool>` indexed by x and y, and `pixels` is a sequence without repetitions in insertion order, as a JavaScript `Set` iterates.
- `usedRegions` (line 436) is a set of region objects, compared by identity. The model uses the regions' positions in the sorted copy. This is the same for the distinct objects `findColorRegions` creates, but not for a list holding one object twice.
- The `texture` field of `Region` (lines 17 and 268) is a placeholder that only the logging reads, so it is left out. The Settings fields `sizeRatioThreshold`, `aspectRatioThreshold` and `textureThreshold` are carried but never read by the core.
- Textures.GetTextureFeatures: requires every sample size to be a whole number (`TextureDefined`). A fractional size is a multiple of a quarter, so the byte offset of line 105 stays whole but falls inside a pixel. The source then reads bytes misaligned with the pixels and gets a finite but channel-shifted grey level. That case is not modelled. It excludes every region whose sample size, the smaller of a quarter of its shorter side and a quarter of the frame's shorter side, is not a whole number.
- Textures.TextureOf: states at least three samples, not their exact number.
- Matcher.FindMatchingPairs: requires colorThreshold > 0, because the colour score divides by it. It also requires every region to have size at least 1 and a well-defined texture.
- Matcher.Evaluate: its own contract only states that a recorded match names the pair. What it computes is stated by Matcher.EvaluateSound, EvaluateRejects and EvaluateScores.
- Matcher.Assess: scores with the corrected texture score, Comparator.TextureDifferenceOf, not the source's. Where the source's score is NaN (both textures without edges, or both without contrast), the source records no match, while the model scores such a pair and may record it. Matcher.AssessAsWritten is the source's gating, Matcher.AssessAgreesWhereDefined shows the two agree everywhere else, and Matcher.UniformTwinsDiverge gives a pair where they differ. Matcher.Evaluate, EvaluatePair, CandidateMatches and FindMatchingPairs inherit this.
- Comparator.TextureDifference: returns the corrected score (1 for a 0 / 0 ratio), not the source's NaN; see the Findings row.
- `growRegion` never marks its seed visited. A neighbour of the seed therefore finds the seed unvisited and accepts it again. The `Set` ignores the repeated key, but `size` still counts it. The model keeps this behaviour: size is the pixel count or one more, and the average colour divides by size. So a single-colour region whose seed was counted twice averages to that colour only in channels of at most half its size, and below it in the others (Grower.MeanColorUniform). Regions found later may contain an earlier region's seed (Scanner.SharesAtMostSeed).
- Grower.GrowRegion: a fill that stopped because size reached maxRegionSize is characterised only by soundness and connectivity. Which pixels it holds then depends on the breadth-first order and on how far the queue got, and that is not stated.
- Pixels.IsSurfaceColor is modelled, but no operation of the core calls it.

## Findings

| source | as written | input that shows it | evidently intended | confidence | as-written member | corrected member |
|---|---|---|---|---|---|---|
| app/utils/sockDetection.ts:193-202 | `edgeRatio` and `contrastRatio` are `min / max`, which is 0 / 0 = NaN when both textures have no edges or both have zero contrast. The NaN makes the whole score NaN, so `score > minScore` is false. | two identical socks of one flat colour: both edge counts 0 and both contrasts 0 | two equal densities or contrasts give a ratio of 1, so identical plain socks can pair | high (not executed) | Comparator.TextureDifferenceAsWritten, Comparator.UniformPairUndefined, Matcher.AssessAsWritten, Matcher.UniformTwinsDiverge | Comparator.TextureDifferenceOf, Comparator.UniformPairScores, Matcher.UniformTwinsPass |
