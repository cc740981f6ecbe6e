/** The texture analyser: getTextureFeatures (sockDetection.ts, lines 61-165). */
module Textures {
  import opened Pixels
  import opened Grower

  /** The edge orientation classes of line 37, as a closed variant. */
  datatype PatternDirection = NoPattern | Vertical | Horizontal | Both

  /** The Texture record of lines 30-38. */
  datatype Texture = Texture(
    contrast: real, pattern: seq<real>, edgeCount: int, avgBrightness: real,
    verticalEdges: int, horizontalEdges: int, patternDirection: PatternDirection)

  /** One sampled sub-area: its centre and its nominal radius min(width, height) / 4. */
  datatype Area = Area(x: int, y: int, size: real)

  /** What one grid point contributes: its grey level and, when it is not on the first row or column, its two gradients. */
  datatype Sample = Sample(gray: real, edgeChecked: bool, verticalDiff: real, horizontalDiff: real)

  /** The top, middle and bottom areas of lines 67-86. */
  function Areas(r: Region): (areas: seq<Area>)
    ensures |areas| == 3
    ensures forall k :: 0 <= k < 3 ==> areas[k].x == (r.minX + r.maxX) / 2
    ensures forall k :: 0 <= k < 3 ==> areas[k].size == Min(r.width, r.height) as real / 4.0
    ensures r.height == r.maxY - r.minY + 1 >= 2 ==>
              r.minY <= areas[0].y <= areas[1].y <= areas[2].y <= r.maxY
    ensures r.height == r.maxY - r.minY + 1 == 1 ==>
              areas[0].y == areas[1].y == r.minY && areas[2].y == r.minY - 1
  {
    var x := (r.minX + r.maxX) / 2;
    var size := Min(r.width, r.height) as real / 4.0;
    [Area(x, (r.minY as real + r.height as real * 0.25).Floor, size),
     Area(x, (r.minY + r.maxY) / 2, size),
     Area(x, (r.maxY as real - r.height as real * 0.25).Floor, size)]
  }

  /** The sampling radius of line 97; the source leaves it unrounded. */
  function SampleSize(img: ImageData, area: Area): real {
    MinR(area.size, Min(img.width, img.height) as real / 4.0)
  }

  /**
   * The sampling radius is a whole number. A fractional radius is a multiple of a quarter, so
   * the byte offset (py * width + px) * 4 is still whole, but it no longer falls on the first
   * byte of a pixel: the grey level mixes channels of neighbouring pixels. That case is not
   * modelled.
   */
  predicate TextureDefined(img: ImageData, r: Region) {
    ValidImage(img) && img.width >= 1 && img.height >= 1 && r.width >= 1 && r.height >= 1 &&
    forall k :: 0 <= k < 3 ==> SampleSize(img, Areas(r)[k]).Floor as real == SampleSize(img, Areas(r)[k])
  }

  /** Math.max(lo, Math.min(hi, v)). */
  function Clamp(v: int, lo: int, hi: int): int {
    Max(lo, Min(hi, v))
  }

  function GrayAt(img: ImageData, x: int, y: int): (g: real)
    requires ValidImage(img) && img.width >= 1 && img.height >= 1
    ensures 0.0 <= g <= 255.0
  {
    var px := Clamp(x, 0, img.width - 1);
    var py := Clamp(y, 0, img.height - 1);
    Luma(GetPixelColor(img, px, py))
  }

  /** The grid point (i, j) of an area: lines 103-138. */
  function SampleAt(img: ImageData, area: Area, s: int, step: int, i: int, j: int): (smp: Sample)
    requires ValidImage(img) && img.width >= 1 && img.height >= 1
    ensures 0.0 <= smp.gray <= 255.0
    ensures !smp.edgeChecked ==> smp.verticalDiff == 0.0 && smp.horizontalDiff == 0.0
    ensures 0.0 <= smp.verticalDiff <= 255.0 && 0.0 <= smp.horizontalDiff <= 255.0
  {
    var gray := GrayAt(img, area.x + i, area.y + j);
    if i > -s && j > -s then
      var verticalGray := GrayAt(img, area.x + i, area.y + j - step);
      var horizontalGray := GrayAt(img, area.x + i - step, area.y + j);
      Sample(gray, true, AbsR(gray - verticalGray), AbsR(gray - horizontalGray))
    else
      Sample(gray, false, 0.0, 0.0)
  }

  /** Column i of an area's grid, from row j down to row s. */
  function Column(img: ImageData, area: Area, s: int, step: int, i: int, j: int): seq<Sample>
    requires ValidImage(img) && img.width >= 1 && img.height >= 1 && step >= 1
    decreases s - j
  {
    if j > s then [] else [SampleAt(img, area, s, step, i, j)] + Column(img, area, s, step, i, j + step)
  }

  /** The columns i, i + step, ... up to s of an area's grid. */
  function Grid(img: ImageData, area: Area, s: int, step: int, i: int): seq<Sample>
    requires ValidImage(img) && img.width >= 1 && img.height >= 1 && step >= 1
    decreases s - i
  {
    if i > s then [] else Column(img, area, s, step, i, -s) + Grid(img, area, s, step, i + step)
  }

  /** The grid step of line 98. */
  function GridStep(s: int): (step: int)
    ensures step >= 1
  {
    Max(1, (s as real / 25.0).Floor)
  }

  /** For an integral sample size, the step of line 98 computed on the real and on its floor agree. */
  lemma GridStepOfIntegral(x: real)
    requires x.Floor as real == x
    ensures Max(1, (x / 25.0).Floor) == GridStep(x.Floor)
  {
  }

  /** All samples of one area, in the order the nested loops visit them. */
  function AreaSamples(img: ImageData, area: Area): seq<Sample>
    requires ValidImage(img) && img.width >= 1 && img.height >= 1
  {
    var s := SampleSize(img, area).Floor;
    Grid(img, area, s, GridStep(s), -s)
  }

  function AreasSamples(img: ImageData, areas: seq<Area>): seq<Sample>
    requires ValidImage(img) && img.width >= 1 && img.height >= 1
  {
    if |areas| == 0 then [] else AreaSamples(img, areas[0]) + AreasSamples(img, areas[1..])
  }


  /** The running totals of lines 88-94. */
  datatype Totals = Totals(
    pattern: seq<real>, contrast: real, edgeCount: int, brightness: real,
    samples: int, verticalEdges: int, horizontalEdges: int)

  const NoTotals := Totals([], 0.0, 0, 0.0, 0, 0, 0)

  /** How one grid point updates the totals: lines 108-137. */
  function AddSample(acc: Totals, smp: Sample): Totals {
    var acc := acc.(pattern := acc.pattern + [smp.gray], brightness := acc.brightness + smp.gray,
                    samples := acc.samples + 1);
    if !smp.edgeChecked then acc
    else
      var v := if smp.verticalDiff > 10.0 then 1 else 0;
      var h := if smp.horizontalDiff > 10.0 then 1 else 0;
      acc.(contrast := acc.contrast + MaxR(smp.verticalDiff, smp.horizontalDiff),
           verticalEdges := acc.verticalEdges + v, horizontalEdges := acc.horizontalEdges + h,
           edgeCount := acc.edgeCount + v + h)
  }

  /** The totals after visiting the samples ss in order, starting from acc. */
  function Fold(acc: Totals, ss: seq<Sample>): Totals
    decreases |ss|
  {
    if |ss| == 0 then acc else Fold(AddSample(acc, ss[0]), ss[1..])
  }

  lemma {:induction false} FoldAppend(acc: Totals, a: seq<Sample>, b: seq<Sample>)
    ensures Fold(acc, a + b) == Fold(Fold(acc, a), b)
    decreases |a|
  {
    if |a| > 0 {
      assert (a + b)[1..] == a[1..] + b;
      FoldAppend(AddSample(acc, a[0]), a[1..], b);
    } else {
      assert a + b == b;
    }
  }

  /** The direction rule of lines 144-154. */
  function Classify(verticalEdges: int, horizontalEdges: int, totalSamples: int): PatternDirection
    requires totalSamples > 0
  {
    var verticalRatio := verticalEdges as real / totalSamples as real;
    var horizontalRatio := horizontalEdges as real / totalSamples as real;
    if verticalRatio > 0.1 && horizontalRatio > 0.1 then Both
    else if verticalRatio > 0.1 then Vertical
    else if horizontalRatio > 0.1 then Horizontal
    else NoPattern
  }

  /** The record returned at lines 156-164. */
  function Summarize(acc: Totals): Texture
    requires acc.samples > 0
  {
    var n := acc.samples as real;
    Texture(acc.contrast / n, acc.pattern, acc.edgeCount, acc.brightness / n,
            acc.verticalEdges, acc.horizontalEdges,
            Classify(acc.verticalEdges, acc.horizontalEdges, acc.samples))
  }

  /** The direction of a summary follows the line 144-154 rule over its own sample count. */
  lemma SummarizeDirection(acc: Totals)
    requires acc.samples > 0 && acc.samples == |acc.pattern|
    ensures var t := Summarize(acc);
            var n, v, h := |t.pattern|, t.verticalEdges, t.horizontalEdges;
            (t.patternDirection == Both <==> 10 * v > n && 10 * h > n) &&
            (t.patternDirection == Vertical <==> 10 * v > n && 10 * h <= n) &&
            (t.patternDirection == Horizontal <==> 10 * v <= n && 10 * h > n) &&
            (t.patternDirection == NoPattern <==> 10 * v <= n && 10 * h <= n)
  {
    ClassifyInIntegers(acc.verticalEdges, acc.horizontalEdges, acc.samples);
  }

  /** The averages of consistent totals lie in 0..255. */
  lemma SummarizeBounds(acc: Totals)
    requires acc.samples > 0 && Consistent(acc)
    ensures 0.0 <= Summarize(acc).avgBrightness <= 255.0 && 0.0 <= Summarize(acc).contrast <= 255.0
  {
    var n := acc.samples as real;
    QuotientOrder(acc.brightness, n, 255.0);
    QuotientOrder(acc.contrast, n, 255.0);
  }

  /** Totals that every prefix of a sampling keeps: each count and sum within its range. */
  ghost predicate Consistent(acc: Totals) {
    acc.samples == |acc.pattern| &&
    (forall k :: 0 <= k < |acc.pattern| ==> 0.0 <= acc.pattern[k] <= 255.0) &&
    0 <= acc.verticalEdges <= acc.samples && 0 <= acc.horizontalEdges <= acc.samples &&
    acc.edgeCount == acc.verticalEdges + acc.horizontalEdges &&
    0.0 <= acc.brightness <= 255.0 * acc.samples as real &&
    0.0 <= acc.contrast <= 255.0 * acc.samples as real
  }

  ghost predicate ValidSample(smp: Sample) {
    0.0 <= smp.gray <= 255.0 && 0.0 <= smp.verticalDiff <= 255.0 && 0.0 <= smp.horizontalDiff <= 255.0
  }

  lemma {:induction false} FoldConsistent(acc: Totals, ss: seq<Sample>)
    requires Consistent(acc)
    requires forall k :: 0 <= k < |ss| ==> ValidSample(ss[k])
    ensures Consistent(Fold(acc, ss))
    decreases |ss|
  {
    if |ss| > 0 {
      var next := AddSample(acc, ss[0]);
      assert Consistent(next);
      FoldConsistent(next, ss[1..]);
    }
  }

  lemma {:induction false} ColumnValid(img: ImageData, area: Area, s: int, step: int, i: int, j: int)
    requires ValidImage(img) && img.width >= 1 && img.height >= 1 && step >= 1
    ensures forall k :: 0 <= k < |Column(img, area, s, step, i, j)| ==> ValidSample(Column(img, area, s, step, i, j)[k])
    decreases s - j
  {
    if j <= s {
      ColumnValid(img, area, s, step, i, j + step);
    }
  }

  lemma {:induction false} GridValid(img: ImageData, area: Area, s: int, step: int, i: int)
    requires ValidImage(img) && img.width >= 1 && img.height >= 1 && step >= 1
    ensures forall k :: 0 <= k < |Grid(img, area, s, step, i)| ==> ValidSample(Grid(img, area, s, step, i)[k])
    decreases s - i
  {
    if i <= s {
      ColumnValid(img, area, s, step, i, -s);
      GridValid(img, area, s, step, i + step);
    }
  }

  lemma {:induction false} AreasValid(img: ImageData, areas: seq<Area>)
    requires ValidImage(img) && img.width >= 1 && img.height >= 1
    ensures forall k :: 0 <= k < |AreasSamples(img, areas)| ==> ValidSample(AreasSamples(img, areas)[k])
  {
    if |areas| > 0 {
      var s := SampleSize(img, areas[0]).Floor;
      GridValid(img, areas[0], s, GridStep(s), -s);
      AreasValid(img, areas[1..]);
    }
  }

  lemma {:induction false} ColumnNonEmpty(img: ImageData, area: Area, s: int, step: int, i: int)
    requires ValidImage(img) && img.width >= 1 && img.height >= 1 && step >= 1 && s >= 0
    ensures |Column(img, area, s, step, i, -s)| >= 1
  {
  }

  lemma {:induction false} AreasSamplesNonEmpty(img: ImageData, areas: seq<Area>)
    requires ValidImage(img) && img.width >= 1 && img.height >= 1
    requires forall k :: 0 <= k < |areas| ==> SampleSize(img, areas[k]) >= 0.0
    ensures |AreasSamples(img, areas)| >= |areas|
  {
    if |areas| > 0 {
      var s := SampleSize(img, areas[0]).Floor;
      ColumnNonEmpty(img, areas[0], s, GridStep(s), -s);
      AreasSamplesNonEmpty(img, areas[1..]);
    }
  }

  /** The totals of all three areas of a region. */
  ghost function RegionTotals(img: ImageData, r: Region): (acc: Totals)
    requires TextureDefined(img, r)
    ensures Consistent(acc) && acc.samples >= 3
  {
    AreaSizesNonNegative(img, r);
    TotalsConsistent(img, Areas(r), NoTotals);
    Fold(NoTotals, AreasSamples(img, Areas(r)))
  }

  lemma AreaSizesNonNegative(img: ImageData, r: Region)
    requires TextureDefined(img, r)
    ensures forall k :: 0 <= k < |Areas(r)| ==> SampleSize(img, Areas(r)[k]) >= 0.0
  {
  }

  lemma {:induction false} TotalsConsistent(img: ImageData, areas: seq<Area>, acc0: Totals)
    requires ValidImage(img) && img.width >= 1 && img.height >= 1
    requires forall k :: 0 <= k < |areas| ==> SampleSize(img, areas[k]) >= 0.0
    requires Consistent(acc0)
    ensures Consistent(Fold(acc0, AreasSamples(img, areas)))
    ensures Fold(acc0, AreasSamples(img, areas)).samples >= acc0.samples + |areas|
  {
    var ss := AreasSamples(img, areas);
    AreasSamplesNonEmpty(img, areas);
    AreasValid(img, areas);
    FoldConsistent(acc0, ss);
    FoldCount(acc0, ss);
  }

  lemma {:induction false} FoldCount(acc: Totals, ss: seq<Sample>)
    ensures Fold(acc, ss).samples == acc.samples + |ss|
    decreases |ss|
  {
    if |ss| > 0 {
      FoldCount(AddSample(acc, ss[0]), ss[1..]);
    }
  }

  /**
   * getTextureFeatures as a function of the frame and the region. Every grey level and both
   * averages lie in 0..255, the edge count splits into its vertical and horizontal parts, and
   * each part is at most one per sample.
   */
  ghost function TextureOf(img: ImageData, r: Region): (t: Texture)
    requires TextureDefined(img, r)
    ensures |t.pattern| >= 3
    ensures forall k :: 0 <= k < |t.pattern| ==> 0.0 <= t.pattern[k] <= 255.0
    ensures t.edgeCount == t.verticalEdges + t.horizontalEdges
    ensures 0 <= t.verticalEdges <= |t.pattern| && 0 <= t.horizontalEdges <= |t.pattern|
    ensures 0.0 <= t.avgBrightness <= 255.0 && 0.0 <= t.contrast <= 255.0
    ensures var n, v, h := |t.pattern|, t.verticalEdges, t.horizontalEdges;
            (t.patternDirection == Both <==> 10 * v > n && 10 * h > n) &&
            (t.patternDirection == Vertical <==> 10 * v > n && 10 * h <= n) &&
            (t.patternDirection == Horizontal <==> 10 * v <= n && 10 * h > n) &&
            (t.patternDirection == NoPattern <==> 10 * v <= n && 10 * h <= n)
  {
    var acc := RegionTotals(img, r);
    SummarizeDirection(acc);
    SummarizeBounds(acc);
    Summarize(acc)
  }

  /**
   * One iteration of the inner loop, lines 103-137: the grid point (i, j) updates the totals.
   * GrayAt is the clamp, index and grey-level computation the source repeats for the point and
   * for its upper and left neighbours.
   */
  method VisitPoint(img: ImageData, area: Area, s: int, step: int, i: int, j: int, acc0: Totals) returns (acc: Totals)
    requires ValidImage(img) && img.width >= 1 && img.height >= 1
    ensures acc == AddSample(acc0, SampleAt(img, area, s, step, i, j))
  {
    ghost var smp := SampleAt(img, area, s, step, i, j);
    var gray := GrayAt(img, area.x + i, area.y + j);
    acc := acc0.(pattern := acc0.pattern + [gray], brightness := acc0.brightness + gray,
                 samples := acc0.samples + 1);

    if i > -s && j > -s {
      var verticalGray := GrayAt(img, area.x + i, area.y + j - step);
      var verticalDiff := AbsR(gray - verticalGray);
      var horizontalGray := GrayAt(img, area.x + i - step, area.y + j);
      var horizontalDiff := AbsR(gray - horizontalGray);
      assert smp == Sample(gray, true, verticalDiff, horizontalDiff);
      acc := TallyEdges(acc, verticalDiff, horizontalDiff);
    }
  }

  /** Lines 128-136: the larger difference adds to the contrast, and each one above 10 is an edge. */
  method TallyEdges(acc0: Totals, verticalDiff: real, horizontalDiff: real) returns (acc: Totals)
    ensures var v, h := if verticalDiff > 10.0 then 1 else 0, if horizontalDiff > 10.0 then 1 else 0;
            acc == acc0.(contrast := acc0.contrast + MaxR(verticalDiff, horizontalDiff),
                         verticalEdges := acc0.verticalEdges + v, horizontalEdges := acc0.horizontalEdges + h,
                         edgeCount := acc0.edgeCount + v + h)
  {
    acc := acc0.(contrast := acc0.contrast + MaxR(verticalDiff, horizontalDiff));
    if verticalDiff > 10.0 {
      acc := acc.(verticalEdges := acc.verticalEdges + 1, edgeCount := acc.edgeCount + 1);
    }
    if horizontalDiff > 10.0 {
      acc := acc.(horizontalEdges := acc.horizontalEdges + 1, edgeCount := acc.edgeCount + 1);
    }
  }

  /** The inner loop of lines 102-138: column i of one area's grid. */
  method SampleColumn(img: ImageData, area: Area, s: int, step: int, i: int, acc0: Totals) returns (acc: Totals)
    requires ValidImage(img) && img.width >= 1 && img.height >= 1 && step >= 1
    ensures acc == Fold(acc0, Column(img, area, s, step, i, -s))
  {
    acc := acc0;
    var j := -s;
    while j <= s
      invariant Fold(acc, Column(img, area, s, step, i, j)) == Fold(acc0, Column(img, area, s, step, i, -s))
      decreases s - j
    {
      ColumnStep(img, area, s, step, i, j, acc);
      acc := VisitPoint(img, area, s, step, i, j, acc);
      j := j + step;
    }
  }

  /** Folding a column from row j is folding in the point at j, then the column from j + step. */
  lemma ColumnStep(img: ImageData, area: Area, s: int, step: int, i: int, j: int, acc: Totals)
    requires ValidImage(img) && img.width >= 1 && img.height >= 1 && step >= 1 && j <= s
    ensures Fold(acc, Column(img, area, s, step, i, j)) ==
            Fold(AddSample(acc, SampleAt(img, area, s, step, i, j)), Column(img, area, s, step, i, j + step))
  {
    var col := Column(img, area, s, step, i, j);
    assert col[1..] == Column(img, area, s, step, i, j + step);
  }

  /** The outer loop of lines 101-139: one area's grid, column by column. */
  method SampleArea(img: ImageData, area: Area, acc0: Totals) returns (acc: Totals)
    requires ValidImage(img) && img.width >= 1 && img.height >= 1
    requires SampleSize(img, area).Floor as real == SampleSize(img, area)
    ensures acc == Fold(acc0, AreaSamples(img, area))
  {
    var sampleSize := MinR(area.size, Min(img.width, img.height) as real / 4.0);
    var step := Max(1, (sampleSize / 25.0).Floor);
    GridStepOfIntegral(sampleSize);
    acc := SampleGrid(img, area, sampleSize.Floor, step, acc0);
  }

  /** The two loops over the square of half-side s around the area's centre. */
  method SampleGrid(img: ImageData, area: Area, s: int, step: int, acc0: Totals) returns (acc: Totals)
    requires ValidImage(img) && img.width >= 1 && img.height >= 1 && step >= 1
    ensures acc == Fold(acc0, Grid(img, area, s, step, -s))
  {
    acc := acc0;
    var i := -s;
    while i <= s
      invariant Fold(acc, Grid(img, area, s, step, i)) == Fold(acc0, Grid(img, area, s, step, -s))
      decreases s - i
    {
      FoldAppend(acc, Column(img, area, s, step, i, -s), Grid(img, area, s, step, i + step));
      acc := SampleColumn(img, area, s, step, i, acc);
      i := i + step;
    }
  }

  /**
   * getTextureFeatures: samples the top, middle and bottom areas of the region on a grid,
   * accumulating grey levels, contrast and edge counts, then classifies the edge direction.
   */
  method GetTextureFeatures(img: ImageData, region: Region) returns (t: Texture)
    requires TextureDefined(img, region)
    ensures t == TextureOf(img, region)
  {
    var areas := Areas(region);
    var acc := NoTotals;
    for k := 0 to 3
      invariant Fold(acc, AreasSamples(img, areas[k..])) == Fold(NoTotals, AreasSamples(img, areas))
    {
      assert areas[k..][1..] == areas[k + 1..];
      FoldAppend(acc, AreaSamples(img, areas[k]), AreasSamples(img, areas[k + 1..]));
      acc := SampleArea(img, areas[k], acc);
    }
    assert areas[3..] == [];
    ghost var total := RegionTotals(img, region);
    assert acc == total;

    var verticalRatio := acc.verticalEdges as real / acc.samples as real;
    var horizontalRatio := acc.horizontalEdges as real / acc.samples as real;
    var patternDirection := NoPattern;
    if verticalRatio > 0.1 && horizontalRatio > 0.1 {
      patternDirection := Both;
    } else if verticalRatio > 0.1 {
      patternDirection := Vertical;
    } else if horizontalRatio > 0.1 {
      patternDirection := Horizontal;
    }

    t := Texture(acc.contrast / acc.samples as real, acc.pattern, acc.edgeCount,
                 acc.brightness / acc.samples as real, acc.verticalEdges, acc.horizontalEdges,
                 patternDirection);
  }

  /** The direction rule in integers: a ratio exceeds 0.1 exactly when ten times the count exceeds the total. */
  lemma ClassifyInIntegers(v: int, h: int, n: int)
    requires n > 0
    ensures Classify(v, h, n) == Both <==> 10 * v > n && 10 * h > n
    ensures Classify(v, h, n) == Vertical <==> 10 * v > n && 10 * h <= n
    ensures Classify(v, h, n) == Horizontal <==> 10 * v <= n && 10 * h > n
    ensures Classify(v, h, n) == NoPattern <==> 10 * v <= n && 10 * h <= n
  {
    RatioAbove(v, n);
    RatioAbove(h, n);
  }

  lemma RatioAbove(v: int, n: int)
    requires n > 0
    ensures v as real / n as real > 0.1 <==> 10 * v > n
  {
    QuotientOrder(v as real, n as real, 0.1);
  }

  /** Swapping the two edge counts swaps Vertical and Horizontal and keeps Both and NoPattern. */
  lemma ClassifySwap(v: int, h: int, n: int)
    requires n > 0
    ensures Classify(h, v, n) == match Classify(v, h, n)
      case Vertical => Horizontal
      case Horizontal => Vertical
      case d => d
  {
  }
}
