/** The region grower: growRegion, a queue-based 8-neighbour flood fill (sockDetection.ts, lines 250-335). */
module Grower {
  import opened Pixels

  /**
   * The caller's parameter object. The last three fields are part of the record but no
   * operation of the detector reads them.
   */
  datatype Settings = Settings(
    gridSize: int, minRegionSize: int, maxRegionSize: int, colorThreshold: int,
    sizeRatioThreshold: real, aspectRatioThreshold: real, textureThreshold: real)

  /**
   * A candidate blob: bounding box, colour, member pixels, pixel count and box extent.
   * pixels is an insertion-ordered set (a sequence without repetitions), as a JavaScript Set.
   * The texture descriptor is computed later, by the matcher.
   */
  datatype Region = Region(
    minX: int, maxX: int, minY: int, maxY: int, color: Color,
    pixels: seq<Point>, size: int, width: int, height: int)

  /** The eight neighbours of p, in the order growRegion visits them. */
  function Neighbors(p: Point): (ns: seq<Point>)
    ensures |ns| == 8
    ensures forall q :: q in ns <==> Adjacent(p, q)
  {
    var (x, y) := p;
    var ns := [(x + 1, y), (x - 1, y), (x, y + 1), (x, y - 1),
               (x + 1, y + 1), (x - 1, y - 1), (x + 1, y - 1), (x - 1, y + 1)];
    assert forall q :: q != p && -1 <= q.0 - x <= 1 && -1 <= q.1 - y <= 1 ==> q in ns by {
      forall q | q != p && -1 <= q.0 - x <= 1 && -1 <= q.1 - y <= 1
        ensures q in ns
      {
        var (qx, qy) := q;
        if qx == x + 1 {
          if qy == y { assert q == ns[0]; }
          else if qy == y + 1 { assert q == ns[4]; }
          else { assert q == ns[6]; }
        } else if qx == x - 1 {
          if qy == y { assert q == ns[1]; }
          else if qy == y - 1 { assert q == ns[5]; }
          else { assert q == ns[7]; }
        } else {
          if qy == y + 1 { assert q == ns[2]; } else { assert q == ns[3]; }
        }
      }
    }
    ns
  }

  /** q is one of the eight pixels around p. */
  predicate Adjacent(p: Point, q: Point) {
    p != q && -1 <= q.0 - p.0 <= 1 && -1 <= q.1 - p.1 <= 1
  }

  /** The growth test: colour distance to the SEED colour at most 1.8 times the threshold. */
  predicate Accepts(img: ImageData, p: Point, startColor: Color, settings: Settings)
    requires ValidImage(img) && InFrame(img, p)
  {
    ColorDifference(GetPixelColor(img, p.0, p.1), startColor) as real <= settings.colorThreshold as real * 1.8
  }

  /** The colour test of line 294 in integers: five times the distance is at most nine times the threshold. */
  lemma AcceptsInIntegers(img: ImageData, p: Point, startColor: Color, settings: Settings)
    requires ValidImage(img) && InFrame(img, p)
    ensures Accepts(img, p, startColor, settings) <==>
            5 * ColorDifference(GetPixelColor(img, p.0, p.1), startColor) <= 9 * settings.colorThreshold
  {
  }

  /** The visited marks are those in base (set before this fill) and those of the accepted pixels. */
  ghost predicate VisitedAre(visited: array2<bool>, img: ImageData, base: set<Point>, added: set<Point>)
    reads visited
  {
    visited.Length0 == img.width && visited.Length1 == img.height &&
    forall x, y :: 0 <= x < img.width && 0 <= y < img.height ==>
      visited[x, y] == ((x, y) in base || (x, y) in added)
  }

  ghost function Cells(img: ImageData): set<Point> {
    set x, y | 0 <= x < img.width && 0 <= y < img.height :: (x, y)
  }

  /** The in-frame cells whose visited mark is set. */
  ghost function VisitedSet(visited: array2<bool>, img: ImageData): set<Point>
    reads visited
  {
    set x, y | 0 <= x < img.width && 0 <= y < img.height && x < visited.Length0 && y < visited.Length1 &&
               visited[x, y] :: (x, y)
  }

  /** A pointwise description of the marks determines the set of marked cells. */
  lemma VisitedSetIs(visited: array2<bool>, img: ImageData, marked: set<Point>)
    requires visited.Length0 == img.width && visited.Length1 == img.height && marked <= Cells(img)
    requires forall x, y :: 0 <= x < img.width && 0 <= y < img.height ==> visited[x, y] == ((x, y) in marked)
    ensures VisitedSet(visited, img) == marked
  {
  }

  /** Every member after the first touches an earlier member: the fill reached it from there. */
  ghost predicate Connected(ps: seq<Point>) {
    exists parent :: ReachedVia(ps, parent)
  }

  /** parent[k] names the earlier member next to which ps[k] was found. */
  predicate ReachedVia(ps: seq<Point>, parent: seq<int>) {
    |parent| == |ps| &&
    forall k {:trigger parent[k]} :: 0 < k < |ps| ==> 0 <= parent[k] < k && Adjacent(ps[parent[k]], ps[k])
  }

  /** m is marked unless it is out of the frame or fails the growth test. */
  ghost predicate Settled(img: ImageData, startColor: Color, settings: Settings, marked: set<Point>, m: Point)
    requires ValidImage(img)
  {
    InFrame(img, m) && Accepts(img, m, startColor, settings) ==> m in marked
  }

  lemma SettledGrows(img: ImageData, startColor: Color, settings: Settings,
                     marked: set<Point>, marked': set<Point>, m: Point)
    requires ValidImage(img) && marked <= marked'
    requires Settled(img, startColor, settings, marked, m)
    ensures Settled(img, startColor, settings, marked', m)
  {
  }

  /** Every pixel around q is settled: q has been expanded. */
  ghost predicate Expanded(img: ImageData, startColor: Color, settings: Settings, marked: set<Point>, q: Point)
    requires ValidImage(img)
  {
    forall m {:trigger Adjacent(q, m)} :: Adjacent(q, m) ==> Settled(img, startColor, settings, marked, m)
  }

  /** Every member (the seed or an accepted pixel) not waiting in the queue has been expanded. */
  ghost predicate ExpandedBut(img: ImageData, seed: Point, startColor: Color, settings: Settings,
                              marked: set<Point>, added: set<Point>, queue: seq<Point>)
    requires ValidImage(img)
  {
    forall q :: (q == seed || q in added) && q !in queue ==> Expanded(img, startColor, settings, marked, q)
  }

  /**
   * What a fill from seed over the cells marked `before` accepts: in-frame, unmarked pixels that
   * pass the growth test; and, unless it stopped at maxRegionSize, everything around its members
   * that passes the test.
   */
  ghost predicate Filled(img: ImageData, seed: Point, startColor: Color, settings: Settings,
                         before: set<Point>, added: set<Point>)
    requires ValidImage(img)
  {
    (forall p :: p in added ==> InFrame(img, p) && p !in before && Accepts(img, p, startColor, settings)) &&
    Spans(seed, added) && ReturnsViaNeighbor(seed, added) &&
    (1 + |added| < settings.maxRegionSize ==>
       Expanded(img, startColor, settings, before + added, seed) &&
       forall q {:trigger q in added} :: q in added ==> Expanded(img, startColor, settings, before + added, q))
  }

  /** The seed and the accepted pixels, listed from the seed so that each touches an earlier one. */
  ghost predicate Spans(seed: Point, added: set<Point>) {
    exists ms :: Lists(ms, seed, added) && Connected(ms)
  }

  /** ms starts at the seed and holds exactly the seed and the accepted pixels. */
  ghost predicate Lists(ms: seq<Point>, seed: Point, added: set<Point>) {
    |ms| >= 1 && ms[0] == seed && forall p :: p in ms <==> p == seed || p in added
  }

  /** The seed is accepted again only from an accepted pixel next to it. */
  ghost predicate ReturnsViaNeighbor(seed: Point, added: set<Point>) {
    seed in added ==> exists q :: q in added && Adjacent(q, seed)
  }

  predicate NoDup(s: seq<Point>) {
    forall a, b :: 0 <= a < b < |s| ==> s[a] != s[b]
  }

  /** Every member pixel lies in the bounding box. */
  predicate Boxed(r: Region) {
    forall p :: p in r.pixels ==> r.minX <= p.0 <= r.maxX && r.minY <= p.1 <= r.maxY
  }

  /** Each side of the bounding box is touched by some member pixel. */
  predicate BoxTight(r: Region) {
    (exists p :: p in r.pixels && p.0 == r.minX) && (exists p :: p in r.pixels && p.0 == r.maxX) &&
    (exists p :: p in r.pixels && p.1 == r.minY) && (exists p :: p in r.pixels && p.1 == r.maxY)
  }

  /**
   * What holds of the region under construction: it starts at the seed, its pixels are the
   * seed plus the accepted neighbours, and its size counts the seed once plus every acceptance.
   */
  ghost predicate GrowInv(img: ImageData, seed: Point, startColor: Color, settings: Settings,
                          region: Region, added: set<Point>)
  {
    ValidImage(img) && InFrame(img, seed) &&
    |region.pixels| >= 1 && region.pixels[0] == seed && NoDup(region.pixels) &&
    (forall p :: p in region.pixels <==> p == seed || p in added) &&
    (forall p :: p in added ==> InFrame(img, p) && Accepts(img, p, startColor, settings)) &&
    region.size == 1 + |added| && ReturnsViaNeighbor(seed, added) &&
    |region.pixels| == (if seed in added then |added| else |added| + 1) &&
    Boxed(region) && BoxTight(region) &&
    region.color == startColor && region.width == 1 && region.height == 1
  }

  /**
   * One neighbour (lines 285-305): skipped when out of the frame or visited, otherwise
   * accepted when its colour is close enough to the seed's: marked visited, added to pixels
   * (a Set: the seed is already there), queued, the box widened and size incremented.
   */
  method Consider(img: ImageData, visited: array2<bool>, seed: Point, startColor: Color,
                  settings: Settings, n: Point, region: Region, queue: seq<Point>,
                  ghost added: set<Point>, ghost base: set<Point>, ghost parent: Point)
    returns (region': Region, queue': seq<Point>, ghost added': set<Point>, ghost accepted: bool)
    requires GrowInv(img, seed, startColor, settings, region, added)
    requires VisitedAre(visited, img, base, added) && added !! base
    requires Connected(region.pixels) && parent in region.pixels && Adjacent(parent, n)
    modifies visited
    ensures GrowInv(img, seed, startColor, settings, region', added')
    ensures VisitedAre(visited, img, base, added') && added' !! base
    ensures Connected(region'.pixels)
    ensures accepted <==> InFrame(img, n) && n !in base && n !in added && Accepts(img, n, startColor, settings)
    ensures Settled(img, startColor, settings, base + added', n) && added <= added'
    ensures !accepted ==> added' == added && queue' == queue && region'.size == region.size
    ensures accepted ==> InFrame(img, n) && n in Cells(img) && n !in added && added' == added + {n} &&
                         queue' == queue + [n] && region'.size == region.size + 1
  {
    region', queue', added', accepted := region, queue, added, false;
    var (nx, ny) := n;
    if nx < 0 || nx >= img.width || ny < 0 || ny >= img.height {
      return;
    }
    if visited[nx, ny] {
      return;
    }
    var neighborColor := GetPixelColor(img, nx, ny);
    var colorDiff := ColorDifference(neighborColor, startColor);
    if colorDiff as real <= settings.colorThreshold as real * 1.8 {
      visited[nx, ny] := true;
      queue' := queue + [n];
      region' := AcceptedRegion(region, n);
      added', accepted := added + {n}, true;
      AcceptKeepsInv(img, seed, startColor, settings, region, added, n, parent);
      AcceptedConnected(region.pixels, parent, n);
    }
  }

  /** The region after accepting an unvisited, close-enough neighbour n. */
  function AcceptedRegion(region: Region, n: Point): (r: Region)
    ensures n in r.pixels && forall q :: q in region.pixels ==> q in r.pixels
    ensures forall q :: q in r.pixels ==> q == n || q in region.pixels
    ensures r.size == region.size + 1
    ensures r.minX <= n.0 <= r.maxX && r.minY <= n.1 <= r.maxY
    ensures r.minX <= region.minX && region.maxX <= r.maxX && r.minY <= region.minY && region.maxY <= r.maxY
    ensures r.color == region.color && r.width == region.width && r.height == region.height
  {
    region.(
      pixels := if n in region.pixels then region.pixels else region.pixels + [n],
      minX := Min(region.minX, n.0), maxX := Max(region.maxX, n.0),
      minY := Min(region.minY, n.1), maxY := Max(region.maxY, n.1),
      size := region.size + 1)
  }

  lemma AcceptKeepsInv(img: ImageData, seed: Point, startColor: Color, settings: Settings,
                       region: Region, added: set<Point>, n: Point, parent: Point)
    requires GrowInv(img, seed, startColor, settings, region, added)
    requires InFrame(img, n) && n !in added && Accepts(img, n, startColor, settings)
    requires parent in region.pixels && Adjacent(parent, n)
    ensures GrowInv(img, seed, startColor, settings, AcceptedRegion(region, n), added + {n})
  {
    if n == seed {
      assert parent in added + {n} && Adjacent(parent, seed);
    } else if seed in added {
      var q :| q in added && Adjacent(q, seed);
      assert q in added + {n};
    }
    var r' := AcceptedRegion(region, n);
    AcceptedPixels(region.pixels, seed, added, n);
    AcceptedBoxed(region, n);
    BoxTightGrows(region, r', n);
  }

  /** The pixel list after accepting n: still the seed first, then the accepted pixels, once each. */
  lemma AcceptedPixels(pixels: seq<Point>, seed: Point, added: set<Point>, n: Point)
    requires |pixels| >= 1 && pixels[0] == seed && NoDup(pixels)
    requires forall p :: p in pixels <==> p == seed || p in added
    requires |pixels| == (if seed in added then |added| else |added| + 1)
    requires n !in added
    ensures var ps := if n in pixels then pixels else pixels + [n];
      |ps| >= 1 && ps[0] == seed && NoDup(ps) &&
      (forall p :: p in ps <==> p == seed || p in added + {n}) &&
      |ps| == (if seed in added + {n} then |added + {n}| else |added + {n}| + 1) &&
      (forall p :: p in pixels ==> p in ps) && n in ps
  {
    assert |added + {n}| == |added| + 1;
    if n !in pixels {
      var ps := pixels + [n];
      forall a, b | 0 <= a < b < |ps|
        ensures ps[a] != ps[b]
      {
        if b == |pixels| {
          assert ps[a] == pixels[a];
        }
      }
    }
  }

  /** Appending a pixel next to a member keeps every member reachable from an earlier one. */
  lemma AcceptedConnected(ps: seq<Point>, parent: Point, n: Point)
    requires Connected(ps) && parent in ps && Adjacent(parent, n)
    ensures Connected(if n in ps then ps else ps + [n])
  {
    if n !in ps {
      var via :| ReachedVia(ps, via);
      var w :| 0 <= w < |ps| && ps[w] == parent;
      var ps', via' := ps + [n], via + [w];
      forall k | 0 < k < |ps'|
        ensures 0 <= via'[k] < k && Adjacent(ps'[via'[k]], ps'[k])
      {
        if k < |ps| {
          assert via'[k] == via[k];
        }
      }
      assert ReachedVia(ps', via');
    }
  }

  /** The bounding box after accepting n still holds every pixel. */
  lemma AcceptedBoxed(region: Region, n: Point)
    requires Boxed(region)
    ensures Boxed(AcceptedRegion(region, n))
  {
  }

  lemma BoxTightGrows(r: Region, r': Region, n: Point)
    requires BoxTight(r)
    requires forall p :: p in r.pixels ==> p in r'.pixels
    requires n in r'.pixels
    requires r'.minX == Min(r.minX, n.0) && r'.maxX == Max(r.maxX, n.0)
    requires r'.minY == Min(r.minY, n.1) && r'.maxY == Max(r.maxY, n.1)
    ensures BoxTight(r')
  {
    var a :| a in r.pixels && a.0 == r.minX;
    var b :| b in r.pixels && b.0 == r.maxX;
    var c :| c in r.pixels && c.1 == r.minY;
    var d :| d in r.pixels && d.1 == r.maxY;
    assert a in r'.pixels && b in r'.pixels && c in r'.pixels && d in r'.pixels;
  }

  /** Componentwise sum of the colours of the given pixels. */
  function ColorSum(img: ImageData, ps: seq<Point>): (s: Color)
    requires ValidImage(img) && forall p :: p in ps ==> InFrame(img, p)
  {
    if |ps| == 0 then Color(0, 0, 0)
    else
      var s := ColorSum(img, ps[..|ps| - 1]);
      var c := GetPixelColor(img, ps[|ps| - 1].0, ps[|ps| - 1].1);
      Color(s.r + c.r, s.g + c.g, s.b + c.b)
  }

  /** Each channel of the sum lies between 0 and 255 times the number of pixels. */
  lemma {:induction false} ColorSumBounds(img: ImageData, ps: seq<Point>)
    requires ValidImage(img) && forall p :: p in ps ==> InFrame(img, p)
    ensures 0 <= ColorSum(img, ps).r <= 255 * |ps|
    ensures 0 <= ColorSum(img, ps).g <= 255 * |ps|
    ensures 0 <= ColorSum(img, ps).b <= 255 * |ps|
  {
    if |ps| > 0 {
      ColorSumBounds(img, ps[..|ps| - 1]);
    }
  }

  /** The sum over pixels that all have colour c is c times their number. */
  lemma {:induction false} ColorSumUniform(img: ImageData, ps: seq<Point>, c: Color)
    requires ValidImage(img) && forall p :: p in ps ==> InFrame(img, p)
    requires forall p :: p in ps ==> GetPixelColor(img, p.0, p.1) == c
    ensures ColorSum(img, ps) == Color(c.r * |ps|, c.g * |ps|, c.b * |ps|)
  {
    if |ps| > 0 {
      var m := |ps| - 1;
      var init := ps[..m];
      assert forall p :: p in init ==> p in ps;
      ColorSumUniform(img, init, c);
      assert ps[m] in ps;
      var last := GetPixelColor(img, ps[m].0, ps[m].1);
      assert last == c;
      assert ColorSum(img, ps) == Color(c.r * m + c.r, c.g * m + c.g, c.b * m + c.b);
      assert c.r * m + c.r == c.r * (m + 1) && c.g * m + c.g == c.g * (m + 1) && c.b * m + c.b == c.b * (m + 1);
    }
  }

  /** Math.round: halves round up, toward positive infinity. */
  function Round(x: real): (n: int)
    ensures x - 0.5 < n as real <= x + 0.5
  {
    (x + 0.5).Floor
  }

  /** Rounding the mean total / size gives the whole number nearest to it, in integers. */
  lemma RoundedMeanNearest(total: int, size: int)
    requires size >= 1
    ensures var m := Round(total as real / size as real);
            -size <= 2 * (total - m * size) < size
  {
    var z := size as real;
    var x := total as real / z;
    var m := Round(x);
    assert x * z == total as real;
    WithinHalf(total as real, x, z, m as real);
    var d := total - m * size;
    assert d as real == total as real - m as real * z;
  }

  /** A quotient within half a unit of m puts the dividend within half the divisor of m times it. */
  lemma WithinHalf(total: real, x: real, z: real, m: real)
    requires z > 0.0 && x * z == total && m - 0.5 <= x < m + 0.5
    ensures m * z - 0.5 * z <= total < m * z + 0.5 * z
  {
    var below, above := x - m + 0.5, m + 0.5 - x;
    ScaleOrder(0.0, below, z);
    ScaleOrder(0.0, above, z);
    assert total - (m * z - 0.5 * z) == below * z;
    assert m * z + 0.5 * z - total == above * z;
  }

  /** The average colour of lines 323-327: channel sums divided by size (not by the pixel count), rounded. */
  function MeanColor(sum: Color, size: int): Color
    requires size >= 1
  {
    Color(Round(sum.r as real / size as real), Round(sum.g as real / size as real),
          Round(sum.b as real / size as real))
  }

  lemma RoundedMeanInByteRange(total: int, count: nat, size: int)
    requires size >= 1 && count <= size && 0 <= total <= 255 * count
    ensures 0 <= Round(total as real / size as real) <= 255
  {
    QuotientOrder(total as real, size as real, 255.0);
    QuotientOrder(total as real, size as real, 0.0);
  }

  /** The mean colour of in-frame pixels, divided by at least their number, is a valid colour. */
  lemma MeanColorValid(img: ImageData, ps: seq<Point>, size: int)
    requires ValidImage(img) && forall p :: p in ps ==> InFrame(img, p)
    requires size >= |ps| && size >= 1
    ensures ValidColor(MeanColor(ColorSum(img, ps), size))
  {
    var s := ColorSum(img, ps);
    ColorSumBounds(img, ps);
    RoundedMeanInByteRange(s.r, |ps|, size);
    RoundedMeanInByteRange(s.g, |ps|, size);
    RoundedMeanInByteRange(s.b, |ps|, size);
  }

  /**
   * A region of one uniform colour averages to that colour when size is its pixel count. When
   * size counts the seed twice, each channel keeps its value exactly when twice the value is at
   * most size, and otherwise comes out lower.
   */
  lemma MeanColorUniform(img: ImageData, ps: seq<Point>, c: Color, size: int)
    requires ValidImage(img) && forall p :: p in ps ==> InFrame(img, p)
    requires |ps| >= 1 && forall p :: p in ps ==> GetPixelColor(img, p.0, p.1) == c
    requires size == |ps| || size == |ps| + 1
    ensures size == |ps| ==> MeanColor(ColorSum(img, ps), size) == c
    ensures size == |ps| + 1 ==>
              var m := MeanColor(ColorSum(img, ps), size);
              m.r <= c.r && m.g <= c.g && m.b <= c.b &&
              (m.r == c.r <==> 2 * c.r <= size) && (m.g == c.g <==> 2 * c.g <= size) &&
              (m.b == c.b <==> 2 * c.b <= size)
  {
    ColorSumUniform(img, ps, c);
    assert ps[0] in ps;
    if size == |ps| {
      RoundExactMean(c.r, |ps|);
      RoundExactMean(c.g, |ps|);
      RoundExactMean(c.b, |ps|);
    } else {
      RoundShrunkMean(c.r, |ps|);
      RoundShrunkMean(c.g, |ps|);
      RoundShrunkMean(c.b, |ps|);
    }
  }

  /** n copies of v averaged over n + 1: v itself when 2v is at most n + 1, and below v otherwise. */
  lemma RoundShrunkMean(v: int, n: int)
    requires n >= 1 && v >= 0
    ensures var m := Round((v * n) as real / (n + 1) as real);
            m <= v && (m == v <==> 2 * v <= n + 1)
  {
    var s := n + 1;
    var m := Round((v * n) as real / s as real);
    RoundedMeanNearest(v * n, s);
    var d := v - m;
    assert v * n - m * s == d * s - v;
    WholeMultiples(d, s);
  }

  /** A whole multiple of a positive s is at least s, zero, or at most -s. */
  lemma WholeMultiples(d: int, s: int)
    requires s >= 1
    ensures d >= 1 ==> d * s >= s
    ensures d <= -1 ==> d * s <= -s
    ensures d == 0 ==> d * s == 0
  {
    if d >= 1 {
      assert d * s == s + (d - 1) * s;
    } else if d <= -1 {
      assert d * s == -s + (d + 1) * s;
    }
  }

  /** Each channel of the average colour is the whole number nearest to the channel sum over size, halves up. */
  lemma MeanColorNearest(sum: Color, size: int)
    requires size >= 1
    ensures var c := MeanColor(sum, size);
            -size <= 2 * (sum.r - c.r * size) < size && -size <= 2 * (sum.g - c.g * size) < size &&
            -size <= 2 * (sum.b - c.b * size) < size
  {
    RoundedMeanNearest(sum.r, size);
    RoundedMeanNearest(sum.g, size);
    RoundedMeanNearest(sum.b, size);
  }

  lemma RoundExactMean(v: int, n: int)
    requires n >= 1
    ensures Round((v * n) as real / n as real) == v
  {
    assert (v * n) as real == v as real * n as real;
    assert (v * n) as real / n as real == v as real;
  }

  /** The forEach over region.pixels of lines 314-321: the channel totals of the member pixels. */
  method SumColors(img: ImageData, pixels: seq<Point>) returns (total: Color)
    requires ValidImage(img) && forall p :: p in pixels ==> InFrame(img, p)
    ensures total == ColorSum(img, pixels)
  {
    var totalR, totalG, totalB := 0, 0, 0;
    for k := 0 to |pixels|
      invariant Color(totalR, totalG, totalB) == ColorSum(img, pixels[..k])
    {
      var (x, y) := pixels[k];
      var color := GetPixelColor(img, x, y);
      assert pixels[..k + 1][..k] == pixels[..k];
      totalR, totalG, totalB := totalR + color.r, totalG + color.g, totalB + color.b;
    }
    assert pixels[..|pixels|] == pixels;
    total := Color(totalR, totalG, totalB);
  }

  /** Everything growRegion promises about a region it returns. */
  ghost predicate GrownRegion(img: ImageData, seed: Point, settings: Settings, r: Region, added: set<Point>)
    requires ValidImage(img)
  {
    |r.pixels| >= 1 && r.pixels[0] == seed && NoDup(r.pixels) &&
    (forall p :: p in r.pixels <==> p == seed || p in added) &&
    (forall p :: p in r.pixels ==> InFrame(img, p)) &&
    Boxed(r) && BoxTight(r) &&
    r.width == r.maxX - r.minX + 1 >= 1 && r.height == r.maxY - r.minY + 1 >= 1 &&
    r.size == 1 + |added| && |r.pixels| <= r.size <= |r.pixels| + 1 &&
    r.size <= Max(1, settings.maxRegionSize + 7) &&
    r.color == MeanColor(ColorSum(img, r.pixels), r.size) && ValidColor(r.color) &&
    Connected(r.pixels)
  }

  /**
   * The while loop of lines 271-307: breadth-first growth from the seed until the queue is
   * empty or size has reached maxRegionSize. Every neighbour it accepts was in the frame and
   * unvisited, is now visited, and lies within 1.8 * colorThreshold of startColor.
   */
  method Flood(img: ImageData, seed: Point, startColor: Color, visited: array2<bool>, settings: Settings)
    returns (region: Region, ghost added: set<Point>)
    requires ValidImage(img) && InFrame(img, seed)
    requires visited.Length0 == img.width && visited.Length1 == img.height
    modifies visited
    ensures GrowInv(img, seed, startColor, settings, region, added)
    ensures forall p :: p in added ==> !old(visited[p.0, p.1])
    ensures forall x, y :: 0 <= x < img.width && 0 <= y < img.height ==>
              visited[x, y] == (old(visited[x, y]) || (x, y) in added)
    ensures region.size == 1 || region.size <= settings.maxRegionSize + 7
    ensures Connected(region.pixels)
    ensures VisitedSet(visited, img) == old(VisitedSet(visited, img)) + added
    ensures Filled(img, seed, startColor, settings, old(VisitedSet(visited, img)), added)
  {
    region := Region(seed.0, seed.0, seed.1, seed.1, startColor, [seed], 1, 1, 1);
    var queue := [seed];
    added := {};
    ghost var base := VisitedSet(visited, img);
    SeedStarts(img, seed, startColor, settings, region, base);
    region, added := Spread(img, seed, startColor, visited, settings, region, queue, added, base);
    VisitedSetIs(visited, img, base + added);
    SpreadFilled(img, seed, startColor, settings, region, added, base);
  }

  /** The region of lines 258-270, holding only the seed, meets what the loop expects of its start. */
  lemma SeedStarts(img: ImageData, seed: Point, startColor: Color, settings: Settings,
                   region: Region, base: set<Point>)
    requires ValidImage(img) && InFrame(img, seed)
    requires region == Region(seed.0, seed.0, seed.1, seed.1, startColor, [seed], 1, 1, 1)
    ensures GrowInv(img, seed, startColor, settings, region, {}) && Connected(region.pixels)
    ensures Queued(seed, {}, [seed]) && ExpandedBut(img, seed, startColor, settings, base + {}, {}, [seed])
  {
    assert BoxTight(region) by { assert seed in region.pixels; }
    assert ReachedVia(region.pixels, [0]);
  }

  /** What the loop leaves behind is a fill over the cells marked before it started. */
  lemma SpreadFilled(img: ImageData, seed: Point, startColor: Color, settings: Settings,
                     region: Region, added: set<Point>, base: set<Point>)
    requires GrowInv(img, seed, startColor, settings, region, added) && Connected(region.pixels)
    requires added !! base
    requires region.size < settings.maxRegionSize ==>
               forall q :: q == seed || q in added ==> Expanded(img, startColor, settings, base + added, q)
    ensures Filled(img, seed, startColor, settings, base, added)
  {
    assert Lists(region.pixels, seed, added);
  }

  /** The loop itself: each round takes the head of the queue and considers its eight neighbours. */
  method Spread(img: ImageData, seed: Point, startColor: Color, visited: array2<bool>, settings: Settings,
                region0: Region, queue0: seq<Point>, ghost added0: set<Point>, ghost base: set<Point>)
    returns (region: Region, ghost added: set<Point>)
    requires GrowInv(img, seed, startColor, settings, region0, added0)
    requires VisitedAre(visited, img, base, added0) && added0 !! base && added0 <= Cells(img)
    requires region0.size == 1 || region0.size <= settings.maxRegionSize + 7
    requires Connected(region0.pixels)
    requires Queued(seed, added0, queue0)
    requires ExpandedBut(img, seed, startColor, settings, base + added0, added0, queue0)
    modifies visited
    ensures GrowInv(img, seed, startColor, settings, region, added)
    ensures VisitedAre(visited, img, base, added) && added !! base && added <= Cells(img)
    ensures region.size == 1 || region.size <= settings.maxRegionSize + 7
    ensures Connected(region.pixels)
    ensures region.size < settings.maxRegionSize ==>
              forall q :: q == seed || q in added ==> Expanded(img, startColor, settings, base + added, q)
  {
    region, added := region0, added0;
    var queue := queue0;
    while |queue| > 0 && region.size < settings.maxRegionSize
      invariant GrowInv(img, seed, startColor, settings, region, added)
      invariant VisitedAre(visited, img, base, added) && added !! base
      invariant added <= Cells(img)
      invariant region.size == 1 || region.size <= settings.maxRegionSize + 7
      invariant Connected(region.pixels)
      invariant Queued(seed, added, queue)
      invariant ExpandedBut(img, seed, startColor, settings, base + added, added, queue)
      decreases |Cells(img) - added|, |queue|
    {
      var p := queue[0];
      ghost var queueBefore := queue;
      queue := queue[1..];
      ghost var before := added;
      ghost var grew;
      region, queue, added, grew := VisitNeighbors(img, visited, seed, startColor, settings, p, region, queue, added, base);
      ExpandedStep(img, seed, startColor, settings, base, before, added, queueBefore, queue);
      QueuedStep(seed, before, added, queueBefore, queue);
      if grew {
        RemainingShrinks(Cells(img), before, added);
      }
    }
  }

  /** Everything in the queue is the seed or an accepted pixel. */
  ghost predicate Queued(seed: Point, added: set<Point>, queue: seq<Point>) {
    forall q :: q in queue ==> q == seed || q in added
  }

  lemma QueuedStep(seed: Point, added0: set<Point>, added: set<Point>, queue0: seq<Point>, queue: seq<Point>)
    requires Queued(seed, added0, queue0) && |queue0| >= 1 && added0 <= added
    requires Tracks(queue0[1..], added0, queue, added)
    ensures Queued(seed, added, queue)
  {
    forall q | q in queue
      ensures q == seed || q in added
    {
      if q in queue0[1..] {
        assert q in queue0;
      }
    }
  }

  /** Expanding the head of the queue keeps every member that left the queue expanded. */
  lemma ExpandedStep(img: ImageData, seed: Point, startColor: Color, settings: Settings, base: set<Point>,
                     added0: set<Point>, added: set<Point>, queue0: seq<Point>, queue: seq<Point>)
    requires ValidImage(img) && |queue0| >= 1 && added0 <= added
    requires ExpandedBut(img, seed, startColor, settings, base + added0, added0, queue0)
    requires Expanded(img, startColor, settings, base + added, queue0[0])
    requires Tracks(queue0[1..], added0, queue, added)
    ensures ExpandedBut(img, seed, startColor, settings, base + added, added, queue)
  {
    forall q | (q == seed || q in added) && q !in queue
      ensures Expanded(img, startColor, settings, base + added, q)
    {
      if q != queue0[0] {
        assert queue0 == [queue0[0]] + queue0[1..];
        assert q !in queue0;
        assert Expanded(img, startColor, settings, base + added0, q);
      }
    }
  }

  /** Accepting pixels leaves fewer unaccepted cells: the measure that ends the fill. */
  lemma RemainingShrinks(cells: set<Point>, a: set<Point>, b: set<Point>)
    requires a < b <= cells
    ensures |cells - b| < |cells - a|
  {
    var x :| x in b && x !in a;
    var s := (cells - a) - {x};
    assert |s| == |cells - a| - 1;
    var rest := s - (cells - b);
    assert s == (cells - b) + rest;
    assert (cells - b) * rest == {};
    assert |s| == |cells - b| + |rest|;
  }

  /** The for-of loop of lines 279-306: Consider each of the eight neighbours of p in turn. */
  method VisitNeighbors(img: ImageData, visited: array2<bool>, seed: Point, startColor: Color,
                        settings: Settings, p: Point, region0: Region, queue0: seq<Point>,
                        ghost added0: set<Point>, ghost base: set<Point>)
    returns (region: Region, queue: seq<Point>, ghost added: set<Point>, ghost grew: bool)
    requires GrowInv(img, seed, startColor, settings, region0, added0)
    requires VisitedAre(visited, img, base, added0) && added0 !! base
    requires added0 <= Cells(img)
    requires Connected(region0.pixels) && (p == seed || p in added0)
    modifies visited
    ensures GrowInv(img, seed, startColor, settings, region, added)
    ensures VisitedAre(visited, img, base, added) && added !! base
    ensures added0 <= added <= Cells(img)
    ensures grew ==> added0 < added
    ensures !grew ==> added == added0 && queue == queue0
    ensures region.size <= region0.size + 8
    ensures Connected(region.pixels)
    ensures Expanded(img, startColor, settings, base + added, p)
    ensures Tracks(queue0, added0, queue, added)
    ensures Around(p, added - added0)
  {
    var neighbors := Neighbors(p);
    region, queue, added, grew := region0, queue0, added0, false;
    for k := 0 to 8
      invariant GrowInv(img, seed, startColor, settings, region, added)
      invariant VisitedAre(visited, img, base, added) && added !! base
      invariant added0 <= added <= Cells(img)
      invariant grew ==> added0 < added
      invariant !grew ==> added == added0 && queue == queue0
      invariant region.size <= region0.size + k
      invariant Connected(region.pixels)
      invariant forall j :: 0 <= j < k ==> Settled(img, startColor, settings, base + added, neighbors[j])
      invariant Tracks(queue0, added0, queue, added)
      invariant Around(p, added - added0)
    {
      assert p in region.pixels;
      ghost var accepted;
      ghost var before, queueBefore := added, queue;
      region, queue, added, accepted :=
        Consider(img, visited, seed, startColor, settings, neighbors[k], region, queue, added, base, p);
      grew := grew || accepted;
      if accepted {
        TracksAccepted(queue0, added0, queueBefore, before, neighbors[k]);
        AroundAccepted(p, added0, before, neighbors[k]);
      }
      forall j | 0 <= j <= k
        ensures Settled(img, startColor, settings, base + added, neighbors[j])
      {
        if j < k {
          SettledGrows(img, startColor, settings, base + before, base + added, neighbors[j]);
        }
      }
    }
    NeighborsExpanded(img, startColor, settings, base + added, p);
  }

  /** The queue holds what it held at the start and the pixels accepted since. */
  ghost predicate Tracks(queue0: seq<Point>, added0: set<Point>, queue: seq<Point>, added: set<Point>) {
    forall q :: q in queue <==> q in queue0 || q in added - added0
  }

  lemma TracksAccepted(queue0: seq<Point>, added0: set<Point>, queue: seq<Point>, added: set<Point>, n: Point)
    requires Tracks(queue0, added0, queue, added) && added0 <= added && n !in added
    ensures Tracks(queue0, added0, queue + [n], added + {n})
  {
  }

  /** Every pixel of s is one of the eight around p. */
  ghost predicate Around(p: Point, s: set<Point>) {
    forall q :: q in s ==> Adjacent(p, q)
  }

  lemma AroundAccepted(p: Point, added0: set<Point>, added: set<Point>, n: Point)
    requires Around(p, added - added0) && Adjacent(p, n)
    ensures Around(p, (added + {n}) - added0)
  {
  }

  /** A pixel whose eight neighbours are all settled has been expanded. */
  lemma NeighborsExpanded(img: ImageData, startColor: Color, settings: Settings, marked: set<Point>, p: Point)
    requires ValidImage(img)
    requires forall j :: 0 <= j < 8 ==> Settled(img, startColor, settings, marked, Neighbors(p)[j])
    ensures Expanded(img, startColor, settings, marked, p)
  {
    forall m | Adjacent(p, m)
      ensures Settled(img, startColor, settings, marked, m)
    {
      assert m in Neighbors(p);
      var j :| 0 <= j < 8 && Neighbors(p)[j] == m;
    }
  }

  /** The region of lines 309-327: the flooded region with its box dimensions and mean colour. */
  function Finished(img: ImageData, r: Region): Region
    requires ValidImage(img) && r.size >= 1 && forall p :: p in r.pixels ==> InFrame(img, p)
  {
    r.(width := r.maxX - r.minX + 1, height := r.maxY - r.minY + 1,
       color := MeanColor(ColorSum(img, r.pixels), r.size))
  }

  /** Finishing a flooded region yields everything growRegion promises about its result. */
  lemma FinishedIsGrown(img: ImageData, seed: Point, startColor: Color, settings: Settings,
                        r: Region, added: set<Point>)
    requires GrowInv(img, seed, startColor, settings, r, added) && Connected(r.pixels)
    requires r.size == 1 || r.size <= settings.maxRegionSize + 7
    ensures GrownRegion(img, seed, settings, Finished(img, r), added)
  {
    var f := Finished(img, r);
    assert f.pixels == r.pixels && f.size == r.size;
    assert Boxed(f) && BoxTight(f) by {
      assert f.minX == r.minX && f.maxX == r.maxX && f.minY == r.minY && f.maxY == r.maxY;
    }
    MeanColorValid(img, r.pixels, r.size);
  }

  /**
   * growRegion. The fill compares every candidate with startColor, shares `visited` with the
   * caller, never marks the seed itself visited, and stops dequeuing once size reaches
   * maxRegionSize. `added` names the neighbours it accepted.
   */
  method GrowRegion(img: ImageData, startX: int, startY: int, startColor: Color,
                    visited: array2<bool>, settings: Settings)
    returns (res: Option<Region>, ghost added: set<Point>)
    requires ValidImage(img) && InFrame(img, (startX, startY))
    requires visited.Length0 == img.width && visited.Length1 == img.height
    modifies visited
    ensures forall p :: p in added ==>
              InFrame(img, p) && !old(visited[p.0, p.1]) && Accepts(img, p, startColor, settings)
    ensures forall x, y :: 0 <= x < img.width && 0 <= y < img.height ==>
              visited[x, y] == (old(visited[x, y]) || (x, y) in added)
    ensures res.None? <==> (1 + |added|) as real < settings.minRegionSize as real * 0.7
    ensures res.Some? ==> GrownRegion(img, (startX, startY), settings, res.value, added)
    ensures VisitedSet(visited, img) == old(VisitedSet(visited, img)) + added
    ensures Filled(img, (startX, startY), startColor, settings, old(VisitedSet(visited, img)), added)
  {
    var region;
    region, added := Flood(img, (startX, startY), startColor, visited, settings);
    ghost var flooded := region;

    // Width and height from the bounding box (lines 309-311).
    region := region.(width := region.maxX - region.minX + 1, height := region.maxY - region.minY + 1);

    // Channel sums over the pixels, each divided by size and rounded (lines 313-327).
    var total := SumColors(img, region.pixels);
    region := region.(color := MeanColor(total, region.size));

    if region.size as real < settings.minRegionSize as real * 0.7 {
      return None, added;
    }
    FinishedIsGrown(img, (startX, startY), startColor, settings, flooded, added);
    return Some(region), added;
  }
}
