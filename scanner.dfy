/** The frame scanner: findColorRegions (sockDetection.ts, lines 213-248). */
module Scanner {
  import opened Pixels
  import opened Grower

  /** The seed stride: never finer than 20 pixels. */
  function ScanStep(settings: Settings): (s: int)
    ensures s >= 20 && s >= settings.gridSize
  {
    Max(20, settings.gridSize)
  }

  /** The brightness test of lines 227-230: very bright (white) or very dark seeds are skipped. */
  predicate IsBackground(c: Color) {
    Brightness(c) > 240.0 || Brightness(c) < 15.0
  }

  /** The fixed shape filter of lines 235-239. */
  predicate ShapeOk(r: Region)
    requires r.width >= 1
  {
    var aspectRatio := r.height as real / r.width as real;
    aspectRatio >= 1.5 && aspectRatio <= 4.0 && r.height >= 100 && r.width >= 50
  }

  /** The shape filter in integer terms: 2h >= 3w, h <= 4w, h >= 100 and w >= 50. */
  lemma ShapeOkInIntegers(r: Region)
    requires r.width >= 1
    ensures ShapeOk(r) <==> 2 * r.height >= 3 * r.width && r.height <= 4 * r.width &&
                            r.height >= 100 && r.width >= 50
  {
    var h, w := r.height as real, r.width as real;
    QuotientOrder(h, w, 1.5);
    QuotientOrder(h, w, 4.0);
  }

  /** A region that passes the filter is at least 50 wide and 100 tall, at most 4 times taller than wide. */
  lemma ShapeOkBounds(r: Region)
    requires r.width >= 1 && ShapeOk(r)
    ensures 50 <= r.width && 100 <= r.height <= 4 * r.width
  {
    ShapeOkInIntegers(r);
  }

  /** What findColorRegions promises of each region it returns, and of its seed pixels[0]. */
  ghost predicate Found(img: ImageData, settings: Settings, r: Region)
    requires ValidImage(img)
  {
    |r.pixels| >= 1 && InFrame(img, r.pixels[0]) &&
    var seed := r.pixels[0];
    var step := ScanStep(settings);
    seed.0 % step == 0 && seed.1 % step == 0 &&
    !IsBackground(GetPixelColor(img, seed.0, seed.1)) &&
    (forall p :: p in r.pixels ==> InFrame(img, p)) &&
    (forall p :: p in r.pixels && p != seed ==> Accepts(img, p, GetPixelColor(img, seed.0, seed.1), settings)) &&
    NoDup(r.pixels) && Boxed(r) && BoxTight(r) &&
    r.width == r.maxX - r.minX + 1 >= 1 && r.height == r.maxY - r.minY + 1 >= 1 &&
    |r.pixels| <= r.size <= |r.pixels| + 1 &&
    r.size <= Max(1, settings.maxRegionSize + 7) &&
    r.size as real >= settings.minRegionSize as real * 0.7 &&
    r.color == MeanColor(ColorSum(img, r.pixels), r.size) && ValidColor(r.color) &&
    ShapeOk(r)
  }

  /** Seed a comes strictly before seed b in the row-by-row scan. */
  predicate ScanBefore(a: Point, b: Point) {
    a.1 < b.1 || (a.1 == b.1 && a.0 < b.0)
  }

  /** Regions share at most the earlier region's seed, which growRegion never marks visited. */
  ghost predicate SharesAtMostSeed(regions: seq<Region>)
    requires forall k :: 0 <= k < |regions| ==> |regions[k].pixels| >= 1
  {
    forall a, b, p :: 0 <= a < b < |regions| && p in regions[a].pixels && p in regions[b].pixels ==>
      p == regions[a].pixels[0]
  }

  /** The visited marks are exactly the cells of `marked`. */
  ghost predicate Marks(visited: array2<bool>, img: ImageData, marked: set<Point>)
    reads visited
  {
    visited.Length0 == img.width && visited.Length1 == img.height && marked <= Cells(img) &&
    forall x, y :: 0 <= x < img.width && 0 <= y < img.height ==> visited[x, y] == ((x, y) in marked)
  }

  /** A seed of the scan: an in-frame pixel whose coordinates are multiples of the stride. */
  predicate OnGrid(img: ImageData, settings: Settings, p: Point) {
    InFrame(img, p) && p.0 % ScanStep(settings) == 0 && p.1 % ScanStep(settings) == 0
  }

  /** What happened at one seed: the branch of lines 224-242 that the scan took there. */
  datatype Outcome =
    | AlreadyVisited
    | Background
    | Dropped(added: set<Point>)
    | Misshapen(region: Region, added: set<Point>)
    | Kept(region: Region, added: set<Point>)

  datatype Visit = Visit(seed: Point, outcome: Outcome)

  /** The cells an outcome marked visited. */
  function Added(o: Outcome): set<Point> {
    match o
    case AlreadyVisited => {}
    case Background => {}
    case Dropped(added) => added
    case Misshapen(_, added) => added
    case Kept(_, added) => added
  }

  /**
   * The outcome at a seed is the one findColorRegions takes given the cells `marked` before it:
   * a marked seed is skipped; a background seed is skipped; otherwise the fill from the seed's
   * colour over the unmarked cells happens, and its region is dropped when too small, discarded
   * when misshapen and kept otherwise.
   */
  ghost predicate Explains(img: ImageData, settings: Settings, marked: set<Point>, v: Visit)
    requires ValidImage(img) && InFrame(img, v.seed)
  {
    var seed := v.seed;
    var c := GetPixelColor(img, seed.0, seed.1);
    match v.outcome
    case AlreadyVisited => seed in marked
    case Background => seed !in marked && IsBackground(c)
    case Dropped(added) =>
      seed !in marked && !IsBackground(c) && Filled(img, seed, c, settings, marked, added) &&
      (1 + |added|) as real < settings.minRegionSize as real * 0.7
    case Misshapen(r, added) =>
      seed !in marked && !IsBackground(c) && Filled(img, seed, c, settings, marked, added) &&
      GrownRegion(img, seed, settings, r, added) &&
      r.size as real >= settings.minRegionSize as real * 0.7 && !ShapeOk(r)
    case Kept(r, added) =>
      seed !in marked && !IsBackground(c) && Filled(img, seed, c, settings, marked, added) &&
      GrownRegion(img, seed, settings, r, added) &&
      r.size as real >= settings.minRegionSize as real * 0.7 && ShapeOk(r)
  }

  /** The cells marked after the visits of a trace. */
  function MarkedBy(trace: seq<Visit>): set<Point> {
    if |trace| == 0 then {} else MarkedBy(trace[..|trace| - 1]) + Added(trace[|trace| - 1].outcome)
  }

  /** The regions a trace keeps, in scan order. */
  function KeptOf(trace: seq<Visit>): seq<Region> {
    if |trace| == 0 then []
    else
      var last := trace[|trace| - 1].outcome;
      KeptOf(trace[..|trace| - 1]) + if last.Kept? then [last.region] else []
  }

  ghost function SeedSet(trace: seq<Visit>): set<Point> {
    set k | 0 <= k < |trace| :: trace[k].seed
  }

  /** Every visit of the trace is explained by the cells its predecessors marked. */
  ghost predicate Explained(img: ImageData, settings: Settings, trace: seq<Visit>)
    requires ValidImage(img)
  {
    (forall k :: 0 <= k < |trace| ==> InFrame(img, trace[k].seed)) &&
    forall k {:trigger Explains(img, settings, MarkedBy(trace[..k]), trace[k])} :: 0 <= k < |trace| ==>
      Explains(img, settings, MarkedBy(trace[..k]), trace[k])
  }

  /** The seeds of the trace are exactly the grid points that come before `next`, in scan order. */
  ghost predicate ScannedUpTo(img: ImageData, settings: Settings, trace: seq<Visit>, next: Point) {
    (forall p :: p in SeedSet(trace) <==> OnGrid(img, settings, p) && ScanBefore(p, next)) &&
    (forall a, b :: 0 <= a < b < |trace| ==> ScanBefore(trace[a].seed, trace[b].seed))
  }

  /** The state of the scan: every kept region satisfies Found and all but its seed are marked. */
  ghost predicate ScanInv(img: ImageData, settings: Settings, marked: set<Point>, regions: seq<Region>)
    requires ValidImage(img)
  {
    AllFound(img, settings, regions) && MarkedBeyondSeeds(regions, marked) &&
    SharesAtMostSeed(regions) && SeedsOrdered(regions)
  }

  ghost predicate AllFound(img: ImageData, settings: Settings, regions: seq<Region>)
    requires ValidImage(img)
  {
    forall k :: 0 <= k < |regions| ==> Found(img, settings, regions[k])
  }

  ghost predicate MarkedBeyondSeeds(regions: seq<Region>, marked: set<Point>) {
    forall k, p :: 0 <= k < |regions| && p in regions[k].pixels && p != regions[k].pixels[0] ==> p in marked
  }

  ghost predicate SeedsOrdered(regions: seq<Region>)
    requires forall k :: 0 <= k < |regions| ==> |regions[k].pixels| >= 1
  {
    forall a, b :: 0 <= a < b < |regions| ==> ScanBefore(regions[a].pixels[0], regions[b].pixels[0])
  }

  /** Every seed kept so far comes before `next` in the scan. */
  ghost predicate SeedsBefore(regions: seq<Region>, next: Point) {
    forall k :: 0 <= k < |regions| ==> |regions[k].pixels| >= 1 && ScanBefore(regions[k].pixels[0], next)
  }

  lemma SeedsBeforeLater(regions: seq<Region>, a: Point, b: Point)
    requires SeedsBefore(regions, a)
    requires a.1 < b.1 || (a.1 == b.1 && a.0 <= b.0)
    ensures SeedsBefore(regions, b)
  {
  }

  /**
   * findColorRegions: seeds at every multiple of the stride, row by row; already visited or
   * background seeds are skipped; the grown region is kept when it passes the shape filter.
   * One visited record is shared by all seeds, so kept regions overlap at most in a seed.
   * `trace` records, for every grid point in scan order, which branch the scan took there.
   */
  method FindColorRegions(img: ImageData, settings: Settings) returns (regions: seq<Region>, ghost trace: seq<Visit>)
    requires ValidImage(img)
    ensures AllFound(img, settings, regions)
    ensures SharesAtMostSeed(regions)
    ensures SeedsOrdered(regions)
    ensures forall p :: p in SeedSet(trace) <==> OnGrid(img, settings, p)
    ensures forall a, b :: 0 <= a < b < |trace| ==> ScanBefore(trace[a].seed, trace[b].seed)
    ensures Explained(img, settings, trace)
    ensures regions == KeptOf(trace)
  {
    regions := [];
    trace := [];
    var visited := new bool[img.width, img.height]((x, y) => false);
    ghost var marked: set<Point> := {};
    var height := img.height;
    ScanStart(img, settings, visited);

    var y := 0;
    while y < height
      invariant ScanState(img, settings, visited, marked, regions, trace, (0, y))
    {
      regions, marked, trace, y := ScanRow(img, settings, visited, regions, marked, trace, y);
    }
    ScannedAll(img, settings, trace, y);
  }

  /** Before the first seed nothing is marked, kept or traced. */
  lemma ScanStart(img: ImageData, settings: Settings, visited: array2<bool>)
    requires ValidImage(img) && visited.Length0 == img.width && visited.Length1 == img.height
    requires forall x, y :: 0 <= x < img.width && 0 <= y < img.height ==> !visited[x, y]
    ensures ScanState(img, settings, visited, {}, [], [], (0, 0))
  {
    forall p | OnGrid(img, settings, p)
      ensures !ScanBefore(p, (0, 0))
    {
    }
  }

  /** One round of the outer loop: the seeds of row y, left to right. */
  method ScanRow(img: ImageData, settings: Settings, visited: array2<bool>, regions0: seq<Region>,
                 ghost marked0: set<Point>, ghost trace0: seq<Visit>, y: int)
    returns (regions: seq<Region>, ghost marked: set<Point>, ghost trace: seq<Visit>, nextY: int)
    requires ValidImage(img) && y < img.height
    requires ScanState(img, settings, visited, marked0, regions0, trace0, (0, y))
    modifies visited
    ensures nextY == y + ScanStep(settings)
    ensures ScanState(img, settings, visited, marked, regions, trace, (0, nextY))
  {
    regions, marked, trace := regions0, marked0, trace0;
    var width := img.width;
    var scanStep := ScanStep(settings);
    var x := 0;
    while x < width
      invariant ScanState(img, settings, visited, marked, regions, trace, (x, y))
    {
      regions, marked, trace, x := ScanAt(img, settings, visited, regions, marked, trace, x, y);
    }
    MultipleStep(y, scanStep);
    ScannedRowEnd(img, settings, trace, x, y);
    SeedsBeforeLater(regions, (x, y), (0, y + scanStep));
    nextY := y + scanStep;
  }

  /** The state of the scan before the grid point `next`. */
  ghost predicate ScanState(img: ImageData, settings: Settings, visited: array2<bool>, marked: set<Point>,
                            regions: seq<Region>, trace: seq<Visit>, next: Point)
    requires ValidImage(img)
    reads visited
  {
    0 <= next.0 && 0 <= next.1 && next.0 % ScanStep(settings) == 0 && next.1 % ScanStep(settings) == 0 &&
    Marks(visited, img, marked) &&
    ScanInv(img, settings, marked, regions) && SeedsBefore(regions, next) &&
    marked == MarkedBy(trace) && regions == KeptOf(trace) &&
    Explained(img, settings, trace) && ScannedUpTo(img, settings, trace, next)
  }

  /** One round of the inner loop: the seed (x, y), recorded in the trace. */
  method ScanAt(img: ImageData, settings: Settings, visited: array2<bool>, regions0: seq<Region>,
                ghost marked0: set<Point>, ghost trace0: seq<Visit>, x: int, y: int)
    returns (regions: seq<Region>, ghost marked: set<Point>, ghost trace: seq<Visit>, nextX: int)
    requires ValidImage(img) && x < img.width && y < img.height
    requires ScanState(img, settings, visited, marked0, regions0, trace0, (x, y))
    modifies visited
    ensures nextX == x + ScanStep(settings)
    ensures ScanState(img, settings, visited, marked, regions, trace, (nextX, y))
  {
    nextX := x + ScanStep(settings);
    MultipleStep(x, ScanStep(settings));
    ghost var outcome;
    regions, marked, outcome := ScanSeed(img, settings, visited, regions0, x, y, marked0, trace0);
    trace := trace0 + [Visit((x, y), outcome)];
    TraceKeeps(trace0, Visit((x, y), outcome));
    ScannedSkip(img, settings, trace, x, y);
    SeedsBeforeLater(regions, (x + 1, y), (nextX, y));
  }

  /** The marks and kept regions of a trace grow by those of its last visit. */
  lemma TraceKeeps(trace: seq<Visit>, v: Visit)
    ensures MarkedBy(trace + [v]) == MarkedBy(trace) + Added(v.outcome)
    ensures KeptOf(trace + [v]) == KeptOf(trace) + if v.outcome.Kept? then [v.outcome.region] else []
  {
    assert (trace + [v])[..|trace|] == trace;
  }

  /** Appending a visit explained by the trace's marks keeps the trace explained. */
  lemma TraceAppend(img: ImageData, settings: Settings, trace: seq<Visit>, v: Visit)
    requires ValidImage(img) && InFrame(img, v.seed) && Explained(img, settings, trace)
    requires Explains(img, settings, MarkedBy(trace), v)
    ensures Explained(img, settings, trace + [v])
  {
    var t := trace + [v];
    assert t[..|t| - 1] == trace;
    forall k | 0 <= k < |t|
      ensures InFrame(img, t[k].seed) && Explains(img, settings, MarkedBy(t[..k]), t[k])
    {
      if k < |trace| {
        assert t[..k] == trace[..k] && t[k] == trace[k];
        assert Explains(img, settings, MarkedBy(trace[..k]), trace[k]);
      }
    }
  }

  /** The last visit of an explained trace is explained by the cells its predecessors marked. */
  lemma ExplainedLast(img: ImageData, settings: Settings, trace: seq<Visit>, v: Visit)
    requires ValidImage(img) && Explained(img, settings, trace + [v])
    ensures InFrame(img, v.seed) && Explains(img, settings, MarkedBy(trace), v)
  {
    var t := trace + [v];
    assert t[..|trace|] == trace && t[|trace|] == v;
    assert InFrame(img, t[|trace|].seed);
    assert Explains(img, settings, MarkedBy(t[..|trace|]), t[|trace|]);
  }

  /** The regions a trace keeps are exactly the regions of its Kept visits. */
  lemma {:induction false} KeptOfMembers(trace: seq<Visit>, r: Region)
    ensures r in KeptOf(trace) <==>
              exists k :: 0 <= k < |trace| && trace[k].outcome.Kept? && trace[k].outcome.region == r
  {
    if |trace| > 0 {
      var prefix, last := trace[..|trace| - 1], trace[|trace| - 1];
      KeptOfMembers(prefix, r);
      if r in KeptOf(trace) {
        if r in KeptOf(prefix) {
          var k :| 0 <= k < |prefix| && prefix[k].outcome.Kept? && prefix[k].outcome.region == r;
          assert trace[k] == prefix[k];
        } else {
          assert last.outcome.Kept? && last.outcome.region == r;
        }
      }
      if exists k :: 0 <= k < |trace| && trace[k].outcome.Kept? && trace[k].outcome.region == r {
        var k :| 0 <= k < |trace| && trace[k].outcome.Kept? && trace[k].outcome.region == r;
        if k < |prefix| {
          assert prefix[k] == trace[k];
        }
      }
    }
  }

  /** Two multiples of s less than s apart are equal. */
  lemma MultiplesApart(a: int, b: int, s: int)
    requires s > 0 && a % s == 0 && b % s == 0 && a <= b < a + s
    ensures a == b
  {
    DivMod(a, s);
    DivMod(b, s);
    var d := b / s - a / s;
    assert d * s == b - a;
    if d >= 1 {
      MulAtLeast(d, s);
    } else if d <= -1 {
      MulAtMost(d, s);
    }
  }

  /** After the visit at the grid point (x, y), no grid point lies before (x + stride, y) but after it. */
  lemma ScannedSkip(img: ImageData, settings: Settings, trace: seq<Visit>, x: int, y: int)
    requires |trace| >= 1 && trace[|trace| - 1].seed == (x, y) && x % ScanStep(settings) == 0
    requires ScannedUpTo(img, settings, trace[..|trace| - 1], (x, y))
    requires InFrame(img, (x, y)) && y % ScanStep(settings) == 0
    ensures ScannedUpTo(img, settings, trace, (x + ScanStep(settings), y))
  {
    var prefix := trace[..|trace| - 1];
    assert trace == prefix + [trace[|trace| - 1]];
    assert SeedSet(trace) == SeedSet(prefix) + {(x, y)} by {
      forall p | p in SeedSet(trace)
        ensures p in SeedSet(prefix) + {(x, y)}
      {
        var k :| 0 <= k < |trace| && trace[k].seed == p;
        if k < |prefix| {
          assert prefix[k] == trace[k];
        }
      }
      forall p | p in SeedSet(prefix)
        ensures p in SeedSet(trace)
      {
        var k :| 0 <= k < |prefix| && prefix[k].seed == p;
        assert trace[k] == prefix[k];
      }
      assert trace[|trace| - 1].seed == (x, y);
    }
    forall p | OnGrid(img, settings, p) && ScanBefore(p, (x + ScanStep(settings), y)) && !ScanBefore(p, (x, y))
      ensures p == (x, y)
    {
      MultiplesApart(x, p.0, ScanStep(settings));
    }
    forall a, b | 0 <= a < b < |trace|
      ensures ScanBefore(trace[a].seed, trace[b].seed)
    {
      if b < |prefix| {
        assert trace[a] == prefix[a] && trace[b] == prefix[b];
      } else {
        assert trace[a] == prefix[a];
        assert trace[a].seed in SeedSet(prefix);
      }
    }
  }

  /** Past the right edge of row y, the next grid point of the scan is (0, y + stride). */
  lemma ScannedRowEnd(img: ImageData, settings: Settings, trace: seq<Visit>, x: int, y: int)
    requires ScannedUpTo(img, settings, trace, (x, y))
    requires x >= img.width && y % ScanStep(settings) == 0
    ensures ScannedUpTo(img, settings, trace, (0, y + ScanStep(settings)))
  {
    forall p | OnGrid(img, settings, p) && ScanBefore(p, (0, y + ScanStep(settings)))
      ensures ScanBefore(p, (x, y))
    {
      if p.1 > y {
        MultiplesApart(y, p.1, ScanStep(settings));
      }
    }
  }

  /** Below the last row, every grid point has been a seed. */
  lemma ScannedAll(img: ImageData, settings: Settings, trace: seq<Visit>, y: int)
    requires ScannedUpTo(img, settings, trace, (0, y)) && y >= img.height
    ensures forall p :: p in SeedSet(trace) <==> OnGrid(img, settings, p)
  {
  }

  /** The marked cells are the set of visited cells. */
  lemma MarksVisitedSet(visited: array2<bool>, img: ImageData, marked: set<Point>)
    requires Marks(visited, img, marked)
    ensures VisitedSet(visited, img) == marked
  {
    VisitedSetIs(visited, img, marked);
  }

  /** The body of the inner loop (lines 224-242) for the seed (x, y). */
  method ScanSeed(img: ImageData, settings: Settings, visited: array2<bool>, regions0: seq<Region>,
                  x: int, y: int, ghost marked0: set<Point>, ghost trace0: seq<Visit>)
    returns (regions: seq<Region>, ghost marked: set<Point>, ghost outcome: Outcome)
    requires ValidImage(img) && InFrame(img, (x, y))
    requires x % ScanStep(settings) == 0 && y % ScanStep(settings) == 0
    requires Marks(visited, img, marked0)
    requires ScanInv(img, settings, marked0, regions0) && SeedsBefore(regions0, (x, y))
    requires Explained(img, settings, trace0) && marked0 == MarkedBy(trace0)
    modifies visited
    ensures Marks(visited, img, marked)
    ensures ScanInv(img, settings, marked, regions) && SeedsBefore(regions, (x + 1, y))
    ensures Explained(img, settings, trace0 + [Visit((x, y), outcome)])
    ensures marked == marked0 + Added(outcome)
    ensures regions == regions0 + if outcome.Kept? then [outcome.region] else []
  {
    regions, marked, outcome := regions0, marked0, AlreadyVisited;
    SeedsBeforeLater(regions, (x, y), (x + 1, y));
    if !visited[x, y] {
      var color := GetPixelColor(img, x, y);
      var brightness := (color.r + color.g + color.b) as real / 3.0;
      if brightness > 240.0 || brightness < 15.0 {
        outcome := Background;
      } else {
        MarksVisitedSet(visited, img, marked0);
        var region, added := GrowRegion(img, x, y, color, visited, settings);
        marked := marked0 + added;
        assert Marks(visited, img, marked);
        KeepOldRegions(img, settings, marked0, marked, regions0);
        outcome := Dropped(added);
        if region.Some? {
          var r := region.value;
          var aspectRatio := r.height as real / r.width as real;
          outcome := Misshapen(r, added);
          if aspectRatio >= 1.5 && aspectRatio <= 4.0 && r.height >= 100 && r.width >= 50 {
            outcome := Kept(r, added);
            assert (x, y) !in marked0;
            assert Found(img, settings, r);
            AppendKept(img, settings, marked0, added, regions0, r, x, y);
            regions := regions + [r];
          }
        }
      }
    }
    TraceAppend(img, settings, trace0, Visit((x, y), outcome));
  }

  /** Marking more cells keeps the scan state of the regions kept so far. */
  lemma KeepOldRegions(img: ImageData, settings: Settings, marked0: set<Point>, marked: set<Point>, regions: seq<Region>)
    requires ValidImage(img)
    requires ScanInv(img, settings, marked0, regions) && marked0 <= marked
    ensures ScanInv(img, settings, marked, regions)
  {
  }

  /** A region grown from the unmarked seed (x, y) from unmarked cells overlaps earlier regions at most in their seeds. */
  lemma AppendKept(img: ImageData, settings: Settings, marked0: set<Point>, added: set<Point>,
                   regions: seq<Region>, r: Region, x: int, y: int)
    requires ValidImage(img)
    requires ScanInv(img, settings, marked0, regions) && SeedsBefore(regions, (x, y))
    requires Found(img, settings, r) && r.pixels[0] == (x, y) && (x, y) !in marked0
    requires forall p :: p in r.pixels ==> p == (x, y) || p in added
    requires added !! marked0
    ensures ScanInv(img, settings, marked0 + added, regions + [r])
    ensures SeedsBefore(regions + [r], (x + 1, y))
  {
    AppendFound(img, settings, regions, r);
    AppendMarked(regions, r, marked0, added);
    AppendShares(regions, r, marked0);
    AppendOrdered(regions, r);
  }

  lemma AppendFound(img: ImageData, settings: Settings, regions: seq<Region>, r: Region)
    requires ValidImage(img) && AllFound(img, settings, regions) && Found(img, settings, r)
    ensures AllFound(img, settings, regions + [r])
  {
    var rs := regions + [r];
    forall k | 0 <= k < |rs|
      ensures Found(img, settings, rs[k])
    {
      if k < |regions| {
        assert rs[k] == regions[k];
      }
    }
  }

  lemma AppendMarked(regions: seq<Region>, r: Region, marked0: set<Point>, added: set<Point>)
    requires MarkedBeyondSeeds(regions, marked0) && |r.pixels| >= 1
    requires forall p :: p in r.pixels ==> p == r.pixels[0] || p in added
    ensures MarkedBeyondSeeds(regions + [r], marked0 + added)
  {
    var rs := regions + [r];
    forall k, p | 0 <= k < |rs| && p in rs[k].pixels && p != rs[k].pixels[0]
      ensures p in marked0 + added
    {
      if k < |regions| {
        assert rs[k] == regions[k];
      }
    }
  }

  lemma AppendShares(regions: seq<Region>, r: Region, marked0: set<Point>)
    requires forall k :: 0 <= k < |regions| ==> |regions[k].pixels| >= 1
    requires SharesAtMostSeed(regions) && MarkedBeyondSeeds(regions, marked0) && |r.pixels| >= 1
    requires forall p :: p in r.pixels ==> p !in marked0
    ensures SharesAtMostSeed(regions + [r])
  {
    var rs := regions + [r];
    forall a, b, p | 0 <= a < b < |rs| && p in rs[a].pixels && p in rs[b].pixels
      ensures p == rs[a].pixels[0]
    {
      assert rs[a] == regions[a];
      if b < |regions| {
        assert rs[b] == regions[b];
      }
    }
  }

  lemma AppendOrdered(regions: seq<Region>, r: Region)
    requires forall k :: 0 <= k < |regions| ==> |regions[k].pixels| >= 1
    requires SeedsOrdered(regions) && |r.pixels| >= 1 && SeedsBefore(regions, r.pixels[0])
    ensures SeedsOrdered(regions + [r])
  {
    var rs := regions + [r];
    forall a, b | 0 <= a < b < |rs|
      ensures ScanBefore(rs[a].pixels[0], rs[b].pixels[0])
    {
      assert rs[a] == regions[a];
      if b < |regions| {
        assert rs[b] == regions[b];
      }
    }
  }

  lemma MulAtLeast(a: int, s: int)
    requires s > 0 && a >= 1
    ensures a * s >= s
  {
  }

  lemma MulAtMost(a: int, s: int)
    requires s > 0 && a <= -1
    ensures a * s <= -s
  {
  }

  lemma DivMod(y: int, s: int)
    requires s > 0
    ensures y == (y / s) * s + y % s && 0 <= y % s < s
  {
  }

  /** Stepping by the stride from a multiple of the stride lands on a multiple of the stride. */
  lemma MultipleStep(x: int, s: int)
    requires s > 0 && x % s == 0
    ensures (x + s) % s == 0
  {
    DivMod(x, s);
    var q := x / s;
    var y := x + s;
    DivMod(y, s);
    var r := y % s;
    var q' := y / s;
    assert q * s + s == q' * s + r;
    assert (q + 1 - q') * s == r;
    if q + 1 - q' >= 1 {
      MulAtLeast(q + 1 - q', s);
    } else if q + 1 - q' <= -1 {
      MulAtMost(q + 1 - q', s);
    }
  }
}
