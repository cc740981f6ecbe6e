/** The pair matcher: findMatchingPairs (sockDetection.ts, lines 337-468). */
module Matcher {
  import opened Pixels
  import opened Grower
  import opened Textures
  import opened Comparator

  /**
   * A candidate pair (the Match record of lines 338-345). The two regions are named by their
   * positions i < j in the size-sorted copy, which is how the greedy loop's Set of regions
   * tells them apart: by identity, not by content.
   */
  datatype Match = Match(i: int, j: int, score: real, colorScore: real, textureScore: real, sizeScore: real)

  // ---------------------------------------------------------------- sorting by size

  ghost predicate Descending(rs: seq<Region>) {
    forall a, b :: 0 <= a < b < |rs| ==> rs[a].size >= rs[b].size
  }

  /** Inserts r after every element at least as large, so equal sizes keep their order. */
  function Insert(sorted: seq<Region>, r: Region): (res: seq<Region>)
    requires Descending(sorted)
    ensures |res| == |sorted| + 1
    ensures multiset(res) == multiset(sorted) + multiset{r}
    ensures forall a :: 0 <= a < |res| ==> res[a] == r || res[a] in sorted
    ensures Descending(res)
  {
    if |sorted| == 0 then [r]
    else
      var last := sorted[|sorted| - 1];
      if last.size >= r.size then
        AppendDescending(sorted, r);
        sorted + [r]
      else
        var front := Insert(sorted[..|sorted| - 1], r);
        InsertBefore(sorted, r, front);
        front + [last]
  }

  lemma AppendDescending(sorted: seq<Region>, r: Region)
    requires Descending(sorted) && |sorted| > 0 && sorted[|sorted| - 1].size >= r.size
    ensures Descending(sorted + [r])
  {
    assert forall a :: 0 <= a < |sorted| ==> sorted[a].size >= sorted[|sorted| - 1].size;
  }

  /** The recursive case of Insert: r goes before the last element, which is smaller. */
  lemma InsertBefore(sorted: seq<Region>, r: Region, front: seq<Region>)
    requires Descending(sorted) && |sorted| > 0 && sorted[|sorted| - 1].size < r.size
    requires Descending(front)
    requires multiset(front) == multiset(sorted[..|sorted| - 1]) + multiset{r}
    requires forall a :: 0 <= a < |front| ==> front[a] == r || front[a] in sorted[..|sorted| - 1]
    ensures var res := front + [sorted[|sorted| - 1]];
      multiset(res) == multiset(sorted) + multiset{r} &&
      (forall a :: 0 <= a < |res| ==> res[a] == r || res[a] in sorted) &&
      Descending(res)
  {
    var init, last := sorted[..|sorted| - 1], sorted[|sorted| - 1];
    assert sorted == init + [last];
    forall a | 0 <= a < |front|
      ensures front[a].size >= last.size && (front[a] == r || front[a] in sorted)
    {
      if front[a] != r {
        var x :| 0 <= x < |init| && init[x] == front[a];
        assert sorted[x] == front[a];
      }
    }
  }

  /** The copy sorted by decreasing size of line 348 (a stable sort, as the engine's is). */
  function SortBySize(regions: seq<Region>): (sorted: seq<Region>)
    ensures |sorted| == |regions|
    ensures multiset(sorted) == multiset(regions)
    ensures Descending(sorted)
  {
    if |regions| == 0 then []
    else
      var init := regions[..|regions| - 1];
      assert regions == init + [regions[|regions| - 1]];
      Insert(SortBySize(init), regions[|regions| - 1])
  }

  // ---------------------------------------------------------------- scoring one pair

  /** The overlap of lines 358-362: the bounding boxes' common extent, without the +1 of a pixel count. */
  function Overlap(r1: Region, r2: Region): (o: int)
    ensures o >= 0
  {
    var dx := Max(0, Min(r1.maxX, r2.maxX) - Max(r1.minX, r2.minX));
    var dy := Max(0, Min(r1.maxY, r2.maxY) - Max(r1.minY, r2.minY));
    assert dx * dy >= 0 by { assert dx >= 0 && dy >= 0; }
    dx * dy
  }

  lemma OverlapSymmetric(r1: Region, r2: Region)
    ensures Overlap(r1, r2) == Overlap(r2, r1)
  {
  }

  /** Boxes that share only their boundary column overlap by nothing, although they share pixels. */
  lemma OverlapIgnoresSharedEdge(r1: Region, r2: Region)
    requires r1.maxX == r2.minX
    ensures Overlap(r1, r2) == 0
  {
  }

  predicate Dark(c: Color) {
    Brightness(c) < 80.0
  }

  /** The colour score of lines 377-390. */
  function ColorScore(c1: Color, c2: Color, colorThreshold: int): (s: real)
    requires colorThreshold > 0
    ensures s <= 1.0
    ensures c1 == c2 ==> s == 1.0
    ensures !(Dark(c1) && Dark(c2)) ==> 0.0 <= s
    ensures ValidColor(c1) && ValidColor(c2) && Dark(c1) && Dark(c2) ==> 0.0 < s
  {
    if Dark(c1) && Dark(c2) then
      1.0 - AbsR(Brightness(c1) - Brightness(c2)) / 80.0
    else
      var colorDiff := ColorDifference(c1, c2);
      MaxR(0.0, 1.0 - colorDiff as real / (colorThreshold * 2) as real)
  }

  /** The three scoring regimes of lines 395-408. */
  datatype Regime = StrongPattern | DarkPair | Plain

  function RegimeOf(t1: Texture, t2: Texture, c1: Color, c2: Color): Regime {
    if t1.edgeCount > 100 || t2.edgeCount > 100 then StrongPattern
    else if Dark(c1) && Dark(c2) then DarkPair
    else Plain
  }

  /** The weighted score of lines 396-408. */
  function Score(g: Regime, textureScore: real, colorScore: real, sizeScore: real): real {
    match g
    case StrongPattern => textureScore * 0.7 + colorScore * 0.1 + sizeScore * 0.2
    case DarkPair => textureScore * 0.6 + colorScore * 0.2 + sizeScore * 0.2
    case Plain => textureScore * 0.4 + colorScore * 0.4 + sizeScore * 0.2
  }

  /** In every regime the weights are non-negative and sum to 1: the score is a weighted mean. */
  lemma ScoreIsMean(g: Regime, textureScore: real, colorScore: real, sizeScore: real, lo: real, hi: real)
    requires lo <= textureScore <= hi && lo <= colorScore <= hi && lo <= sizeScore <= hi
    ensures lo <= Score(g, textureScore, colorScore, sizeScore) <= hi
  {
  }

  /** The two gates of lines 411-414. */
  function MinScore(g: Regime): real {
    match g
    case StrongPattern => 0.4
    case DarkPair => 0.45
    case Plain => 0.5
  }

  function MinTextureScore(g: Regime): real {
    match g
    case StrongPattern => 0.3
    case DarkPair => 0.35
    case Plain => 0.4
  }

  /** A region the matcher can score: non-empty, with a well-defined texture. */
  ghost predicate Matchable(img: ImageData, r: Region) {
    TextureDefined(img, r) && r.size >= 1
  }

  lemma TextureComparable(img: ImageData, r: Region)
    requires TextureDefined(img, r)
    ensures Comparable(TextureOf(img, r))
  {
  }

  /** The overlap filter of lines 363-364: the boxes share more than 30% of the smaller region's pixel count. */
  predicate Crowded(overlap: int, minArea: int)
    requires minArea >= 1
  {
    overlap as real / minArea as real > 0.3
  }

  /** The filter in integers: ten times the overlap exceeds three times the smaller size. */
  lemma CrowdedInIntegers(overlap: int, minArea: int)
    requires minArea >= 1
    ensures Crowded(overlap, minArea) <==> 10 * overlap > 3 * minArea
  {
    QuotientOrder(overlap as real, minArea as real, 0.3);
  }

  /** The size score of line 374: the mean of the three ratios. */
  function SizeScore(heightRatio: real, widthRatio: real, sizeRatio: real): (s: real)
    ensures Min3(heightRatio, widthRatio, sizeRatio) <= s <= Max3(heightRatio, widthRatio, sizeRatio)
  {
    (heightRatio + widthRatio + sizeRatio) / 3.0
  }

  function Min3(a: real, b: real, c: real): real {
    MinR(a, MinR(b, c))
  }

  function Max3(a: real, b: real, c: real): real {
    MaxR(a, MaxR(b, c))
  }

  /**
   * The body of the inner loop (lines 355-421) for regions r1 and r2 with textures t1 and t2:
   * the candidate it records, if any.
   */
  function Evaluate(i: int, j: int, r1: Region, r2: Region, t1: Texture, t2: Texture,
                    settings: Settings, sqrt: real -> real): (m: Option<Match>)
    requires r1.size >= 1 && r2.size >= 1 && r1.width >= 1 && r2.width >= 1 && r1.height >= 1 && r2.height >= 1
    requires Comparable(t1) && Comparable(t2) && settings.colorThreshold > 0
    ensures m.Some? ==> m.value.i == i && m.value.j == j
  {
    var overlap := Overlap(r1, r2);
    var minArea := Min(r1.size, r2.size);
    if Crowded(overlap, minArea) then None
    else
      var heightRatio := Ratio(r1.height as real, r2.height as real);
      var widthRatio := Ratio(r1.width as real, r2.width as real);
      var sizeRatio := Ratio(r1.size as real, r2.size as real);
      if heightRatio < 0.5 || widthRatio < 0.5 || sizeRatio < 0.5 then None
      else Assess(i, j, r1, r2, t1, t2, settings, sqrt, SizeScore(heightRatio, widthRatio, sizeRatio))
  }

  lemma EvaluatePassedFilters(i: int, j: int, r1: Region, r2: Region, t1: Texture, t2: Texture,
                              settings: Settings, sqrt: real -> real)
    requires r1.size >= 1 && r2.size >= 1 && r1.width >= 1 && r2.width >= 1 && r1.height >= 1 && r2.height >= 1
    requires Comparable(t1) && Comparable(t2) && settings.colorThreshold > 0
    requires !Crowded(Overlap(r1, r2), Min(r1.size, r2.size))
    requires Ratio(r1.height as real, r2.height as real) >= 0.5 && Ratio(r1.width as real, r2.width as real) >= 0.5 &&
             Ratio(r1.size as real, r2.size as real) >= 0.5
    ensures Evaluate(i, j, r1, r2, t1, t2, settings, sqrt) ==
            Assess(i, j, r1, r2, t1, t2, settings, sqrt,
                   SizeScore(Ratio(r1.height as real, r2.height as real), Ratio(r1.width as real, r2.width as real),
                             Ratio(r1.size as real, r2.size as real)))
  {
  }

  lemma AssessWith(i: int, j: int, r1: Region, r2: Region, t1: Texture, t2: Texture,
                   settings: Settings, sqrt: real -> real, sizeScore: real, textureScore: real)
    requires Comparable(t1) && Comparable(t2) && settings.colorThreshold > 0
    requires textureScore == TextureDifferenceOf(t1, t2, sqrt)
    ensures var colorScore := ColorScore(r1.color, r2.color, settings.colorThreshold);
            var g := RegimeOf(t1, t2, r1.color, r2.color);
            var score := Score(g, textureScore, colorScore, sizeScore);
            Assess(i, j, r1, r2, t1, t2, settings, sqrt, sizeScore) ==
            if score > MinScore(g) && textureScore > MinTextureScore(g) then
              Some(Match(i, j, score, colorScore, textureScore, sizeScore))
            else None
  {
  }

  /** The scoring and gating of lines 376-421 for a pair that passed the size filter. */
  function Assess(i: int, j: int, r1: Region, r2: Region, t1: Texture, t2: Texture,
                  settings: Settings, sqrt: real -> real, sizeScore: real): (m: Option<Match>)
    requires Comparable(t1) && Comparable(t2) && settings.colorThreshold > 0
    ensures m.Some? ==> m.value.i == i && m.value.j == j
  {
    var colorScore := ColorScore(r1.color, r2.color, settings.colorThreshold);
    var textureScore := TextureDifferenceOf(t1, t2, sqrt);
    var g := RegimeOf(t1, t2, r1.color, r2.color);
    var score := Score(g, textureScore, colorScore, sizeScore);
    if score > MinScore(g) && textureScore > MinTextureScore(g) then
      Some(Match(i, j, score, colorScore, textureScore, sizeScore))
    else None
  }

  /**
   * The scoring and gating of lines 376-421 with the texture score as the source computes it.
   * Where that score is NaN (two regions without edges, or without contrast), score and texture
   * score are NaN and both comparisons of line 414 are false: nothing is recorded.
   */
  function AssessAsWritten(i: int, j: int, r1: Region, r2: Region, t1: Texture, t2: Texture,
                           settings: Settings, sqrt: real -> real, sizeScore: real): (m: Option<Match>)
    requires Comparable(t1) && Comparable(t2) && settings.colorThreshold > 0
    ensures m.Some? ==> m.value.i == i && m.value.j == j
  {
    match TextureDifferenceAsWritten(t1, t2, sqrt)
    case None => None
    case Some(textureScore) =>
      var colorScore := ColorScore(r1.color, r2.color, settings.colorThreshold);
      var g := RegimeOf(t1, t2, r1.color, r2.color);
      var score := Score(g, textureScore, colorScore, sizeScore);
      if score > MinScore(g) && textureScore > MinTextureScore(g) then
        Some(Match(i, j, score, colorScore, textureScore, sizeScore))
      else None
  }

  /**
   * The model's gating agrees with the source wherever the source's texture score is a number;
   * where it is NaN the source records nothing, while the model scores the pair 0.6 or 1.0.
   */
  lemma AssessAgreesWhereDefined(i: int, j: int, r1: Region, r2: Region, t1: Texture, t2: Texture,
                                 settings: Settings, sqrt: real -> real, sizeScore: real)
    requires Comparable(t1) && Comparable(t2) && settings.colorThreshold > 0
    ensures TextureDifferenceAsWritten(t1, t2, sqrt).Some? ==>
              AssessAsWritten(i, j, r1, r2, t1, t2, settings, sqrt, sizeScore) == Assess(i, j, r1, r2, t1, t2, settings, sqrt, sizeScore)
    ensures TextureDifferenceAsWritten(t1, t2, sqrt).None? ==> AssessAsWritten(i, j, r1, r2, t1, t2, settings, sqrt, sizeScore).None?
  {
  }

  /**
   * What every recorded candidate satisfies: the overlap filter, the three size ratios (so its
   * size score lies in 0.5..1), the weighted score of its regime and both gates of that regime.
   */
  lemma EvaluateSound(i: int, j: int, r1: Region, r2: Region, t1: Texture, t2: Texture,
                      settings: Settings, sqrt: real -> real)
    requires r1.size >= 1 && r2.size >= 1 && r1.width >= 1 && r2.width >= 1 && r1.height >= 1 && r2.height >= 1
    requires Comparable(t1) && Comparable(t2) && settings.colorThreshold > 0
    requires Evaluate(i, j, r1, r2, t1, t2, settings, sqrt).Some?
    ensures var m := Evaluate(i, j, r1, r2, t1, t2, settings, sqrt).value;
      var g := RegimeOf(t1, t2, r1.color, r2.color);
      10 * Overlap(r1, r2) <= 3 * Min(r1.size, r2.size) &&
      2 * Min(r1.height, r2.height) >= Max(r1.height, r2.height) &&
      2 * Min(r1.width, r2.width) >= Max(r1.width, r2.width) &&
      2 * Min(r1.size, r2.size) >= Max(r1.size, r2.size) &&
      0.5 <= m.sizeScore <= 1.0 &&
      m.textureScore == TextureDifferenceOf(t1, t2, sqrt) &&
      m.colorScore == ColorScore(r1.color, r2.color, settings.colorThreshold) &&
      m.score == Score(g, m.textureScore, m.colorScore, m.sizeScore) &&
      m.score > MinScore(g) && m.textureScore > MinTextureScore(g)
  {
    CrowdedInIntegers(Overlap(r1, r2), Min(r1.size, r2.size));
    HalfRatio(r1.height, r2.height);
    HalfRatio(r1.width, r2.width);
    HalfRatio(r1.size, r2.size);
  }

  /** A pair that fails the overlap filter or one of the size ratios is never recorded. */
  lemma EvaluateRejects(i: int, j: int, r1: Region, r2: Region, t1: Texture, t2: Texture,
                        settings: Settings, sqrt: real -> real)
    requires r1.size >= 1 && r2.size >= 1 && r1.width >= 1 && r2.width >= 1 && r1.height >= 1 && r2.height >= 1
    requires Comparable(t1) && Comparable(t2) && settings.colorThreshold > 0
    requires 10 * Overlap(r1, r2) > 3 * Min(r1.size, r2.size) ||
             2 * Min(r1.height, r2.height) < Max(r1.height, r2.height) ||
             2 * Min(r1.width, r2.width) < Max(r1.width, r2.width) ||
             2 * Min(r1.size, r2.size) < Max(r1.size, r2.size)
    ensures Evaluate(i, j, r1, r2, t1, t2, settings, sqrt).None?
  {
    CrowdedInIntegers(Overlap(r1, r2), Min(r1.size, r2.size));
    HalfRatio(r1.height, r2.height);
    HalfRatio(r1.width, r2.width);
    HalfRatio(r1.size, r2.size);
  }

  /**
   * The converse of EvaluateRejects: a pair within the overlap and ratio limits is scored, with
   * the mean of its three ratios as size score, and recorded exactly when AssessWith's gates pass.
   */
  lemma EvaluateScores(i: int, j: int, r1: Region, r2: Region, t1: Texture, t2: Texture,
                       settings: Settings, sqrt: real -> real)
    requires r1.size >= 1 && r2.size >= 1 && r1.width >= 1 && r2.width >= 1 && r1.height >= 1 && r2.height >= 1
    requires Comparable(t1) && Comparable(t2) && settings.colorThreshold > 0
    requires 10 * Overlap(r1, r2) <= 3 * Min(r1.size, r2.size)
    requires 2 * Min(r1.height, r2.height) >= Max(r1.height, r2.height) &&
             2 * Min(r1.width, r2.width) >= Max(r1.width, r2.width) &&
             2 * Min(r1.size, r2.size) >= Max(r1.size, r2.size)
    ensures Evaluate(i, j, r1, r2, t1, t2, settings, sqrt) ==
            Assess(i, j, r1, r2, t1, t2, settings, sqrt,
                   SizeScore(Ratio(r1.height as real, r2.height as real), Ratio(r1.width as real, r2.width as real),
                             Ratio(r1.size as real, r2.size as real)))
  {
    CrowdedInIntegers(Overlap(r1, r2), Min(r1.size, r2.size));
    HalfRatio(r1.height, r2.height);
    HalfRatio(r1.width, r2.width);
    HalfRatio(r1.size, r2.size);
    EvaluatePassedFilters(i, j, r1, r2, t1, t2, settings, sqrt);
  }

  /** A min/max ratio of positive integers is below 0.5 exactly when twice the smaller is below the larger. */
  lemma HalfRatio(a: int, b: int)
    requires a >= 1 && b >= 1
    ensures Ratio(a as real, b as real) < 0.5 <==> 2 * Min(a, b) < Max(a, b)
  {
    if a <= b {
      assert Ratio(a as real, b as real) == a as real / b as real;
      HalfQuotient(a as real, b as real);
    } else {
      assert Ratio(a as real, b as real) == b as real / a as real;
      HalfQuotient(b as real, a as real);
    }
  }

  lemma HalfQuotient(lo: real, hi: real)
    requires 0.0 < lo <= hi
    ensures lo / hi < 0.5 <==> 2.0 * lo < hi
  {
    QuotientOrder(lo, hi, 0.5);
  }

  /**
   * Two regions of the same colour, size and shape that do not overlap, each with the texture
   * score 0.6 of two uniform textures, pass the gates of every regime.
   */
  lemma UniformTwinsPass(i: int, j: int, r1: Region, r2: Region, t1: Texture, t2: Texture,
                         settings: Settings, sqrt: real -> real)
    requires r1.size >= 1 && r2.size >= 1 && r1.width >= 1 && r2.width >= 1 && r1.height >= 1 && r2.height >= 1
    requires Comparable(t1) && Comparable(t2) && settings.colorThreshold > 0
    requires r1.color == r2.color && r1.size == r2.size && r1.width == r2.width && r1.height == r2.height
    requires Overlap(r1, r2) == 0
    requires TextureDifferenceOf(t1, t2, sqrt) == 0.6
    ensures Evaluate(i, j, r1, r2, t1, t2, settings, sqrt).Some?
  {
  }

  /**
   * Where the model and the source part: twin regions of one flat colour, without edges or
   * contrast, are recorded by the model, while the source's NaN texture score rejects them at
   * the size score 1.0 such twins have.
   */
  lemma UniformTwinsDiverge(i: int, j: int, r1: Region, r2: Region, t1: Texture, t2: Texture,
                            settings: Settings, sqrt: real -> real, c: real)
    requires r1.size >= 1 && r2.size >= 1 && r1.width >= 1 && r2.width >= 1 && r1.height >= 1 && r2.height >= 1
    requires Comparable(t1) && Comparable(t2) && settings.colorThreshold > 0
    requires r1.color == r2.color && r1.size == r2.size && r1.width == r2.width && r1.height == r2.height
    requires Overlap(r1, r2) == 0
    requires forall k :: 0 <= k < |t1.pattern| ==> t1.pattern[k] == c
    requires t1.edgeCount == 0 && t2.edgeCount == 0 && t1.contrast == 0.0 && t2.contrast == 0.0
    requires t1.patternDirection == t2.patternDirection
    ensures Evaluate(i, j, r1, r2, t1, t2, settings, sqrt).Some?
    ensures AssessAsWritten(i, j, r1, r2, t1, t2, settings, sqrt, 1.0).None?
  {
    UniformPairScores(t1, t2, c, sqrt);
    UniformTwinsPass(i, j, r1, r2, t1, t2, settings, sqrt);
    UniformPairUndefined(t1, t2, sqrt);
  }

  // ---------------------------------------------------------------- all candidates

  ghost predicate MatchableAll(img: ImageData, settings: Settings, sorted: seq<Region>) {
    settings.colorThreshold > 0 && forall k :: 0 <= k < |sorted| ==> Matchable(img, sorted[k])
  }

  /** Evaluate applied to positions i and j of the sorted copy, with their textures. */
  ghost function EvaluateAt(img: ImageData, settings: Settings, sorted: seq<Region>, sqrt: real -> real,
                            i: int, j: int): (m: Option<Match>)
    requires MatchableAll(img, settings, sorted) && 0 <= i < |sorted| && 0 <= j < |sorted|
    ensures m.Some? ==> m.value.i == i && m.value.j == j
  {
    TextureComparable(img, sorted[i]);
    TextureComparable(img, sorted[j]);
    Evaluate(i, j, sorted[i], sorted[j], TextureOf(img, sorted[i]), TextureOf(img, sorted[j]), settings, sqrt)
  }

  /** A candidate of the sorted copy: positions i < j whose evaluation yields exactly m. */
  ghost predicate IsCandidate(img: ImageData, settings: Settings, sorted: seq<Region>, sqrt: real -> real, m: Match)
    requires MatchableAll(img, settings, sorted)
  {
    0 <= m.i < m.j < |sorted| && EvaluateAt(img, settings, sorted, sqrt, m.i, m.j) == Some(m)
  }

  /** The pairs the nested loops have evaluated before reaching row i, column j. */
  predicate Before(m: Match, i: int, j: int) {
    m.i < i || (m.i == i && m.j < j)
  }

  /** One pass of the inner loop body, lines 355-421, for the pair (i, j). */
  method EvaluatePair(img: ImageData, settings: Settings, sqrt: real -> real,
                      i: int, j: int, r1: Region, r2: Region, texture1: Texture) returns (m: Option<Match>)
    requires Matchable(img, r1) && Matchable(img, r2) && settings.colorThreshold > 0
    requires texture1 == TextureOf(img, r1)
    ensures (TextureComparable(img, r1); TextureComparable(img, r2);
             m == Evaluate(i, j, r1, r2, texture1, TextureOf(img, r2), settings, sqrt))
  {
    TextureComparable(img, r1);
    TextureComparable(img, r2);
    var overlap := Overlap(r1, r2);
    var minArea := Min(r1.size, r2.size);
    if Crowded(overlap, minArea) {
      return None;
    }

    var texture2 := GetTextureFeatures(img, r2);

    var heightRatio := Ratio(r1.height as real, r2.height as real);
    var widthRatio := Ratio(r1.width as real, r2.width as real);
    var sizeRatio := Ratio(r1.size as real, r2.size as real);
    if heightRatio < 0.5 || widthRatio < 0.5 || sizeRatio < 0.5 {
      return None;
    }
    var sizeScore := SizeScore(heightRatio, widthRatio, sizeRatio);
    EvaluatePassedFilters(i, j, r1, r2, texture1, texture2, settings, sqrt);
    m := ScorePair(i, j, r1, r2, texture1, texture2, settings, sqrt, sizeScore);
  }

  /** The scoring and gating of lines 376-421, once the pair passed the filters. */
  method ScorePair(i: int, j: int, r1: Region, r2: Region, texture1: Texture, texture2: Texture,
                   settings: Settings, sqrt: real -> real, sizeScore: real) returns (m: Option<Match>)
    requires Comparable(texture1) && Comparable(texture2) && settings.colorThreshold > 0
    ensures m == Assess(i, j, r1, r2, texture1, texture2, settings, sqrt, sizeScore)
  {
    var colorScore := ColorScore(r1.color, r2.color, settings.colorThreshold);
    var textureScore := TextureDifference(texture1, texture2, sqrt);
    AssessWith(i, j, r1, r2, texture1, texture2, settings, sqrt, sizeScore, textureScore);
    var g := RegimeOf(texture1, texture2, r1.color, r2.color);
    var score := Score(g, textureScore, colorScore, sizeScore);
    if score > MinScore(g) && textureScore > MinTextureScore(g) {
      m := Some(Match(i, j, score, colorScore, textureScore, sizeScore));
    } else {
      m := None;
    }
  }

  /** EvaluateAt as a total function of two positions, None outside the sorted copy. */
  ghost function PairEvaluation(img: ImageData, settings: Settings, sorted: seq<Region>, sqrt: real -> real)
    : (eval: (int, int) -> Option<Match>)
    requires MatchableAll(img, settings, sorted)
    ensures forall i, j :: 0 <= i < |sorted| && 0 <= j < |sorted| ==> eval(i, j) == EvaluateAt(img, settings, sorted, sqrt, i, j)
  {
    (i: int, j: int) => if 0 <= i < |sorted| && 0 <= j < |sorted| then EvaluateAt(img, settings, sorted, sqrt, i, j) else None
  }

  /** A match the evaluation eval of n regions yields for a pair i < j. */
  ghost predicate Yields(eval: (int, int) -> Option<Match>, n: int, m: Match) {
    0 <= m.i < m.j < n && eval(m.i, m.j) == Some(m)
  }

  /**
   * What the nested loops of lines 350-423 have gathered on reaching row i, column j: exactly the
   * matches eval yields for the pairs before that point, in the order the loops reach them.
   */
  ghost predicate Collected(eval: (int, int) -> Option<Match>, n: int, all: seq<Match>, i: int, j: int) {
    (forall m :: m in all <==> Yields(eval, n, m) && Before(m, i, j)) &&
    (forall a, b :: 0 <= a < b < |all| ==> Before(all[a], all[b].i, all[b].j)) &&
    (forall a :: 0 <= a < |all| ==> Before(all[a], i, j))
  }

  /** Evaluating pair (i, j) and recording its match, if any, moves the loops to column j + 1. */
  lemma CollectedStep(eval: (int, int) -> Option<Match>, n: int, all: seq<Match>, i: int, j: int)
    requires 0 <= i < j < n && Collected(eval, n, all, i, j)
    requires eval(i, j).Some? ==> eval(i, j).value.i == i && eval(i, j).value.j == j
    ensures Collected(eval, n, if eval(i, j).Some? then all + [eval(i, j).value] else all, i, j + 1)
  {
  }

  /** A row of the inner loop starts at column i + 1: no match of row i lies before it. */
  lemma CollectedRowStart(eval: (int, int) -> Option<Match>, n: int, all: seq<Match>, i: int)
    requires Collected(eval, n, all, i, 0)
    ensures Collected(eval, n, all, i, i + 1)
  {
  }

  /** A finished row i leaves the loops where row i + 1 begins. */
  lemma CollectedRowEnd(eval: (int, int) -> Option<Match>, n: int, all: seq<Match>, i: int)
    requires Collected(eval, n, all, i, n)
    ensures Collected(eval, n, all, i + 1, 0)
  {
  }

  /**
   * The nested loops of lines 350-423: every pair i < j of the sorted copy, in order. The list
   * holds exactly the candidates, each in the order the loops reach it.
   */
  method CandidateMatches(img: ImageData, settings: Settings, sorted: seq<Region>, sqrt: real -> real)
    returns (allMatches: seq<Match>)
    requires MatchableAll(img, settings, sorted)
    ensures forall m :: m in allMatches <==> IsCandidate(img, settings, sorted, sqrt, m)
    ensures forall a, b :: 0 <= a < b < |allMatches| ==> Before(allMatches[a], allMatches[b].i, allMatches[b].j)
  {
    ghost var eval := PairEvaluation(img, settings, sorted, sqrt);
    ghost var n := |sorted|;
    allMatches := [];
    for i := 0 to |sorted|
      invariant Collected(eval, n, allMatches, i, 0)
    {
      var texture1 := GetTextureFeatures(img, sorted[i]);
      CollectedRowStart(eval, n, allMatches, i);
      for j := i + 1 to |sorted|
        invariant Collected(eval, n, allMatches, i, j)
      {
        var m := EvaluatePair(img, settings, sqrt, i, j, sorted[i], sorted[j], texture1);
        assert m == eval(i, j);
        CollectedStep(eval, n, allMatches, i, j);
        if m.Some? {
          allMatches := allMatches + [m.value];
        }
      }
      CollectedRowEnd(eval, n, allMatches, i);
    }
    forall m
      ensures m in allMatches <==> IsCandidate(img, settings, sorted, sqrt, m)
    {
      assert Yields(eval, n, m) <==> IsCandidate(img, settings, sorted, sqrt, m);
    }
  }

  // ---------------------------------------------------------------- ordering the candidates

  /**
   * The comparator of lines 426-432, negative when a goes first: scores within 0.1 of each other
   * are ordered by texture score, others by score, both descending.
   */
  function CompareMatches(a: Match, b: Match): real {
    if AbsR(b.score - a.score) < 0.1 then b.textureScore - a.textureScore else b.score - a.score
  }

  /** Swapping the arguments flips the comparator's sign: it never asks for both orders at once. */
  lemma CompareMatchesAntisymmetric(a: Match, b: Match)
    ensures CompareMatches(a, b) == -CompareMatches(b, a)
    ensures CompareMatches(a, b) < 0.0 ==> CompareMatches(b, a) > 0.0
  {
    assert AbsR(b.score - a.score) == AbsR(a.score - b.score);
  }

  /**
   * The comparator is not transitive: three candidates whose scores are 0.08 apart in turn each
   * go before the next, while the outer two, 0.16 apart, go the other way. No order of the three
   * agrees with it, so the order the engine's sort leaves them in is not determined by it.
   */
  lemma CompareMatchesCycle()
    ensures var a := Match(0, 1, 0.5, 0.5, 0.9, 0.5);
            var b := Match(2, 3, 0.58, 0.5, 0.5, 0.5);
            var c := Match(4, 5, 0.66, 0.5, 0.1, 0.5);
            CompareMatches(a, b) < 0.0 && CompareMatches(b, c) < 0.0 && CompareMatches(c, a) < 0.0
  {
  }

  // ---------------------------------------------------------------- greedy selection

  /** Two candidates that name a region in common. */
  predicate Shares(m1: Match, m2: Match) {
    m1.i == m2.i || m1.i == m2.j || m1.j == m2.i || m1.j == m2.j
  }

  /** The regions named by the chosen pairs: the set usedRegions of lines 436-463. */
  function Used(chosen: seq<Match>): (used: set<int>)
    ensures forall c :: 0 <= c < |chosen| ==> chosen[c].i in used && chosen[c].j in used
  {
    if |chosen| == 0 then {}
    else Used(chosen[..|chosen| - 1]) + {chosen[|chosen| - 1].i, chosen[|chosen| - 1].j}
  }

  /** A used region is named by one of the chosen pairs. */
  lemma {:induction false} UsedWitness(chosen: seq<Match>, x: int) returns (c: int)
    requires x in Used(chosen)
    ensures 0 <= c < |chosen| && (chosen[c].i == x || chosen[c].j == x)
  {
    var n := |chosen| - 1;
    if x == chosen[n].i || x == chosen[n].j {
      c := n;
    } else {
      c := UsedWitness(chosen[..n], x);
    }
  }

  /** The picks are increasing positions of matches, and chosen lists what they pick. */
  ghost predicate PicksOf(matches: seq<Match>, chosen: seq<Match>, picks: seq<int>) {
    |picks| == |chosen| &&
    (forall c :: 0 <= c < |picks| ==> 0 <= picks[c] < |matches| && chosen[c] == matches[picks[c]]) &&
    (forall c, d :: 0 <= c < d < |picks| ==> picks[c] < picks[d])
  }

  ghost predicate PairwiseDisjoint(chosen: seq<Match>) {
    forall c, d :: 0 <= c < d < |chosen| ==> !Shares(chosen[c], chosen[d])
  }

  /** Match k is picked, or shares a region with a pick made before it. */
  ghost predicate BlockedAt(matches: seq<Match>, chosen: seq<Match>, picks: seq<int>, k: int)
    requires PicksOf(matches, chosen, picks) && 0 <= k < |matches|
  {
    (exists c :: 0 <= c < |picks| && picks[c] == k) ||
    (exists c :: 0 <= c < |picks| && picks[c] < k && Shares(chosen[c], matches[k]))
  }

  /** Every match among the first n is picked or shares a region with an earlier pick. */
  ghost predicate Blocked(matches: seq<Match>, chosen: seq<Match>, picks: seq<int>, n: int)
    requires PicksOf(matches, chosen, picks) && n <= |matches|
  {
    forall k :: 0 <= k < n ==> BlockedAt(matches, chosen, picks, k)
  }

  lemma BlockedGrows(matches: seq<Match>, chosen: seq<Match>, picks: seq<int>, n: int, k: int)
    requires PicksOf(matches, chosen, picks) && n <= |matches| && 0 <= k < |matches|
    requires PicksOf(matches, chosen + [matches[k]], picks + [k])
    requires Blocked(matches, chosen, picks, n)
    ensures Blocked(matches, chosen + [matches[k]], picks + [k], n)
  {
    var chosen', picks' := chosen + [matches[k]], picks + [k];
    forall k' | 0 <= k' < n
      ensures BlockedAt(matches, chosen', picks', k')
    {
      assert BlockedAt(matches, chosen, picks, k');
      if c :| 0 <= c < |picks| && picks[c] == k' {
        assert picks'[c] == k';
      } else {
        var c :| 0 <= c < |picks| && picks[c] < k' && Shares(chosen[c], matches[k']);
        assert picks'[c] < k' && Shares(chosen'[c], matches[k']);
      }
    }
  }

  /**
   * The greedy loop of lines 438-465: a match is taken when neither of its regions is used yet.
   * The result is drawn from the matches in their order, its pairs share no region, and every
   * match left out shares a region with a pair taken before it.
   */
  method SelectPairs(matches: seq<Match>) returns (chosen: seq<Match>, ghost picks: seq<int>)
    ensures PicksOf(matches, chosen, picks)
    ensures forall c :: 0 <= c < |chosen| ==> chosen[c] in matches
    ensures PairwiseDisjoint(chosen)
    ensures Blocked(matches, chosen, picks, |matches|)
  {
    chosen, picks := [], [];
    var usedRegions: set<int> := {};
    for k := 0 to |matches|
      invariant PicksOf(matches, chosen, picks)
      invariant forall c :: 0 <= c < |picks| ==> picks[c] < k
      invariant PairwiseDisjoint(chosen)
      invariant usedRegions == Used(chosen)
      invariant Blocked(matches, chosen, picks, k)
    {
      var m := matches[k];
      if m.i !in usedRegions && m.j !in usedRegions {
        TakeKeeps(matches, chosen, picks, k);
        chosen, picks := chosen + [m], picks + [k];
        usedRegions := usedRegions + {m.i, m.j};
      } else {
        SkipKeeps(matches, chosen, picks, k);
      }
    }
  }

  /** Taking match k, whose regions are both unused, keeps the loop invariant of lines 438-465. */
  lemma TakeKeeps(matches: seq<Match>, chosen: seq<Match>, picks: seq<int>, k: int)
    requires 0 <= k < |matches| && PicksOf(matches, chosen, picks)
    requires forall c :: 0 <= c < |picks| ==> picks[c] < k
    requires PairwiseDisjoint(chosen) && Blocked(matches, chosen, picks, k)
    requires matches[k].i !in Used(chosen) && matches[k].j !in Used(chosen)
    ensures var chosen', picks' := chosen + [matches[k]], picks + [k];
      PicksOf(matches, chosen', picks') && (forall c :: 0 <= c < |picks'| ==> picks'[c] < k + 1) &&
      PairwiseDisjoint(chosen') && Used(chosen') == Used(chosen) + {matches[k].i, matches[k].j} &&
      Blocked(matches, chosen', picks', k + 1)
  {
    var chosen', picks' := chosen + [matches[k]], picks + [k];
    assert chosen'[..|chosen|] == chosen;
    assert PicksOf(matches, chosen', picks');
    BlockedGrows(matches, chosen, picks, k, k);
    assert picks'[|picks|] == k;
    assert BlockedAt(matches, chosen', picks', k);
  }

  /** Skipping match k, which names a used region, keeps every match so far blocked. */
  lemma SkipKeeps(matches: seq<Match>, chosen: seq<Match>, picks: seq<int>, k: int)
    requires 0 <= k < |matches| && PicksOf(matches, chosen, picks)
    requires forall c :: 0 <= c < |picks| ==> picks[c] < k
    requires Blocked(matches, chosen, picks, k)
    requires matches[k].i in Used(chosen) || matches[k].j in Used(chosen)
    ensures Blocked(matches, chosen, picks, k + 1)
  {
    var m := matches[k];
    var c := UsedWitness(chosen, if m.i in Used(chosen) then m.i else m.j);
    assert Shares(chosen[c], m);
    assert BlockedAt(matches, chosen, picks, k);
  }

  /** Every match is taken or shares a region with a taken pair: the greedy pass leaves nothing free. */
  lemma BlockedCovers(matches: seq<Match>, chosen: seq<Match>, picks: seq<int>)
    requires PicksOf(matches, chosen, picks) && Blocked(matches, chosen, picks, |matches|)
    ensures forall m :: m in matches ==> exists c :: 0 <= c < |chosen| && (chosen[c] == m || Shares(chosen[c], m))
  {
    forall m | m in matches
      ensures exists c :: 0 <= c < |chosen| && (chosen[c] == m || Shares(chosen[c], m))
    {
      var k :| 0 <= k < |matches| && matches[k] == m;
      assert BlockedAt(matches, chosen, picks, k);
    }
  }

  /** Two sequences with the same multiset of elements have the same members. */
  lemma SameMembers(a: seq<Match>, b: seq<Match>)
    requires multiset(a) == multiset(b)
    ensures forall m :: m in a <==> m in b
  {
    forall m
      ensures m in a <==> m in b
    {
      assert m in a <==> m in multiset(a);
      assert m in b <==> m in multiset(b);
    }
  }

  /** Every region of the sorted copy is one of the input regions. */
  lemma SortedMembers(regions: seq<Region>)
    ensures forall k :: 0 <= k < |SortBySize(regions)| ==> SortBySize(regions)[k] in regions
  {
    var sorted := SortBySize(regions);
    forall k | 0 <= k < |sorted|
      ensures sorted[k] in regions
    {
      assert sorted[k] in multiset(regions);
    }
  }

  /**
   * findMatchingPairs: sorts the regions by size, collects the candidate pairs, orders them with
   * the given ordering and keeps greedily those whose regions are still unused. The pairs are
   * candidates of the sorted copy, share no region, and every candidate not kept shares a region
   * with a pair kept before it in the given ordering.
   */
  method FindMatchingPairs(regions: seq<Region>, settings: Settings, img: ImageData, sqrt: real -> real,
                           sortMatches: seq<Match> -> seq<Match>)
    returns (pairs: seq<(Region, Region)>, ghost chosen: seq<Match>, ghost ordered: seq<Match>, ghost picks: seq<int>)
    requires settings.colorThreshold > 0 && forall k :: 0 <= k < |regions| ==> Matchable(img, regions[k])
    requires forall ms :: multiset(sortMatches(ms)) == multiset(ms)
    ensures MatchableAll(img, settings, SortBySize(regions))
    ensures |pairs| == |chosen|
    ensures forall c :: 0 <= c < |chosen| ==>
              IsCandidate(img, settings, SortBySize(regions), sqrt, chosen[c]) &&
              pairs[c] == (SortBySize(regions)[chosen[c].i], SortBySize(regions)[chosen[c].j]) &&
              pairs[c].0 in regions && pairs[c].1 in regions
    ensures PairwiseDisjoint(chosen)
    ensures forall m :: IsCandidate(img, settings, SortBySize(regions), sqrt, m) ==>
              exists c :: 0 <= c < |chosen| && (chosen[c] == m || Shares(chosen[c], m))
    ensures forall m :: m in ordered <==> IsCandidate(img, settings, SortBySize(regions), sqrt, m)
    ensures PicksOf(ordered, chosen, picks) && Blocked(ordered, chosen, picks, |ordered|)
  {
    var sortedRegions := SortBySize(regions);
    SortedMatchable(img, settings, regions);
    SortedMembers(regions);
    var allMatches := CandidateMatches(img, settings, sortedRegions, sqrt);
    var sorted := sortMatches(allMatches);
    SameMembers(sorted, allMatches);
    var selected;
    selected, picks := SelectPairs(sorted);
    BlockedCovers(sorted, selected, picks);
    pairs := seq(|selected|, c requires 0 <= c < |selected| =>
      (sortedRegions[selected[c].i], sortedRegions[selected[c].j]));
    chosen, ordered := selected, sorted;
  }

  lemma SortedMatchable(img: ImageData, settings: Settings, regions: seq<Region>)
    requires settings.colorThreshold > 0 && forall k :: 0 <= k < |regions| ==> Matchable(img, regions[k])
    ensures MatchableAll(img, settings, SortBySize(regions))
  {
    var sorted := SortBySize(regions);
    forall k | 0 <= k < |sorted|
      ensures Matchable(img, sorted[k])
    {
      assert sorted[k] in multiset(regions);
    }
  }
}
