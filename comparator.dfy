/** The texture comparator: textureDifference (sockDetection.ts, lines 167-210). */
module Comparator {
  import opened Pixels
  import opened Textures

  /** A texture the comparator can score: long enough for a window of at least one sample. */
  predicate Comparable(t: Texture) {
    |t.pattern| >= 2 && t.edgeCount >= 0 && t.contrast >= 0.0
  }

  function Sum(p: seq<real>): real {
    if |p| == 0 then 0.0 else Sum(p[..|p| - 1]) + p[|p| - 1]
  }

  function SquaredDeviations(p: seq<real>, mean: real): real {
    if |p| == 0 then 0.0
    else SquaredDeviations(p[..|p| - 1], mean) + (p[|p| - 1] - mean) * (p[|p| - 1] - mean)
  }

  /**
   * The z-score normalisation of lines 173-177. The square root is a parameter; a zero
   * standard deviation is replaced by 1 (`std || 1`).
   */
  function Normalize(pattern: seq<real>, sqrt: real -> real): (n: seq<real>)
    requires |pattern| > 0
    ensures |n| == |pattern|
  {
    var mean := Sum(pattern) / |pattern| as real;
    var std := sqrt(SquaredDeviations(pattern, mean) / |pattern| as real);
    var divisor := if std == 0.0 then 1.0 else std;
    seq(|pattern|, k requires 0 <= k < |pattern| => (pattern[k] - mean) / divisor)
  }

  lemma {:induction false} SumUniform(p: seq<real>, c: real)
    requires forall k :: 0 <= k < |p| ==> p[k] == c
    ensures Sum(p) == |p| as real * c
  {
    if |p| > 0 {
      SumUniform(p[..|p| - 1], c);
    }
  }

  /** A pattern of one grey level normalises to all zeros, whatever the square root returns. */
  lemma NormalizeUniform(pattern: seq<real>, c: real, sqrt: real -> real)
    requires |pattern| > 0
    requires forall k :: 0 <= k < |pattern| ==> pattern[k] == c
    ensures forall k :: 0 <= k < |pattern| ==> Normalize(pattern, sqrt)[k] == 0.0
  {
    SumUniform(pattern, c);
    assert Sum(pattern) / |pattern| as real == c;
  }

  /** The window length of line 170: 70% of the shorter pattern, rounded down. */
  function WindowSize(t1: Texture, t2: Texture): (ws: int)
    requires Comparable(t1) && Comparable(t2)
    ensures 1 <= ws <= |t1.pattern| && ws <= |t2.pattern|
  {
    var shorter := Min(|t1.pattern|, |t2.pattern|);
    assert shorter as real * 0.7 >= 1.0;
    (shorter as real * 0.7).Floor
  }

  /** The sum of n1[offset + k] * n2[k] over k < i. */
  function WindowDot(n1: seq<real>, n2: seq<real>, offset: nat, i: nat): real
    requires offset + i <= |n1| && i <= |n2|
  {
    if i == 0 then 0.0 else WindowDot(n1, n2, offset, i - 1) + n1[offset + i - 1] * n2[i - 1]
  }

  /** The correlation of the window of n1 starting at offset with the head of n2 (lines 184-188). */
  function WindowCorrelation(n1: seq<real>, n2: seq<real>, offset: nat, ws: nat): real
    requires ws >= 1 && offset + ws <= |n1| && ws <= |n2|
  {
    WindowDot(n1, n2, offset, ws) / ws as real
  }

  /**
   * The largest absolute window correlation over the offsets below count, or 0 when there is
   * none: it bounds every offset's correlation and is attained by one of them.
   */
  function BestCorrelation(n1: seq<real>, n2: seq<real>, ws: nat, count: nat): (best: real)
    requires ws >= 1 && count + ws <= |n1| && ws <= |n2|
    ensures best >= 0.0
    ensures forall k :: 0 <= k < count ==> AbsR(WindowCorrelation(n1, n2, k, ws)) <= best
    ensures best == 0.0 || exists k :: 0 <= k < count && best == AbsR(WindowCorrelation(n1, n2, k, ws))
  {
    if count == 0 then 0.0
    else MaxR(BestCorrelation(n1, n2, ws, count - 1), AbsR(WindowCorrelation(n1, n2, count - 1, ws)))
  }

  /** Number of window offsets of line 183: the window slides over t1 only. */
  function OffsetCount(t1: Texture, t2: Texture): (count: nat)
    requires Comparable(t1) && Comparable(t2)
    ensures count + WindowSize(t1, t2) <= |t1.pattern|
  {
    |t1.pattern| - WindowSize(t1, t2)
  }

  /** maxCorrelation after the loop of lines 183-190. */
  function MaxCorrelation(t1: Texture, t2: Texture, sqrt: real -> real): (best: real)
    requires Comparable(t1) && Comparable(t2)
    ensures best >= 0.0
  {
    BestCorrelation(Normalize(t1.pattern, sqrt), Normalize(t2.pattern, sqrt),
                    WindowSize(t1, t2), OffsetCount(t1, t2))
  }

  /** The direction agreement of lines 198-199. */
  function DirectionScore(d1: PatternDirection, d2: PatternDirection): (score: real)
    ensures score == 1.0 <==> d1 == d2
    ensures score == 0.7 <==> d1 != d2 && (d1 == Both || d2 == Both)
    ensures score == 0.3 <==> d1 != d2 && d1 != Both && d2 != Both
  {
    if d1 == d2 then 1.0 else if d1 == Both || d2 == Both then 0.7 else 0.3
  }

  lemma DirectionScoreSymmetric(d1: PatternDirection, d2: PatternDirection)
    ensures DirectionScore(d1, d2) == DirectionScore(d2, d1)
  {
  }

  /** min / max of two non-negative quantities, as written: 0 / 0 is NaN, here None. */
  function RatioAsWritten(a: real, b: real): (r: Option<real>)
    requires a >= 0.0 && b >= 0.0
    ensures r.None? <==> a == 0.0 && b == 0.0
    ensures r.Some? ==> 0.0 <= r.value <= 1.0
  {
    if MaxR(a, b) == 0.0 then None else Some(MinR(a, b) / MaxR(a, b))
  }

  /** min / max of two non-negative quantities, with two zeros counted as full agreement. */
  function Ratio(a: real, b: real): (r: real)
    requires a >= 0.0 && b >= 0.0
    ensures 0.0 <= r <= 1.0
    ensures r == 1.0 <==> a == b
    ensures RatioAsWritten(a, b).Some? ==> r == RatioAsWritten(a, b).value
  {
    if MaxR(a, b) == 0.0 then 1.0
    else
      QuotientOfOrdered(MinR(a, b), MaxR(a, b));
      MinR(a, b) / MaxR(a, b)
  }

  /** The quotient of a non-negative value by a larger positive one lies in 0..1 and is 1 only for equal values. */
  lemma QuotientOfOrdered(lo: real, hi: real)
    requires 0.0 <= lo <= hi && hi > 0.0
    ensures 0.0 <= lo / hi <= 1.0
    ensures lo / hi == 1.0 <==> lo == hi
  {
    QuotientOrder(lo, hi, 0.0);
    QuotientOrder(lo, hi, 1.0);
  }

  lemma RatioSymmetric(a: real, b: real)
    requires a >= 0.0 && b >= 0.0
    ensures Ratio(a, b) == Ratio(b, a)
  {
  }

  function EdgeDensity(t: Texture): (d: real)
    requires Comparable(t)
    ensures d >= 0.0
    ensures d == 0.0 <==> t.edgeCount == 0
  {
    t.edgeCount as real / |t.pattern| as real
  }

  /** The weighted blend of lines 205-210. */
  function Blend(maxCorrelation: real, edgeRatio: real, directionScore: real, contrastRatio: real): real {
    maxCorrelation * 0.4 + edgeRatio * 0.2 + directionScore * 0.3 + contrastRatio * 0.1
  }

  /**
   * textureDifference exactly as written: undefined (NaN) when both edge densities or both
   * contrasts are zero.
   */
  function TextureDifferenceAsWritten(t1: Texture, t2: Texture, sqrt: real -> real): (score: Option<real>)
    requires Comparable(t1) && Comparable(t2)
    ensures score.None? <==> (t1.edgeCount == 0 && t2.edgeCount == 0) || (t1.contrast == 0.0 && t2.contrast == 0.0)
  {
    var edgeRatio := RatioAsWritten(EdgeDensity(t1), EdgeDensity(t2));
    var contrastRatio := RatioAsWritten(t1.contrast, t2.contrast);
    if edgeRatio.None? || contrastRatio.None? then None
    else Some(Blend(MaxCorrelation(t1, t2, sqrt), edgeRatio.value,
                    DirectionScore(t1.patternDirection, t2.patternDirection), contrastRatio.value))
  }

  /**
   * textureDifference with the two ratios guarded. It agrees with the source wherever the
   * source is defined; the correlation contributes 0.4 of its value and the rest lies in
   * 0.09..0.6.
   */
  function TextureDifferenceOf(t1: Texture, t2: Texture, sqrt: real -> real): (score: real)
    requires Comparable(t1) && Comparable(t2)
    ensures TextureDifferenceAsWritten(t1, t2, sqrt).Some? ==> score == TextureDifferenceAsWritten(t1, t2, sqrt).value
    ensures 0.09 <= score - 0.4 * MaxCorrelation(t1, t2, sqrt) <= 0.6
  {
    Blend(MaxCorrelation(t1, t2, sqrt), Ratio(EdgeDensity(t1), EdgeDensity(t2)),
          DirectionScore(t1.patternDirection, t2.patternDirection), Ratio(t1.contrast, t2.contrast))
  }

  /** A texture compared with itself agrees fully on edges, direction and contrast. */
  lemma SelfDifference(t: Texture, sqrt: real -> real)
    requires Comparable(t)
    ensures TextureDifferenceOf(t, t, sqrt) == 0.4 * MaxCorrelation(t, t, sqrt) + 0.6
  {
  }

  /** Two identical uniform textures, without edges or contrast, are undefined as written. */
  lemma UniformPairUndefined(t1: Texture, t2: Texture, sqrt: real -> real)
    requires Comparable(t1) && Comparable(t2)
    requires t1.edgeCount == 0 && t2.edgeCount == 0
    ensures TextureDifferenceAsWritten(t1, t2, sqrt).None?
  {
  }

  lemma {:induction false} BestCorrelationOfZeros(n1: seq<real>, n2: seq<real>, ws: nat, count: nat)
    requires ws >= 1 && count + ws <= |n1| && ws <= |n2|
    requires forall k :: 0 <= k < |n1| ==> n1[k] == 0.0
    ensures BestCorrelation(n1, n2, ws, count) == 0.0
  {
    if count > 0 {
      BestCorrelationOfZeros(n1, n2, ws, count - 1);
      WindowDotOfZeros(n1, n2, count - 1, ws);
    }
  }

  lemma {:induction false} WindowDotOfZeros(n1: seq<real>, n2: seq<real>, offset: nat, i: nat)
    requires offset + i <= |n1| && i <= |n2|
    requires forall k :: 0 <= k < |n1| ==> n1[k] == 0.0
    ensures WindowDot(n1, n2, offset, i) == 0.0
  {
    if i > 0 {
      WindowDotOfZeros(n1, n2, offset, i - 1);
    }
  }

  /**
   * With the guard, two uniform textures of one grey level, without edges or contrast and with
   * one direction class, score 0.6: above every texture gate of the matcher.
   */
  lemma UniformPairScores(t1: Texture, t2: Texture, c: real, sqrt: real -> real)
    requires Comparable(t1) && Comparable(t2)
    requires forall k :: 0 <= k < |t1.pattern| ==> t1.pattern[k] == c
    requires t1.edgeCount == 0 && t2.edgeCount == 0 && t1.contrast == 0.0 && t2.contrast == 0.0
    requires t1.patternDirection == t2.patternDirection
    ensures TextureDifferenceOf(t1, t2, sqrt) == 0.6
  {
    NormalizeUniform(t1.pattern, c, sqrt);
    BestCorrelationOfZeros(Normalize(t1.pattern, sqrt), Normalize(t2.pattern, sqrt),
                           WindowSize(t1, t2), OffsetCount(t1, t2));
  }

  /** The inner loop of lines 185-188: the correlation at one offset. */
  method Correlate(norm1: seq<real>, norm2: seq<real>, offset: nat, windowSize: nat) returns (correlation: real)
    requires windowSize >= 1 && offset + windowSize <= |norm1| && windowSize <= |norm2|
    ensures correlation == WindowCorrelation(norm1, norm2, offset, windowSize)
  {
    correlation := 0.0;
    for i := 0 to windowSize
      invariant correlation == WindowDot(norm1, norm2, offset, i)
    {
      correlation := correlation + norm1[offset + i] * norm2[i];
    }
    correlation := correlation / windowSize as real;
  }

  /** The outer loop of lines 183-190: the window slides over the first pattern. */
  method Slide(norm1: seq<real>, norm2: seq<real>, windowSize: nat, count: nat) returns (maxCorrelation: real)
    requires windowSize >= 1 && count + windowSize <= |norm1| && windowSize <= |norm2|
    ensures maxCorrelation == BestCorrelation(norm1, norm2, windowSize, count)
  {
    maxCorrelation := 0.0;
    var offset := 0;
    while offset < count
      invariant 0 <= offset <= count
      invariant maxCorrelation == BestCorrelation(norm1, norm2, windowSize, offset)
    {
      var correlation := Correlate(norm1, norm2, offset, windowSize);
      maxCorrelation := MaxR(maxCorrelation, AbsR(correlation));
      offset := offset + 1;
    }
  }

  /**
   * textureDifference: the best sliding-window correlation of the normalised patterns blended
   * with edge-density, direction and contrast agreement, the two ratios guarded.
   */
  method TextureDifference(t1: Texture, t2: Texture, sqrt: real -> real) returns (score: real)
    requires Comparable(t1) && Comparable(t2)
    ensures score == TextureDifferenceOf(t1, t2, sqrt)
  {
    var maxCorrelation := 0.0;
    var windowSize := WindowSize(t1, t2);

    var norm1 := Normalize(t1.pattern, sqrt);
    var norm2 := Normalize(t2.pattern, sqrt);

    maxCorrelation := Slide(norm1, norm2, windowSize, |t1.pattern| - windowSize);

    var edgeRatio := Ratio(EdgeDensity(t1), EdgeDensity(t2));
    var directionScore := DirectionScore(t1.patternDirection, t2.patternDirection);
    var contrastRatio := Ratio(t1.contrast, t2.contrast);

    score := Blend(maxCorrelation, edgeRatio, directionScore, contrastRatio);
  }
}
