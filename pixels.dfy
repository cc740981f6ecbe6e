/** Frame buffer access and the colour metric (sockDetection.ts, lines 1-59). */
module Pixels {

  datatype Option<T> = None | Some(value: T)

  /** An RGB colour. Colours read from a frame have every channel in 0..255. */
  datatype Color = Color(r: int, g: int, b: int)

  predicate ValidColor(c: Color) {
    0 <= c.r < 256 && 0 <= c.g < 256 && 0 <= c.b < 256
  }

  /** A pixel coordinate (x, y). */
  type Point = (int, int)

  /** A frame as the browser hands it over: width, height and the RGBA bytes, row by row. */
  datatype ImageData = ImageData(width: nat, height: nat, data: seq<int>)

  predicate ValidImage(img: ImageData) {
    |img.data| == img.width * img.height * 4 &&
    forall k :: 0 <= k < |img.data| ==> 0 <= img.data[k] < 256
  }

  predicate InFrame(img: ImageData, p: Point) {
    0 <= p.0 < img.width && 0 <= p.1 < img.height
  }

  /** Offset of the red byte of pixel (x, y) in the RGBA buffer. */
  function PixelOffset(width: nat, x: int, y: int): int {
    (y * width + x) * 4
  }

  /** The four bytes of an in-frame pixel lie inside the buffer. */
  lemma PixelOffsetInBuffer(img: ImageData, x: int, y: int)
    requires ValidImage(img) && InFrame(img, (x, y))
    ensures 0 <= PixelOffset(img.width, x, y)
    ensures PixelOffset(img.width, x, y) + 3 < |img.data|
  {
    var w, h := img.width, img.height;
    assert 0 <= y * w by { assert 0 <= y && 0 <= w; }
    assert y * w <= (h - 1) * w by {
      assert (h - 1) * w - y * w == (h - 1 - y) * w;
      assert 0 <= h - 1 - y;
    }
    assert (h - 1) * w + w == h * w;
    assert y * w + x <= h * w - 1;
    assert (y * w + x) * 4 + 3 <= (h * w - 1) * 4 + 3;
    assert (h * w - 1) * 4 + 3 == w * h * 4 - 1;
  }

  /** Distinct in-frame pixels occupy distinct places in the buffer. */
  lemma {:induction false} PixelOffsetInjective(width: nat, x1: int, y1: int, x2: int, y2: int)
    requires 0 <= x1 < width && 0 <= x2 < width && 0 <= y1 && 0 <= y2
    requires PixelOffset(width, x1, y1) == PixelOffset(width, x2, y2)
    ensures x1 == x2 && y1 == y2
  {
    var d := y1 - y2;
    assert d * width == x2 - x1;
    assert d >= 1 ==> d * width >= width;
    assert d <= -1 ==> d * width + width <= 0;
  }

  /** getPixelColor: the red, green and blue bytes of pixel (x, y); the alpha byte is ignored. */
  function GetPixelColor(img: ImageData, x: int, y: int): (c: Color)
    requires ValidImage(img) && InFrame(img, (x, y))
    ensures ValidColor(c)
  {
    PixelOffsetInBuffer(img, x, y);
    var i := PixelOffset(img.width, x, y);
    Color(img.data[i], img.data[i + 1], img.data[i + 2])
  }

  function Abs(x: int): nat { if x < 0 then -x else x }

  /** colorDifference: the L1 (Manhattan) distance between two colours in RGB space. */
  function ColorDifference(c1: Color, c2: Color): (d: int)
    ensures d >= 0
    ensures d == 0 <==> c1 == c2
    ensures ValidColor(c1) && ValidColor(c2) ==> d <= 765
  {
    Abs(c1.r - c2.r) + Abs(c1.g - c2.g) + Abs(c1.b - c2.b)
  }

  lemma ColorDifferenceSymmetric(c1: Color, c2: Color)
    ensures ColorDifference(c1, c2) == ColorDifference(c2, c1)
  {
  }

  /** The L1 distance obeys the triangle inequality, so it is a metric on colours. */
  lemma ColorDifferenceTriangle(c1: Color, c2: Color, c3: Color)
    ensures ColorDifference(c1, c3) <= ColorDifference(c1, c2) + ColorDifference(c2, c3)
  {
  }

  /**
   * isSurfaceColor: some reference colour lies strictly closer than the threshold
   * (Array.prototype.some, which is false on an empty list).
   */
  function IsSurfaceColor(color: Color, surfaceColors: seq<Color>, threshold: int): (b: bool)
    ensures b <==> exists k :: 0 <= k < |surfaceColors| && ColorDifference(color, surfaceColors[k]) < threshold
    ensures |surfaceColors| == 0 ==> !b
  {
    if |surfaceColors| == 0 then false
    else if ColorDifference(color, surfaceColors[0]) < threshold then true
    else
      var rest := IsSurfaceColor(color, surfaceColors[1..], threshold);
      assert forall k :: 1 <= k < |surfaceColors| ==> surfaceColors[k] == surfaceColors[1..][k - 1];
      rest
  }

  /** Grey level of a colour with the weights 0.299, 0.587 and 0.114 (exact decimals). */
  function Luma(c: Color): (y: real)
    ensures ValidColor(c) ==> 0.0 <= y <= 255.0
    ensures c.r == c.g == c.b ==> y == c.r as real
  {
    c.r as real * 0.299 + c.g as real * 0.587 + c.b as real * 0.114
  }

  /** Unweighted mean of the three channels, used as brightness by the scanner and the matcher. */
  function Brightness(c: Color): (v: real)
    ensures ValidColor(c) ==> 0.0 <= v <= 255.0
    ensures c.r == c.g == c.b ==> v == c.r as real
  {
    (c.r + c.g + c.b) as real / 3.0
  }

  function Min(a: int, b: int): int { if a <= b then a else b }
  function Max(a: int, b: int): int { if a >= b then a else b }
  function MinR(a: real, b: real): real { if a <= b then a else b }
  function MaxR(a: real, b: real): real { if a >= b then a else b }
  function AbsR(x: real): real { if x < 0.0 then -x else x }

  /** Multiplying by a positive factor keeps the order of two values. */
  lemma ScaleOrder(a: real, b: real, k: real)
    requires k > 0.0
    ensures a * k <= b * k <==> a <= b
    ensures a * k == b * k <==> a == b
  {
    assert (b - a) * k == b * k - a * k;
  }

  /** Comparing a quotient with a constant is comparing the dividend with the constant times the divisor. */
  lemma QuotientOrder(h: real, w: real, c: real)
    requires w > 0.0
    ensures h / w <= c <==> h <= c * w
    ensures h / w >= c <==> h >= c * w
  {
    var q := h / w;
    assert q * w == h;
    ScaleOrder(q, c, w);
    ScaleOrder(c, q, w);
  }
}
