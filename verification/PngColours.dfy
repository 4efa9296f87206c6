/** What the pixels of a decoded logo are, in terms of the octets of the picture (RFC 2083 section 3). */
module PngColours {
  import opened Common
  import opened PngChunks
  import opened PngResample

  // ----- one source pixel

  /** The picture stores the colour `s` at (x, y): greyscale, with or without alpha, true
      colour, with or without alpha, or an index into the palette. */
  predicate Stored(h: Header, data: seq<byte>, x: nat, y: nat, s: Rgba) {
    var width, d := h.width, data;
    match h.colorType
    case 0 => var p := y * (width + 1) + 1 + x;
              p < |d| && s == Rgba(d[p], d[p], d[p], 255)
    case 4 => var p := y * (width * 2 + 1) + 1 + x * 2;
              p + 1 < |d| && s == Rgba(d[p], d[p], d[p], d[p + 1])
    case 2 => var p := y * (width * 3 + 1) + 1 + x * 3;
              p + 2 < |d| && s == Rgba(d[p], d[p + 1], d[p + 2], 255)
    case 6 => var p := y * (width * 4 + 1) + 1 + x * 4;
              p + 3 < |d| && s == Rgba(d[p], d[p + 1], d[p + 2], d[p + 3])
    case 3 => var p := y * (width + 1) + 1 + x;
              p < |d| && |h.palette| == 768 && |h.paletteAlpha| == 256 &&
              var k: nat := d[p];
              s == if k < h.paletteCount
                   then Rgba(h.palette[3 * k], h.palette[3 * k + 1], h.palette[3 * k + 2], h.paletteAlpha[k])
                   else Rgba(0, 0, 0, 0)
    case _ => false
  }

  lemma StoredIsSource(h: Header, data: seq<byte>, x: nat, y: nat, s: Rgba)
    requires Image(h, data) && x < h.width && y < h.height
    ensures Stored(h, data, x, y, s) <==> s == SourcePixel(h, data, x, y)
  {
    SampleInside(h, data, x, y);
  }

  /** `v` is `colour` over `background` at this opacity, rounded down. */
  predicate Mixed(v: int, colour: int, alpha: int, background: int) {
    255 * v <= colour * alpha + background * (255 - alpha) < 255 * v + 255
  }

  lemma MixedOnce(v: int, w: int, colour: int, alpha: int, background: int)
    requires Mixed(v, colour, alpha, background) && Mixed(w, colour, alpha, background)
    ensures v == w
  {
    var sum := colour * alpha + background * (255 - alpha);
    assert 255 * v <= sum < 255 * v + 255 && 255 * w <= sum < 255 * w + 255;
  }

  /** The three colours of a background given as 0xRRGGBB. */
  predicate Splits(background: nat, r: byte, g: byte, b: byte) {
    var red: int, green: int, blue: int := r, g, b;
    background == red * 0x1_0000 + green * 0x100 + blue
  }

  lemma BackgroundSplits(background: nat, r: byte, g: byte, b: byte)
    requires Splits(background, r, g, b)
    ensures Background(background, Red) == r && Background(background, Green) == g && Background(background, Blue) == b
  {}

  lemma BlendMixes(colour: byte, alpha: byte, background: byte)
    ensures Mixed(Blend(colour, alpha, background), colour, alpha, background)
  {
    var a: int, c: int, b: int := alpha, colour, background;
    var sum := c * a + b * (255 - a);
    assert sum == 255 * (sum / 255) + sum % 255;
  }

  /** What one source pixel adds to each channel. */
  lemma ContributionMixes(h: Header, data: seq<byte>, background: nat, x: nat, y: nat, s: Rgba,
                          r: byte, g: byte, b: byte)
    requires Image(h, data) && x < h.width && y < h.height && Stored(h, data, x, y, s) && Splits(background, r, g, b)
    ensures Mixed(Contribution(h, data, background, Red, x, y), s.r, s.a, r)
    ensures Mixed(Contribution(h, data, background, Green, x, y), s.g, s.a, g)
    ensures Mixed(Contribution(h, data, background, Blue, x, y), s.b, s.a, b)
  {
    StoredIsSource(h, data, x, y, s);
    BackgroundSplits(background, r, g, b);
    BlendMixes(s.r, s.a, r);
    BlendMixes(s.g, s.a, g);
    BlendMixes(s.b, s.a, b);
    hide Blend, SourcePixel, Background, Mixed, Image, Stored;
  }

  /** Opaque shows the colour, transparent the background. */
  lemma MixedEnds(v: int, colour: int, background: int)
    ensures Mixed(v, colour, 255, background) <==> v == colour
    ensures Mixed(v, colour, 0, background) <==> v == background
  {}

  /** In between, more opaque is never farther from the colour. */
  lemma MixedMonotone(v: int, w: int, colour: int, alpha: int, more: int, background: int)
    requires 0 <= alpha <= more <= 255 && Mixed(v, colour, alpha, background) && Mixed(w, colour, more, background)
    ensures background <= colour ==> v <= w
    ensures colour <= background ==> w <= v
  {
    var low, high := colour * alpha + background * (255 - alpha), colour * more + background * (255 - more);
    MoreOpaque(colour, alpha, more, background);
    assert 255 * v <= low < 255 * v + 255 && 255 * w <= high < 255 * w + 255;
  }

  lemma MoreOpaque(colour: int, alpha: int, more: int, background: int)
    requires 0 <= alpha <= more <= 255
    ensures var low, high := colour * alpha + background * (255 - alpha), colour * more + background * (255 - more);
            (background <= colour ==> low <= high) && (colour <= background ==> high <= low)
  {
    var d, step := colour - background, more - alpha;
    assert colour * more + background * (255 - more) == colour * alpha + background * (255 - alpha) + d * step;
    assert d >= 0 ==> d * step >= 0;
    assert d <= 0 ==> d * step <= 0;
  }

  // ----- sums over boxes

  lemma OnePixel(h: Header, data: seq<byte>, background: nat, c: Channel, x: nat, y: nat)
    requires Image(h, data) && x < h.width && y < h.height
    ensures BoxSum(h, data, background, c, y, y + 1, x, x + 1) == Contribution(h, data, background, c, x, y)
  {
    hide Contribution, Image;
    assert RowSum(h, data, background, c, y, x, x) == 0;
    assert BoxSum(h, data, background, c, y, y, x, x + 1) == 0;
  }

  lemma {:induction false} RowSumsJoin(h: Header, data: seq<byte>, background: nat, c: Channel,
                                       y: nat, x0: nat, x1: nat, x2: nat)
    requires Image(h, data) && x0 <= x1 <= x2 <= h.width && y < h.height
    ensures RowSum(h, data, background, c, y, x0, x2)
         == RowSum(h, data, background, c, y, x0, x1) + RowSum(h, data, background, c, y, x1, x2)
    decreases x2
  {
    hide Contribution, Image;
    if x1 < x2 { RowSumsJoin(h, data, background, c, y, x0, x1, x2 - 1); }
  }

  lemma {:induction false} BoxesJoinAcross(h: Header, data: seq<byte>, background: nat, c: Channel,
                                           y0: nat, y1: nat, x0: nat, x1: nat, x2: nat)
    requires Image(h, data) && x0 <= x1 <= x2 <= h.width && y0 <= y1 <= h.height
    ensures BoxSum(h, data, background, c, y0, y1, x0, x2)
         == BoxSum(h, data, background, c, y0, y1, x0, x1) + BoxSum(h, data, background, c, y0, y1, x1, x2)
    decreases y1
  {
    hide Contribution, Image, RowSum;
    if y0 < y1 {
      BoxesJoinAcross(h, data, background, c, y0, y1 - 1, x0, x1, x2);
      RowSumsJoin(h, data, background, c, y1 - 1, x0, x1, x2);
    }
  }

  lemma {:induction false} BoxesJoinDown(h: Header, data: seq<byte>, background: nat, c: Channel,
                                         y0: nat, y1: nat, y2: nat, x0: nat, x1: nat)
    requires Image(h, data) && x0 <= x1 <= h.width && y0 <= y1 <= y2 <= h.height
    ensures BoxSum(h, data, background, c, y0, y2, x0, x1)
         == BoxSum(h, data, background, c, y0, y1, x0, x1) + BoxSum(h, data, background, c, y1, y2, x0, x1)
    decreases y2
  {
    hide Contribution, Image, RowSum;
    if y1 < y2 { BoxesJoinDown(h, data, background, c, y0, y1, y2 - 1, x0, x1); }
  }

  /** An output channel is the mean of its box, rounded down. */
  lemma AverageIsMean(h: Header, data: seq<byte>, background: nat, c: Channel, y0: nat, y1: nat, x0: nat, x1: nat)
    requires Image(h, data) && x0 < x1 <= h.width && y0 < y1 <= h.height
    ensures var n, v := (y1 - y0) * (x1 - x0), Average(h, data, background, c, y0, y1, x0, x1);
            n * v <= BoxSum(h, data, background, c, y0, y1, x0, x1) < n * v + n
  {
    hide Contribution, Image, BoxSum;
    BoxNotEmpty(y1 - y0, x1 - x0);
    DivBounds(BoxSum(h, data, background, c, y0, y1, x0, x1), (y1 - y0) * (x1 - x0));
  }

  /** The sums of the boxes of the first n columns of output pixels, in one row of them. */
  function AcrossTo(h: Header, data: seq<byte>, background: nat, c: Channel, outWidth: nat,
                    y0: nat, y1: nat, n: nat): nat
    requires Image(h, data) && y0 <= y1 <= h.height && n <= outWidth <= h.width && outWidth > 0
  {
    if n == 0 then 0
    else
      ImageSize(h, data);
      SpanInside(n - 1, h.width, outWidth);
      AcrossTo(h, data, background, c, outWidth, y0, y1, n - 1)
      + BoxSum(h, data, background, c, y0, y1, Start(n - 1, h.width, outWidth), End(n - 1, h.width, outWidth))
  }

  function DownTo(h: Header, data: seq<byte>, background: nat, c: Channel, outWidth: nat, outHeight: nat, n: nat): nat
    requires Image(h, data) && 0 < outWidth <= h.width && n <= outHeight <= h.height && outHeight > 0
  {
    if n == 0 then 0
    else
      ImageSize(h, data);
      SpanInside(n - 1, h.height, outHeight);
      DownTo(h, data, background, c, outWidth, outHeight, n - 1)
      + AcrossTo(h, data, background, c, outWidth,
                 Start(n - 1, h.height, outHeight), End(n - 1, h.height, outHeight), outWidth)
  }

  lemma StartInside(o: nat, src: nat, dst: nat)
    requires 0 < dst <= src && o <= dst
    ensures Start(o, src, dst) <= src
    ensures (o == 0 ==> Start(o, src, dst) == 0) && (o == dst ==> Start(o, src, dst) == src)
  {
    DivExact(src, dst);
    DivExact(0, dst);
    StartMonotone(o, dst, src, dst);
    assert dst * src / dst == src;
  }

  lemma {:induction false} AcrossIsRow(h: Header, data: seq<byte>, background: nat, c: Channel, outWidth: nat,
                                       y0: nat, y1: nat, n: nat)
    requires Image(h, data) && y0 <= y1 <= h.height && n <= outWidth <= h.width && outWidth > 0
    ensures Start(n, h.width, outWidth) <= h.width
    ensures AcrossTo(h, data, background, c, outWidth, y0, y1, n)
         == BoxSum(h, data, background, c, y0, y1, 0, Start(n, h.width, outWidth))
    decreases n
  {
    hide BoxSum, Image, Start, End;
    StartInside(n, h.width, outWidth);
    if n == 0 {
      EmptyBox(h, data, background, c, y0, y1);
    } else {
      AcrossIsRow(h, data, background, c, outWidth, y0, y1, n - 1);
      SpansMeet(n - 1, h.width, outWidth);
      SpanInside(n - 1, h.width, outWidth);
      BoxesJoinAcross(h, data, background, c, y0, y1, 0, Start(n - 1, h.width, outWidth), Start(n, h.width, outWidth));
    }
  }

  lemma {:induction false} EmptyBox(h: Header, data: seq<byte>, background: nat, c: Channel, y0: nat, y1: nat)
    requires Image(h, data) && y0 <= y1 <= h.height
    ensures BoxSum(h, data, background, c, y0, y1, 0, 0) == 0
    decreases y1
  {
    hide Image;
    if y0 < y1 { EmptyBox(h, data, background, c, y0, y1 - 1); }
  }

  lemma {:induction false} DownIsBox(h: Header, data: seq<byte>, background: nat, c: Channel,
                                     outWidth: nat, outHeight: nat, n: nat)
    requires Image(h, data) && 0 < outWidth <= h.width && n <= outHeight <= h.height && outHeight > 0
    ensures Start(n, h.height, outHeight) <= h.height
    ensures DownTo(h, data, background, c, outWidth, outHeight, n)
         == BoxSum(h, data, background, c, 0, Start(n, h.height, outHeight), 0, h.width)
    decreases n
  {
    hide Image, Start, End, AcrossTo, RowSum;
    StartInside(n, h.height, outHeight);
    if n > 0 {
      var y0, y1 := Start(n - 1, h.height, outHeight), Start(n, h.height, outHeight);
      DownIsBox(h, data, background, c, outWidth, outHeight, n - 1);
      SpansMeet(n - 1, h.height, outHeight);
      SpanInside(n - 1, h.height, outHeight);
      AcrossIsRow(h, data, background, c, outWidth, y0, y1, outWidth);
      StartInside(outWidth, h.width, outWidth);
      BoxesJoinDown(h, data, background, c, 0, y0, y1, 0, h.width);
    }
  }

  /** When not enlarging, the boxes of all output pixels add up to the whole image. */
  lemma BoxesAddUp(h: Header, data: seq<byte>, background: nat, c: Channel, outWidth: nat, outHeight: nat)
    requires Image(h, data) && 0 < outWidth <= h.width && 0 < outHeight <= h.height
    ensures DownTo(h, data, background, c, outWidth, outHeight, outHeight)
         == BoxSum(h, data, background, c, 0, h.height, 0, h.width)
  {
    DownIsBox(h, data, background, c, outWidth, outHeight, outHeight);
    StartInside(outHeight, h.height, outHeight);
    hide Image, Start, BoxSum, DownTo;
  }

  /** When not shrinking, an output row covers the one source row that it falls in. */
  lemma Enlarging(o: nat, src: nat, dst: nat)
    requires 0 < src <= dst && o < dst
    ensures End(o, src, dst) == Start(o, src, dst) + 1
    ensures dst * Start(o, src, dst) <= o * src < dst * Start(o, src, dst) + dst
  {
    var p, q := Start(o, src, dst), (o + 1) * src / dst;
    DivBounds(o * src, dst);
    DivBounds((o + 1) * src, dst);
    assert (o + 1) * src == o * src + src;
    if q > p + 1 {
      MulLe(dst, p + 2, q);
      assert false;
    }
  }

  // ----- a picture at its own size

  lemma OwnSpan(o: nat, size: nat)
    requires o < size
    ensures Start(o, size, size) == o && End(o, size, size) == o + 1
  {
    DivExact(o, size);
    DivExact(o + 1, size);
    assert o * size == size * o && (o + 1) * size == size * (o + 1);
  }

  lemma OwnAverage(h: Header, data: seq<byte>, background: nat, c: Channel, x: nat, y: nat)
    requires Image(h, data) && x < h.width && y < h.height
    ensures Average(h, data, background, c, y, y + 1, x, x + 1) == Contribution(h, data, background, c, x, y)
  {
    OnePixel(h, data, background, c, x, y);
    AverageIsMean(h, data, background, c, y, y + 1, x, x + 1);
    assert (y + 1 - y) * (x + 1 - x) == 1;
    hide Average, Contribution, BoxSum, Image;
  }

  /** Decoded at its own size, a picture gives each stored colour over the background,
      rounded down, the upper five, six and five bits packed from the top. */
  lemma OwnSize(h: Header, raw: seq<byte>, background: nat, out: seq<nat>, x: nat, y: nat, s: Rgba,
                r: byte, g: byte, b: byte, red: int, green: int, blue: int)
    requires Image(h, raw) && |out| == h.height * h.width && x < h.width && y < h.height
    requires RowsDone(out, h, raw, background, h.width, h.height, h.height)
    requires Stored(h, raw, x, y, s) && Splits(background, r, g, b)
    requires Mixed(red, s.r, s.a, r) && Mixed(green, s.g, s.a, g) && Mixed(blue, s.b, s.a, b)
    ensures y * h.width + x < |out|
    ensures out[y * h.width + x] == (red / 8) * 2048 + (green / 4) * 32 + blue / 8
  {
    assert PixelIs(out, h, raw, background, h.width, h.height, x, y);
    OwnPixel(h, raw, background, x, y);
    ContributionMixes(h, raw, background, x, y, s, r, g, b);
    MixedOnce(red, Contribution(h, raw, background, Red, x, y), s.r, s.a, r);
    MixedOnce(green, Contribution(h, raw, background, Green, x, y), s.g, s.a, g);
    MixedOnce(blue, Contribution(h, raw, background, Blue, x, y), s.b, s.a, b);
    hide Image, Mixed, Contribution, PixelAt, Stored;
  }

  lemma OwnPixel(h: Header, raw: seq<byte>, background: nat, x: nat, y: nat)
    requires Image(h, raw) && x < h.width && y < h.height
    ensures PixelAt(h, raw, background, h.width, h.height, x, y) ==
            Pack(Contribution(h, raw, background, Red, x, y), Contribution(h, raw, background, Green, x, y),
                 Contribution(h, raw, background, Blue, x, y))
  {
    OwnSpan(x, h.width);
    OwnSpan(y, h.height);
    OwnAverage(h, raw, background, Red, x, y);
    OwnAverage(h, raw, background, Green, x, y);
    OwnAverage(h, raw, background, Blue, x, y);
    hide Image, Average, Contribution, Start, End, Pack;
  }

  /** So an opaque pixel comes out in its own colour, and a transparent one in the background's. */
  lemma OpaqueAndTransparent(h: Header, raw: seq<byte>, background: nat, out: seq<nat>, x: nat, y: nat, s: Rgba,
                             r: byte, g: byte, b: byte)
    requires Image(h, raw) && |out| == h.height * h.width && x < h.width && y < h.height
    requires RowsDone(out, h, raw, background, h.width, h.height, h.height)
    requires Stored(h, raw, x, y, s) && Splits(background, r, g, b)
    ensures y * h.width + x < |out|
    ensures s.a == 255 ==> out[y * h.width + x] == (s.r / 8) * 2048 + (s.g / 4) * 32 + s.b / 8
    ensures s.a == 0 ==> out[y * h.width + x] == (r / 8) * 2048 + (g / 4) * 32 + b / 8
  {
    hide RowsDone, Image, Stored;
    MixedEnds(s.r, s.r, r);
    MixedEnds(s.g, s.g, g);
    MixedEnds(s.b, s.b, b);
    MixedEnds(r, s.r, r);
    MixedEnds(g, s.g, g);
    MixedEnds(b, s.b, b);
    hide Mixed;
    RowPlace(h.width, h.height, x, y);
    if s.a == 255 {
      OwnSize(h, raw, background, out, x, y, s, r, g, b, s.r, s.g, s.b);
    } else if s.a == 0 {
      OwnSize(h, raw, background, out, x, y, s, r, g, b, r, g, b);
    }
  }

  lemma RowPlace(width: nat, height: nat, x: nat, y: nat)
    requires x < width && y < height
    ensures y * width + x < height * width
  {
    RowInside(width, height, y);
  }
}
