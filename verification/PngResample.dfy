/** Box resampling of a decoded image onto a background, packed as RGB565. */
module PngResample {
  import opened Common
  import opened PngChunks

  // ----- which source rows (or columns) an output row covers

  function Start(o: nat, src: nat, dst: nat): nat
    requires dst > 0
  {
    o * src / dst
  }

  function End(o: nat, src: nat, dst: nat): nat
    requires dst > 0
  {
    var next := (o + 1) * src / dst;
    if next > Start(o, src, dst) then next else Start(o, src, dst) + 1
  }

  lemma DivBounds(a: nat, d: nat)
    requires d > 0
    ensures d * (a / d) <= a < d * (a / d) + d
  {}

  lemma DivMonotone(a: nat, b: nat, d: nat)
    requires d > 0 && a <= b
    ensures a / d <= b / d
  {
    DivBounds(a, d);
    DivBounds(b, d);
    Quotients(d, a / d, b / d, b);
  }

  lemma Quotients(d: nat, p: nat, q: nat, b: nat)
    requires d > 0 && d * p <= b && b < d * q + d
    ensures p <= q
  {
    if p > q { MulLe(d, q + 1, p); }
  }

  lemma MulLe(d: nat, p: nat, q: nat)
    requires p <= q
    ensures d * p <= d * q
  {
    assert d * q == d * p + d * (q - p);
  }

  lemma DivExact(s: nat, d: nat)
    requires d > 0
    ensures d * s / d == s
  {
    DivBounds(d * s, d);
    Quotients(d, d * s / d, s, d * s);
    Quotients(d, s, d * s / d, d * s);
  }

  /** An output row covers at least one source row, and only rows that exist. */
  lemma SpanInside(o: nat, src: nat, dst: nat)
    requires o < dst && src > 0
    ensures Start(o, src, dst) < End(o, src, dst) <= src
  {
    MulLe(src, o + 1, dst);
    DivMonotone((o + 1) * src, dst * src, dst);
    DivExact(src, dst);
    DivBounds(o * src, dst);
    assert (o + 1) * src == o * src + src && dst * (src - 1) + dst == dst * src;
    Quotients(dst, Start(o, src, dst), src - 1, o * src);
  }

  /** When not enlarging, one output row ends where the next begins. */
  lemma SpansMeet(o: nat, src: nat, dst: nat)
    requires o < dst <= src
    ensures End(o, src, dst) == Start(o + 1, src, dst)
  {
    var p, q := Start(o, src, dst), Start(o + 1, src, dst);
    DivBounds(o * src, dst);
    DivBounds((o + 1) * src, dst);
    assert (o + 1) * src == o * src + src;
    if q <= p {
      MulLe(dst, q, p);
      assert false;
    }
  }

  predicate Covers(o: nat, src: nat, dst: nat, s: nat)
    requires dst > 0
  {
    Start(o, src, dst) <= s < End(o, src, dst)
  }

  lemma {:induction false} CoveringRow(src: nat, dst: nat, s: nat, n: nat) returns (o: nat)
    requires 0 < dst <= src && n <= dst && s < Start(n, src, dst)
    ensures o < n && Covers(o, src, dst, s)
    decreases n
  {
    DivExact(0, dst);
    SpansMeet(n - 1, src, dst);
    if s >= Start(n - 1, src, dst) {
      o := n - 1;
    } else {
      o := CoveringRow(src, dst, s, n - 1);
    }
  }

  lemma StartMonotone(o: nat, p: nat, src: nat, dst: nat)
    requires dst > 0 && o <= p
    ensures Start(o, src, dst) <= Start(p, src, dst)
  {
    MulLe(src, o, p);
    DivMonotone(o * src, p * src, dst);
  }

  /** When not enlarging, every source row is covered by exactly one output row. */
  lemma CoveredOnce(src: nat, dst: nat, s: nat) returns (o: nat)
    requires 0 < dst <= src && s < src
    ensures o < dst && Covers(o, src, dst, s)
    ensures forall p: nat :: p < dst && Covers(p, src, dst, s) ==> p == o
  {
    assert dst * src / dst == src by { DivExact(src, dst); }
    o := CoveringRow(src, dst, s, dst);
    forall p: nat | p < dst && Covers(p, src, dst, s) ensures p == o {
      SpansMeet(o, src, dst);
      SpansMeet(p, src, dst);
      if p < o { StartMonotone(p + 1, o, src, dst); }
      if o < p { StartMonotone(o + 1, p, src, dst); }
    }
  }

  /** So each source pixel is used by exactly one output pixel. */
  lemma PixelUsedOnce(width: nat, height: nat, outWidth: nat, outHeight: nat, x: nat, y: nat)
    returns (ox: nat, oy: nat)
    requires 0 < outWidth <= width && 0 < outHeight <= height && x < width && y < height
    ensures ox < outWidth && oy < outHeight && Covers(ox, width, outWidth, x) && Covers(oy, height, outHeight, y)
    ensures forall px: nat, py: nat ::
              px < outWidth && py < outHeight && Covers(px, width, outWidth, x) && Covers(py, height, outHeight, y) ==>
              px == ox && py == oy
  {
    ox := CoveredOnce(width, outWidth, x);
    oy := CoveredOnce(height, outHeight, y);
  }

  // ----- pixels

  datatype Rgba = Rgba(r: byte, g: byte, b: byte, a: byte)

  ghost predicate Image(h: Header, data: seq<byte>) {
    && h.channels == Channels(h.colorType) > 0 && h.width > 0 && h.height > 0
    && |h.palette| == 768 && |h.paletteAlpha| == 256 && h.paletteCount <= 256
    && |data| == h.height * (h.width * h.channels + 1)
  }

  /** Where a pixel's samples are, after the row's filter octet. */
  function SampleAt(h: Header, x: nat, y: nat): nat {
    y * (h.width * h.channels + 1) + 1 + x * h.channels
  }

  lemma SampleInside(h: Header, data: seq<byte>, x: nat, y: nat)
    requires Image(h, data) && x < h.width && y < h.height
    ensures SampleAt(h, x, y) + h.channels <= |data|
  {
    var row := h.width * h.channels + 1;
    MulLe(h.channels, x + 1, h.width);
    MulLe(row, y + 1, h.height);
    assert x * h.channels + h.channels == h.channels * (x + 1);
    assert y * row + row == row * (y + 1);
  }

  function SourcePixel(h: Header, data: seq<byte>, x: nat, y: nat): Rgba
    requires Image(h, data) && x < h.width && y < h.height
  {
    SampleInside(h, data, x, y);
    var p := SampleAt(h, x, y);
    if h.colorType == 0 then Rgba(data[p], data[p], data[p], 255)
    else if h.colorType == 4 then Rgba(data[p], data[p], data[p], data[p + 1])
    else if h.colorType == 2 then Rgba(data[p], data[p + 1], data[p + 2], 255)
    else if h.colorType == 3 then
      var index: nat := data[p];
      if index < h.paletteCount
      then Rgba(h.palette[3 * index], h.palette[3 * index + 1], h.palette[3 * index + 2], h.paletteAlpha[index])
      else Rgba(0, 0, 0, 0)
    else Rgba(data[p], data[p + 1], data[p + 2], data[p + 3])
  }

  datatype Channel = Red | Green | Blue

  function Background(background: nat, c: Channel): byte {
    match c
    case Red => (background / 0x1_0000) % 256
    case Green => (background / 0x100) % 256
    case Blue => background % 256
  }

  function Blend(colour: byte, alpha: byte, background: byte): (v: byte)
    ensures colour <= background ==> colour <= v <= background
    ensures background <= colour ==> background <= v <= colour
  {
    BlendBounds(colour, alpha, background);
    (colour * alpha + background * (255 - alpha)) / 255
  }

  lemma BlendBounds(colour: int, alpha: int, background: int)
    requires 0 <= colour < 256 && 0 <= alpha < 256 && 0 <= background < 256
    ensures var v := (colour * alpha + background * (255 - alpha)) / 255;
            && (colour <= background ==> colour <= v <= background)
            && (background <= colour ==> background <= v <= colour)
  {
    var sum := colour * alpha + background * (255 - alpha);
    if colour <= background {
      MulLe(alpha, colour, background);
      MulLe(255 - alpha, colour, background);
    } else {
      MulLe(alpha, background, colour);
      MulLe(255 - alpha, background, colour);
    }
  }

  /** One source pixel's share of a channel. */
  function Contribution(h: Header, data: seq<byte>, background: nat, c: Channel, x: nat, y: nat): byte
    requires Image(h, data) && x < h.width && y < h.height
  {
    var s := SourcePixel(h, data, x, y);
    Blend(match c case Red => s.r case Green => s.g case Blue => s.b, s.a, Background(background, c))
  }

  function RowSum(h: Header, data: seq<byte>, background: nat, c: Channel, y: nat, x0: nat, x1: nat): nat
    requires Image(h, data) && x0 <= x1 <= h.width && y < h.height
  {
    if x0 == x1 then 0
    else RowSum(h, data, background, c, y, x0, x1 - 1) + Contribution(h, data, background, c, x1 - 1, y)
  }

  function BoxSum(h: Header, data: seq<byte>, background: nat, c: Channel, y0: nat, y1: nat, x0: nat, x1: nat): nat
    requires Image(h, data) && x0 <= x1 <= h.width && y0 <= y1 <= h.height
  {
    if y0 == y1 then 0
    else BoxSum(h, data, background, c, y0, y1 - 1, x0, x1) + RowSum(h, data, background, c, y1 - 1, x0, x1)
  }

  /** Every contribution in the box lies between two values. */
  ghost predicate Between(h: Header, data: seq<byte>, background: nat, c: Channel,
                          y0: nat, y1: nat, x0: nat, x1: nat, low: nat, high: nat)
    requires Image(h, data) && x0 <= x1 <= h.width && y0 <= y1 <= h.height
  {
    forall x, y :: x0 <= x < x1 && y0 <= y < y1 ==> low <= Contribution(h, data, background, c, x, y) <= high
  }

  lemma {:induction false} RowSumBetween(h: Header, data: seq<byte>, background: nat, c: Channel,
                                         y: nat, x0: nat, x1: nat, low: nat, high: nat)
    requires Image(h, data) && x0 <= x1 <= h.width && y < h.height
    requires Between(h, data, background, c, y, y + 1, x0, x1, low, high)
    ensures low * (x1 - x0) <= RowSum(h, data, background, c, y, x0, x1) <= high * (x1 - x0)
  {
    hide Contribution, Image;
    if x0 < x1 {
      RowSumBetween(h, data, background, c, y, x0, x1 - 1, low, high);
      assert low * (x1 - x0) == low * (x1 - 1 - x0) + low && high * (x1 - x0) == high * (x1 - 1 - x0) + high;
    }
  }

  lemma {:induction false} BoxSumBetween(h: Header, data: seq<byte>, background: nat, c: Channel,
                                         y0: nat, y1: nat, x0: nat, x1: nat, low: nat, high: nat)
    requires Image(h, data) && x0 <= x1 <= h.width && y0 <= y1 <= h.height
    requires Between(h, data, background, c, y0, y1, x0, x1, low, high)
    ensures var n := (y1 - y0) * (x1 - x0);
            low * n <= BoxSum(h, data, background, c, y0, y1, x0, x1) <= high * n
  {
    hide Contribution, Image;
    if y0 < y1 {
      BoxSumBetween(h, data, background, c, y0, y1 - 1, x0, x1, low, high);
      RowSumBetween(h, data, background, c, y1 - 1, x0, x1, low, high);
      var w := x1 - x0;
      Distribute(low, y1 - 1 - y0, w);
      Distribute(high, y1 - 1 - y0, w);
    }
  }

  lemma Distribute(v: nat, rows: nat, w: nat)
    ensures v * ((rows + 1) * w) == v * (rows * w) + v * w
  {
    assert (rows + 1) * w == rows * w + w;
  }

  function Quotient(sum: nat, n: nat): nat
    requires n > 0
  {
    sum / n
  }

  function Average(h: Header, data: seq<byte>, background: nat, c: Channel, y0: nat, y1: nat, x0: nat, x1: nat): nat
    requires Image(h, data) && x0 < x1 <= h.width && y0 < y1 <= h.height
  {
    BoxNotEmpty(y1 - y0, x1 - x0);
    Quotient(BoxSum(h, data, background, c, y0, y1, x0, x1), (y1 - y0) * (x1 - x0))
  }

  lemma BoxNotEmpty(rows: nat, columns: nat)
    requires rows > 0 && columns > 0
    ensures rows * columns > 0
  {}

  /** A channel of an output pixel lies between the least and the greatest
      contribution it averages; in particular it is an octet. */
  lemma AverageBetween(h: Header, data: seq<byte>, background: nat, c: Channel,
                       y0: nat, y1: nat, x0: nat, x1: nat, low: nat, high: nat)
    requires Image(h, data) && x0 < x1 <= h.width && y0 < y1 <= h.height
    requires Between(h, data, background, c, y0, y1, x0, x1, low, high)
    ensures low <= Average(h, data, background, c, y0, y1, x0, x1) <= high
  {
    hide Contribution, Image, BoxSum;
    BoxSumBetween(h, data, background, c, y0, y1, x0, x1, low, high);
    var n := (y1 - y0) * (x1 - x0);
    BoxNotEmpty(y1 - y0, x1 - x0);
    var sum := BoxSum(h, data, background, c, y0, y1, x0, x1);
    DivBounds(sum, n);
    assert low * n == n * low && high * n == n * high;
    Quotients(n, low, sum / n, sum);
    Quotients(n, sum / n, high, n * high);
  }

  // ----- RGB565

  function Pack(r: nat, g: nat, b: nat): nat { (r / 8) * 2048 + (g / 4) * 32 + b / 8 }

  /** The three fields never overlap. */
  lemma PackFields(r: nat, g: nat, b: nat)
    requires r <= 255 && g <= 255 && b <= 255
    ensures Pack(r, g, b) < 0x1_0000
    ensures Pack(r, g, b) / 2048 == r / 8 && (Pack(r, g, b) / 32) % 64 == g / 4 && Pack(r, g, b) % 32 == b / 8
  {
    var high, middle, low := r / 8, g / 4, b / 8;
    assert high < 32 && middle < 64 && low < 32;
    assert Pack(r, g, b) == high * 2048 + middle * 32 + low;
    hide Pack;
    Fields(high, middle, low);
  }

  lemma Fields(high: nat, middle: nat, low: nat)
    requires high < 32 && middle < 64 && low < 32
    ensures var v := high * 2048 + middle * 32 + low;
            v < 0x1_0000 && v / 2048 == high && (v / 32) % 64 == middle && v % 32 == low
  {
    var v := high * 2048 + middle * 32 + low;
    assert v / 32 == high * 64 + middle;
  }

  // ----- the loops

  /** The output pixel at (ox, oy). */
  function PixelAt(h: Header, data: seq<byte>, background: nat, outWidth: nat, outHeight: nat, ox: nat, oy: nat): nat
    requires Image(h, data) && ox < outWidth && oy < outHeight
  {
    SpanInside(oy, h.height, outHeight);
    SpanInside(ox, h.width, outWidth);
    var y0, y1 := Start(oy, h.height, outHeight), End(oy, h.height, outHeight);
    var x0, x1 := Start(ox, h.width, outWidth), End(ox, h.width, outWidth);
    Pack(Average(h, data, background, Red, y0, y1, x0, x1),
         Average(h, data, background, Green, y0, y1, x0, x1),
         Average(h, data, background, Blue, y0, y1, x0, x1))
  }

  /** Adds up one box, channel by channel, counting its samples. */
  method SumBox(h: Header, data: seq<byte>, background: nat, y0: nat, y1: nat, x0: nat, x1: nat)
    returns (red: nat, green: nat, blue: nat, samples: nat)
    requires Image(h, data) && x0 <= x1 <= h.width && y0 <= y1 <= h.height
    ensures red == BoxSum(h, data, background, Red, y0, y1, x0, x1)
    ensures green == BoxSum(h, data, background, Green, y0, y1, x0, x1)
    ensures blue == BoxSum(h, data, background, Blue, y0, y1, x0, x1)
    ensures samples == (y1 - y0) * (x1 - x0)
  {
    hide Image, SourcePixel, Blend, Background;
    red, green, blue, samples := 0, 0, 0, 0;
    for y := y0 to y1
      invariant red == BoxSum(h, data, background, Red, y0, y, x0, x1)
      invariant green == BoxSum(h, data, background, Green, y0, y, x0, x1)
      invariant blue == BoxSum(h, data, background, Blue, y0, y, x0, x1)
      invariant samples == (y - y0) * (x1 - x0)
    {
      var r, g, b := 0, 0, 0;
      for x := x0 to x1
        invariant r == RowSum(h, data, background, Red, y, x0, x)
        invariant g == RowSum(h, data, background, Green, y, x0, x)
        invariant b == RowSum(h, data, background, Blue, y, x0, x)
        invariant samples == (y - y0) * (x1 - x0) + (x - x0)
      {
        r := r + Contribution(h, data, background, Red, x, y);
        g := g + Contribution(h, data, background, Green, x, y);
        b := b + Contribution(h, data, background, Blue, x, y);
        samples := samples + 1;
      }
      red, green, blue := red + r, green + g, blue + b;
      assert (y + 1 - y0) * (x1 - x0) == (y - y0) * (x1 - x0) + (x1 - x0);
    }
  }

  /** Fills the whole output, row by row. */
  method Resample(h: Header, data: seq<byte>, background: nat, outWidth: nat, outHeight: nat, out: array<nat>)
    requires Image(h, data) && out.Length == outHeight * outWidth
    modifies out
    ensures RowsDone(out[..], h, data, background, outWidth, outHeight, outHeight)
  {
    hide Image, PixelAt;
    for oy := 0 to outHeight
      invariant RowsDone(out[..], h, data, background, outWidth, outHeight, oy)
    {
      ghost var before := out[..];
      FillRow(h, data, background, outWidth, outHeight, oy, out);
      NextRow(before, out[..], h, data, background, outWidth, outHeight, oy);
    }
  }

  ghost predicate RowsDone(out: seq<nat>, h: Header, data: seq<byte>, background: nat,
                           outWidth: nat, outHeight: nat, rows: nat)
    requires Image(h, data) && |out| == outHeight * outWidth && rows <= outHeight
  {
    forall ox, oy :: 0 <= ox < outWidth && 0 <= oy < rows ==>
      PixelIs(out, h, data, background, outWidth, outHeight, ox, oy)
  }

  ghost predicate PixelIs(out: seq<nat>, h: Header, data: seq<byte>, background: nat,
                          outWidth: nat, outHeight: nat, ox: nat, oy: nat)
    requires Image(h, data) && ox < outWidth && oy < outHeight
  {
    oy * outWidth + ox < |out| &&
    out[oy * outWidth + ox] == PixelAt(h, data, background, outWidth, outHeight, ox, oy)
  }

  lemma RowInside(outWidth: nat, outHeight: nat, oy: nat)
    requires oy < outHeight
    ensures oy * outWidth + outWidth <= outHeight * outWidth
  {
    MulLe(outWidth, oy + 1, outHeight);
    assert outWidth * (oy + 1) == oy * outWidth + outWidth;
  }

  lemma NextRow(before: seq<nat>, out: seq<nat>, h: Header, data: seq<byte>, background: nat,
                outWidth: nat, outHeight: nat, row: nat)
    requires Image(h, data) && |before| == |out| == outHeight * outWidth && row < outHeight
    requires RowsDone(before, h, data, background, outWidth, outHeight, row)
    requires forall ox :: 0 <= ox < outWidth ==> PixelIs(out, h, data, background, outWidth, outHeight, ox, row)
    requires forall i :: 0 <= i < row * outWidth && i < |out| ==> out[i] == before[i]
    ensures RowsDone(out, h, data, background, outWidth, outHeight, row + 1)
  {
    hide PixelAt, Image;
    forall ox: nat, oy: nat | ox < outWidth && oy < row + 1
      ensures PixelIs(out, h, data, background, outWidth, outHeight, ox, oy)
    {
      if oy < row {
        assert PixelIs(before, h, data, background, outWidth, outHeight, ox, oy);
        RowInside(outWidth, row, oy);
      }
    }
  }

  lemma PixelStays(last: seq<nat>, h: Header, data: seq<byte>, background: nat,
                   outWidth: nat, outHeight: nat, ox: nat, oy: nat, at: nat, pixel: nat, k: nat)
    requires Image(h, data) && oy < outHeight && k <= ox < outWidth && at == oy * outWidth + ox < |last|
    requires pixel == PixelAt(h, data, background, outWidth, outHeight, ox, oy)
    requires k < ox ==> PixelIs(last, h, data, background, outWidth, outHeight, k, oy)
    ensures PixelIs(last[at := pixel], h, data, background, outWidth, outHeight, k, oy)
  {
    hide Image, PixelAt;
  }

  method FillRow(h: Header, data: seq<byte>, background: nat, outWidth: nat, outHeight: nat, oy: nat, out: array<nat>)
    requires Image(h, data) && out.Length == outHeight * outWidth && oy < outHeight
    modifies out
    ensures forall ox :: 0 <= ox < outWidth ==> PixelIs(out[..], h, data, background, outWidth, outHeight, ox, oy)
    ensures forall i :: 0 <= i < oy * outWidth && i < out.Length ==> out[i] == old(out[i])
  {
    hide Image, PixelAt, PixelIs;
    RowInside(outWidth, outHeight, oy);
    ghost var before := out[..];
    for ox := 0 to outWidth
      invariant forall k :: 0 <= k < ox ==> PixelIs(out[..], h, data, background, outWidth, outHeight, k, oy)
      invariant forall i :: 0 <= i < oy * outWidth && i < out.Length ==> out[i] == before[i]
    {
      var pixel := OutputPixel(h, data, background, outWidth, outHeight, ox, oy);
      ghost var last := out[..];
      var index := oy * outWidth + ox;
      out[index] := pixel;
      assert out[..] == last[index := pixel];
      forall k | 0 <= k < ox + 1 ensures PixelIs(out[..], h, data, background, outWidth, outHeight, k, oy) {
        PixelStays(last, h, data, background, outWidth, outHeight, ox, oy, index, pixel, k);
      }
    }
  }

  method OutputPixel(h: Header, data: seq<byte>, background: nat, outWidth: nat, outHeight: nat, ox: nat, oy: nat)
    returns (pixel: nat)
    requires Image(h, data) && ox < outWidth && oy < outHeight
    ensures pixel == PixelAt(h, data, background, outWidth, outHeight, ox, oy)
  {
    hide Image, BoxSum;
    var y0 := oy * h.height / outHeight;
    var y1 := (oy + 1) * h.height / outHeight;
    y1 := if y1 > y0 then y1 else y0 + 1;
    var x0 := ox * h.width / outWidth;
    var x1 := (ox + 1) * h.width / outWidth;
    x1 := if x1 > x0 then x1 else x0 + 1;
    ImageSize(h, data);
    SpanInside(oy, h.height, outHeight);
    SpanInside(ox, h.width, outWidth);
    assert y0 == Start(oy, h.height, outHeight) && y1 == End(oy, h.height, outHeight);
    assert x0 == Start(ox, h.width, outWidth) && x1 == End(ox, h.width, outWidth);
    hide Start, End, RowSum, Contribution;
    var red, green, blue, samples := SumBox(h, data, background, y0, y1, x0, x1);
    BoxNotEmpty(y1 - y0, x1 - x0);
    hide BoxSum, Quotient, Pack;
    pixel := Pack(Quotient(red, samples), Quotient(green, samples), Quotient(blue, samples));
  }

  lemma ImageSize(h: Header, data: seq<byte>)
    requires Image(h, data)
    ensures h.width > 0 && h.height > 0
  {}

  lemma OctetsBetween(h: Header, data: seq<byte>, background: nat, c: Channel, y0: nat, y1: nat, x0: nat, x1: nat)
    requires Image(h, data) && x0 < x1 <= h.width && y0 < y1 <= h.height
    ensures Average(h, data, background, c, y0, y1, x0, x1) <= 255
  {
    AverageBetween(h, data, background, c, y0, y1, x0, x1, 0, 255);
  }

  /** Every output pixel is sixteen bits whose fields are the three averages. */
  lemma PixelFields(h: Header, data: seq<byte>, background: nat, outWidth: nat, outHeight: nat, ox: nat, oy: nat)
    requires Image(h, data) && ox < outWidth && oy < outHeight
    ensures Start(oy, h.height, outHeight) < End(oy, h.height, outHeight) <= h.height
    ensures Start(ox, h.width, outWidth) < End(ox, h.width, outWidth) <= h.width
    ensures var y0, y1 := Start(oy, h.height, outHeight), End(oy, h.height, outHeight);
            var x0, x1 := Start(ox, h.width, outWidth), End(ox, h.width, outWidth);
            var pixel := PixelAt(h, data, background, outWidth, outHeight, ox, oy);
            && pixel < 0x1_0000
            && pixel / 2048 == Average(h, data, background, Red, y0, y1, x0, x1) / 8
            && (pixel / 32) % 64 == Average(h, data, background, Green, y0, y1, x0, x1) / 4
            && pixel % 32 == Average(h, data, background, Blue, y0, y1, x0, x1) / 8
  {
    ImageSize(h, data);
    SpanInside(oy, h.height, outHeight);
    SpanInside(ox, h.width, outWidth);
    hide Image, Average, Start, End, Pack;
    var y0, y1 := Start(oy, h.height, outHeight), End(oy, h.height, outHeight);
    var x0, x1 := Start(ox, h.width, outWidth), End(ox, h.width, outWidth);
    OctetsBetween(h, data, background, Red, y0, y1, x0, x1);
    OctetsBetween(h, data, background, Green, y0, y1, x0, x1);
    OctetsBetween(h, data, background, Blue, y0, y1, x0, x1);
    PackFields(Average(h, data, background, Red, y0, y1, x0, x1),
               Average(h, data, background, Green, y0, y1, x0, x1),
               Average(h, data, background, Blue, y0, y1, x0, x1));
  }
}
