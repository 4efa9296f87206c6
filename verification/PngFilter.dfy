/**
  * Scanline filters of PNG (RFC 2083 section 6): what an encoder writes for
  * given pixels, and the decoder that undoes it in place.
  */
module PngFilter {
  import opened Common

  function Abs(x: int): nat { if x < 0 then -x else x }

  function Paeth(a: byte, b: byte, c: byte): byte {
    var p := (a as int) + (b as int) - (c as int);
    var pa, pb, pc := Abs(p - a), Abs(p - b), Abs(p - c);
    if pa <= pb && pa <= pc then a else if pb <= pc then b else c
  }

  /** The neighbour nearest to left + up - upLeft, ties in the order left, up, up-left. */
  lemma PaethIsNearest(a: byte, b: byte, c: byte)
    ensures var p := (a as int) + (b as int) - (c as int);
            var r := Paeth(a, b, c);
            && (r == a || r == b || r == c)
            && Abs(p - r) <= Abs(p - a) && Abs(p - r) <= Abs(p - b) && Abs(p - r) <= Abs(p - c)
            && (Abs(p - a) == Abs(p - r) ==> r == a)
            && (Abs(p - b) == Abs(p - r) && Abs(p - a) > Abs(p - r) ==> r == b)
  {}

  // ----- encoding

  /** Rows are `w` octets: the filter type, then the pixels.  The octet left of,
      above and above left of the one at `i`, zero outside the image. */
  function LeftOf(d: seq<byte>, w: nat, channels: nat, i: nat): byte
    requires w > 0 && channels > 0 && i < |d|
  {
    if i % w >= 1 + channels then d[i - channels] else 0
  }

  function Above(d: seq<byte>, w: nat, i: nat): byte
    requires w > 0 && i < |d|
  {
    if i >= w then d[i - w] else 0
  }

  function AboveLeft(d: seq<byte>, w: nat, channels: nat, i: nat): byte
    requires w > 0 && channels > 0 && i < |d|
  {
    if i >= w && i % w >= 1 + channels then (ModBound(i, w); d[i - w - channels]) else 0
  }

  lemma ModBound(i: nat, w: nat)
    requires w > 0 && i >= w
    ensures i % w <= i - w
  {
    assert i == w * (i / w) + i % w && i / w >= 1;
    assert w * (i / w) >= w by { if i / w > 1 { assert w * (i / w) == w * (i / w - 1) + w; } }
  }

  /** The prediction of a filter type from the three neighbours. */
  function Predict(filter: byte, left: byte, up: byte, upLeft: byte): byte {
    if filter == 1 then left
    else if filter == 2 then up
    else if filter == 3 then ((left as int) + (up as int)) / 2
    else if filter == 4 then Paeth(left, up, upLeft)
    else 0
  }

  function PredictAt(d: seq<byte>, w: nat, channels: nat, i: nat): byte
    requires w > 0 && channels > 0 && i < |d|
  {
    Predict(d[i - i % w], LeftOf(d, w, channels, i), Above(d, w, i), AboveLeft(d, w, channels, i))
  }

  /** What an encoder puts out for the octet at `i`. */
  function FilteredAt(d: seq<byte>, w: nat, channels: nat, i: nat): byte
    requires w > 0 && channels > 0 && i < |d|
  {
    if i % w == 0 then d[i] else (d[i] - PredictAt(d, w, channels, i)) % 256
  }

  /** A whole image, filtered row by row as its filter types say. */
  function Filtered(d: seq<byte>, w: nat, channels: nat): (f: seq<byte>)
    requires w > 0 && channels > 0
    ensures |f| == |d|
  {
    seq(|d|, i requires 0 <= i < |d| => FilteredAt(d, w, channels, i))
  }

  /** Every row has one of the five filter types. */
  predicate TypesOk(d: seq<byte>, w: nat, height: nat)
    requires |d| == height * w
  {
    forall y :: 0 <= y < height ==> RowType(d, w, height, y) <= 4
  }

  function RowType(d: seq<byte>, w: nat, height: nat, y: nat): byte
    requires |d| == height * w && y < height
  {
    if w == 0 then 0 else (RowStart(w, height, y); d[y * w])
  }

  lemma RowStart(w: nat, height: nat, y: nat)
    requires y < height
    ensures y * w + w <= height * w
  {
    assert (height - y - 1) * w >= 0;
    assert height * w == y * w + w + (height - y - 1) * w;
  }

  /** An octet's encoding depends on nothing after it. */
  lemma FilteredPrefix(d: seq<byte>, e: seq<byte>, w: nat, channels: nat, i: nat)
    requires w > 0 && channels > 0 && i < |d| && i < |e|
    requires forall j :: 0 <= j <= i ==> d[j] == e[j]
    ensures FilteredAt(d, w, channels, i) == FilteredAt(e, w, channels, i)
  {
    hide PredictAt;
    if i % w > 0 { SameNeighbours(d, e, w, channels, i); }
  }

  /** Filtering loses nothing: the pixels are determined by what it puts out. */
  lemma {:induction false} FilteredInjective(d: seq<byte>, e: seq<byte>, w: nat, channels: nat, n: nat)
    requires w > 0 && channels > 0 && |d| == |e| && n <= |d|
    requires Filtered(d, w, channels) == Filtered(e, w, channels)
    ensures d[..n] == e[..n]
  {
    if n > 0 {
      FilteredInjective(d, e, w, channels, n - 1);
      var i := n - 1;
      forall j | 0 <= j < i ensures d[j] == e[j] { assert d[..i][j] == e[..i][j]; }
      assert Filtered(d, w, channels)[i] == Filtered(e, w, channels)[i];
      SamePixel(d, e, w, channels, i);
    }
  }

  /** The prediction depends only on what comes before. */
  lemma SameNeighbours(d: seq<byte>, e: seq<byte>, w: nat, channels: nat, i: nat)
    requires w > 0 && channels > 0 && i < |d| && i < |e| && i % w > 0
    requires forall j :: 0 <= j < i ==> d[j] == e[j]
    ensures PredictAt(d, w, channels, i) == PredictAt(e, w, channels, i)
  {
    hide Predict;
    if i >= w { ModBound(i, w); }
    assert LeftOf(d, w, channels, i) == LeftOf(e, w, channels, i);
    assert Above(d, w, i) == Above(e, w, i);
    assert AboveLeft(d, w, channels, i) == AboveLeft(e, w, channels, i);
  }

  lemma SamePixel(d: seq<byte>, e: seq<byte>, w: nat, channels: nat, i: nat)
    requires w > 0 && channels > 0 && i < |d| == |e|
    requires forall j :: 0 <= j < i ==> d[j] == e[j]
    requires FilteredAt(d, w, channels, i) == FilteredAt(e, w, channels, i)
    ensures d[i] == e[i]
  {
    hide PredictAt;
    if i % w > 0 { SameNeighbours(d, e, w, channels, i); }
  }

  /** The octet to the left, above, and above to the left, within the image, zero outside. */
  function LeftIn(d: seq<byte>, channels: nat, x: nat, i: nat): byte
    requires x < i < |d|
  {
    if x >= channels then d[i - channels] else 0
  }

  /** The five filter types of RFC 2083 section 6, by row and place in the row. */
  lemma FilterMeans(d: seq<byte>, w: nat, channels: nat, y: nat, x: nat, i: nat)
    requires w > 0 && channels > 0 && x + 1 < w && i == y * w + 1 + x < |d|
    ensures y * w < |d| && Filtered(d, w, channels)[y * w] == d[y * w]
    ensures y > 0 ==> i >= w && x < i - w
    ensures var left := LeftIn(d, channels, x, i);
            var up := if y > 0 then d[i - w] else 0;
            var upLeft := if y > 0 then LeftIn(d, channels, x, i - w) else 0;
            var filtered := Filtered(d, w, channels)[i];
            && (d[y * w] == 0 ==> filtered == d[i])
            && (d[y * w] == 1 ==> filtered == (d[i] as int - left as int) % 256)
            && (d[y * w] == 2 ==> filtered == (d[i] as int - up as int) % 256)
            && (d[y * w] == 3 ==> filtered == (d[i] as int - (left as int + up as int) / 2) % 256)
            && (d[y * w] == 4 ==> filtered == (d[i] as int - Paeth(left, up, upLeft) as int) % 256)
  {
    NeighboursAre(d, w, channels, y, x, i);
    FilteredIs(d, w, channels, y, x, i);
    hide *;
    PredictMeans(d[y * w], LeftIn(d, channels, x, i), if y > 0 then d[i - w] else 0,
                 if y > 0 then LeftIn(d, channels, x, i - w) else 0);
  }

  lemma FilteredIs(d: seq<byte>, w: nat, channels: nat, y: nat, x: nat, i: nat)
    requires w > 0 && channels > 0 && x + 1 < w && i == y * w + 1 + x < |d|
    ensures Filtered(d, w, channels)[i] ==
            (d[i] as int - Predict(d[y * w], LeftOf(d, w, channels, i), Above(d, w, i), AboveLeft(d, w, channels, i)))
            % 256
    ensures y * w < |d| && Filtered(d, w, channels)[y * w] == d[y * w]
  {
    ModAt(y, w, x + 1);
    ModAt(y, w, 0);
    hide Predict, LeftOf, Above, AboveLeft;
  }

  lemma PredictMeans(filter: byte, left: byte, up: byte, upLeft: byte)
    ensures filter == 0 ==> Predict(filter, left, up, upLeft) == 0
    ensures filter == 1 ==> Predict(filter, left, up, upLeft) == left
    ensures filter == 2 ==> Predict(filter, left, up, upLeft) == up
    ensures filter == 3 ==> Predict(filter, left, up, upLeft) == (left as int + up as int) / 2
    ensures filter == 4 ==> Predict(filter, left, up, upLeft) == Paeth(left, up, upLeft)
  {
    hide Paeth;
  }

  lemma NeighboursAre(d: seq<byte>, w: nat, channels: nat, y: nat, x: nat, i: nat)
    requires w > 0 && channels > 0 && x + 1 < w && i == y * w + 1 + x < |d|
    ensures y > 0 ==> i >= w && x < i - w
    ensures x < i && LeftOf(d, w, channels, i) == LeftIn(d, channels, x, i)
    ensures Above(d, w, i) == if y > 0 then d[i - w] else 0
    ensures AboveLeft(d, w, channels, i) == if y > 0 then LeftIn(d, channels, x, i - w) else 0
    ensures y * w <= i
  {
    ModAt(y, w, x + 1);
    if y > 0 { MulAtLeast(w, y); } else { assert y * w == 0; }
  }

  // ----- decoding

  /** The first `n` octets of `d` are decoded from `e`, the rest still encoded. */
  ghost predicate Decoded(d: seq<byte>, e: seq<byte>, w: nat, channels: nat, n: nat)
    requires w > 0 && channels > 0
  {
    && |d| == |e|
    && (forall j :: 0 <= j < n && j < |d| ==> FilteredAt(d, w, channels, j) == e[j])
    && (forall j :: n <= j < |d| ==> d[j] == e[j])
  }

  lemma DecodedOneMore(d: seq<byte>, e: seq<byte>, w: nat, channels: nat, i: nat, v: byte)
    requires w > 0 && channels > 0 && Decoded(d, e, w, channels, i) && i < |d|
    requires FilteredAt(d[i := v], w, channels, i) == e[i]
    ensures Decoded(d[i := v], e, w, channels, i + 1)
  {
    var d' := d[i := v];
    forall j | 0 <= j < i ensures FilteredAt(d', w, channels, j) == e[j] {
      FilteredPrefix(d, d', w, channels, j);
    }
  }

  /** Adding the prediction back undoes the subtraction. */
  lemma Undoes(d: seq<byte>, e: seq<byte>, w: nat, channels: nat, i: nat)
    requires w > 0 && channels > 0 && i < |d| && i < |e| && i % w > 0 && d[i] == e[i]
    ensures var v := (d[i] + PredictAt(d, w, channels, i)) % 256;
            FilteredAt(d[i := v], w, channels, i) == e[i]
  {
    hide PredictAt;
    SameNeighbours(d, d[i := (d[i] + PredictAt(d, w, channels, i)) % 256], w, channels, i);
  }

  lemma ModAt(y: nat, w: nat, r: nat)
    requires r < w
    ensures (y * w + r) % w == r
  {
    var n := y * w + r;
    var q, m := n / w, n % w;
    var k := y - q;
    assert w * k == m - r by {
      assert n == w * q + m && w * k == w * y - w * q;
    }
    MulAtLeast(w, k);
    assert k == 0;
  }

  lemma MulAtLeast(w: int, k: int)
    requires w >= 0
    ensures k >= 1 ==> w * k >= w
    ensures k <= -1 ==> w * k <= -w
  {
    assert w * k == w + w * (k - 1) && w * k == -w + w * (k + 1);
  }

  /** The pixels at an octet's neighbours, as the decoder's pointers find them. */
  method Neighbours(data: array<byte>, w: nat, channels: nat, row: nat, x: nat)
    returns (left: byte, up: byte, upLeft: byte)
    requires channels > 0 && row + 1 + x < data.Length && (row == 0 || row >= w) && x + 1 < w
    requires (row + 1 + x) % w == x + 1
    ensures left == LeftOf(data[..], w, channels, row + 1 + x)
    ensures up == Above(data[..], w, row + 1 + x)
    ensures upLeft == AboveLeft(data[..], w, channels, row + 1 + x)
  {
    var pixels := row + 1;
    left := if x >= channels then data[pixels + x - channels] else 0;
    up := if row > 0 then data[pixels - w + x] else 0;
    upLeft := if row > 0 && x >= channels then data[pixels - w + x - channels] else 0;
  }

  /** Undoes the filters in place, rows keeping their filter octet: what the
      buffer held is exactly what filtering the result puts out. */
  method Unfilter(data: array<byte>, width: nat, height: nat, channels: nat) returns (ok: bool)
    requires width > 0 && channels > 0 && data.Length == height * (width * channels + 1)
    modifies data
    ensures ok <==> TypesOk(old(data[..]), width * channels + 1, height)
    ensures ok ==> Filtered(data[..], width * channels + 1, channels) == old(data[..])
  {
    var stride := width * channels;
    StrideAtLeastOne(width, channels);
    var w := stride + 1;
    ghost var e := data[..];
    for y := 0 to height
      invariant Decoded(data[..], e, w, channels, y * w)
      invariant forall k :: 0 <= k < y ==> RowType(e, w, height, k) <= 4
    {
      RowStart(w, height, y);
      var row := y * w;
      RowIsLater(y, w);
      ModAt(y, w, 0);
      var filter := data[row];
      assert filter == RowType(e, w, height, y);
      RowBegins(data[..], e, w, channels, row);
      var decoded := UnfilterRow(data, w, channels, y, row, filter, e);
      if !decoded {
        return false;
      }
      assert (y + 1) * w == row + w;
    }
    AllDecoded(data[..], e, w, channels);
    ok := true;
  }

  /** Undoes one row's filter, the rows above being decoded. */
  method UnfilterRow(data: array<byte>, w: nat, channels: nat, y: nat, row: nat, filter: byte, ghost e: seq<byte>)
    returns (ok: bool)
    requires w > 1 && channels > 0 && row == y * w && row + w <= data.Length && filter == data[row]
    requires (row == 0 || row >= w) && Decoded(data[..], e, w, channels, row + 1)
    modifies data
    ensures ok <==> filter <= 4
    ensures ok ==> Decoded(data[..], e, w, channels, row + w)
  {
    for x := 0 to w - 1
      invariant Decoded(data[..], e, w, channels, row + 1 + x)
      invariant data[row] == filter && (x > 0 ==> filter <= 4)
    {
      hide *;
      var i := row + 1 + x;
      ModAt(y, w, x + 1);
      var left, up, upLeft := Neighbours(data, w, channels, row, x);
      if filter > 4 {
        return false;
      }
      var v: byte := (data[i] + Predict(filter, left, up, upLeft)) % 256;
      DecodesOctet(data[..], e, w, channels, i, row, v);
      ghost var before := data[..];
      data[i] := v;
      assert data[..] == before[i := v];
    }
    ok := true;
  }

  lemma DecodesOctet(d: seq<byte>, e: seq<byte>, w: nat, channels: nat, i: nat, row: nat, v: byte)
    requires w > 0 && channels > 0 && Decoded(d, e, w, channels, i) && i < |d|
    requires i % w > 0 && row == i - i % w
    requires v == (d[i] + Predict(d[row], LeftOf(d, w, channels, i), Above(d, w, i),
                                  AboveLeft(d, w, channels, i))) % 256
    ensures Decoded(d[i := v], e, w, channels, i + 1)
  {
    hide Predict, LeftOf, Above, AboveLeft, FilteredAt;
    Undoes(d, e, w, channels, i);
    DecodedOneMore(d, e, w, channels, i, v);
  }

  lemma StrideAtLeastOne(width: nat, channels: nat)
    requires width > 0 && channels > 0
    ensures width * channels >= 1
  {}

  lemma RowIsLater(y: nat, w: nat)
    ensures y * w == 0 || y * w >= w
  {
    if y > 0 { assert y * w == w + (y - 1) * w; }
  }

  lemma RowBegins(d: seq<byte>, e: seq<byte>, w: nat, channels: nat, row: nat)
    requires w > 0 && channels > 0 && Decoded(d, e, w, channels, row) && row < |d| && row % w == 0
    ensures Decoded(d, e, w, channels, row + 1)
  {}

  lemma AllDecoded(d: seq<byte>, e: seq<byte>, w: nat, channels: nat)
    requires w > 0 && channels > 0 && Decoded(d, e, w, channels, |d|)
    ensures Filtered(d, w, channels) == e
  {}

  /** Decoding what an encoder wrote gives back exactly its pixels, for every image
      size, channel count and choice of filter types. */
  method Recovers(raw: seq<byte>, data: array<byte>, width: nat, height: nat, channels: nat) returns (ok: bool)
    requires width > 0 && channels > 0 && |raw| == height * (width * channels + 1)
    requires TypesOk(raw, width * channels + 1, height)
    requires data[..] == Filtered(raw, width * channels + 1, channels)
    modifies data
    ensures ok && data[..] == raw
  {
    var w := width * channels + 1;
    TypesKept(raw, w, height, channels);
    ok := Unfilter(data, width, height, channels);
    FilteredInjective(data[..], raw, w, channels, |raw|);
    assert data[..] == data[..][..|raw|] && raw == raw[..|raw|];
  }

  /** Filter octets pass through filtering unchanged. */
  lemma TypesKept(d: seq<byte>, w: nat, height: nat, channels: nat)
    requires w > 0 && channels > 0 && |d| == height * w
    ensures TypesOk(Filtered(d, w, channels), w, height) <==> TypesOk(d, w, height)
  {
    forall y: nat | y < height
      ensures RowType(Filtered(d, w, channels), w, height, y) == RowType(d, w, height, y)
    {
      RowStart(w, height, y);
      ModAt(y, w, 0);
    }
  }
}
