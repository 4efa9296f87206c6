/** Decoding a logo: chunks, inflation, filters and resampling put together. */
module PngDecode {
  import opened Common
  import opened PngChunks
  import PngFilter
  import opened PngResample

  /** zlib inflation into a buffer of known size: any deterministic function. */
  type Inflate = (seq<byte>, nat) -> Option<seq<byte>>

  function Row(h: Header): (r: nat)
    ensures r > 0
  {
    h.width * h.channels + 1
  }

  /** The picture `raw` is what the file's image data, inflated, was filtered from. */
  ghost predicate Holds(png: seq<byte>, inflate: Inflate, h: Header, raw: seq<byte>)
    requires h.channels > 0
  {
    && |png| >= 8 && Described(png, h) && ImageData(png, 8).Some? && Image(h, raw)
    && inflate(ImageData(png, 8).value, h.height * Row(h)) == Some(PngFilter.Filtered(raw, Row(h), h.channels))
    && PngFilter.TypesOk(raw, Row(h), h.height)
  }

  /** The filtered picture in the file, when it can be decoded. */
  function Picture(png: seq<byte>, inflate: Inflate): Option<(Header, seq<byte>)> {
    if |png| < 8 || png[..8] != SIGNATURE || Parsed(png) == None || ImageData(png, 8) == None then None
    else
      var h := Parsed(png).value;
      var expected := h.height * Row(h);
      match inflate(ImageData(png, 8).value, expected)
      case None => None
      case Some(data) =>
        if |data| == expected && PngFilter.TypesOk(data, Row(h), h.height) then Some((h, data)) else None
  }

  /** Why there is no picture; inflation and bad filter types are answered alike. */
  function Refusal(png: seq<byte>, inflate: Inflate, outWidth: nat, outHeight: nat): Option<Failure> {
    if outWidth == 0 || outHeight == 0 || |png| < 8 || png[..8] != SIGNATURE then Some(InvalidArg)
    else if Fault(png).Some? then Fault(png)
    else if Picture(png, inflate) == None then Some(InvalidResponse)
    else None
  }

  method DecodeRgb565(png: seq<byte>, inflate: Inflate, outWidth: nat, outHeight: nat, background: nat,
                      out: array<nat>)
    returns (failure: Option<Failure>, ghost h: Header, ghost raw: seq<byte>)
    requires out.Length == outHeight * outWidth
    modifies out
    ensures failure == None <==> outWidth > 0 && outHeight > 0 && Picture(png, inflate).Some?
    ensures failure == Refusal(png, inflate, outWidth, outHeight)
    ensures failure == None ==>
              && h == Parsed(png).value && h.channels > 0 && Holds(png, inflate, h, raw)
              && RowsDone(out[..], h, raw, background, outWidth, outHeight, outHeight)
  {
    hide Described, ImageData, RowsDone, Image, Parsed, Fault;
    h, raw := Blank(), [];
    if outWidth == 0 || outHeight == 0 || |png| < 8 || png[..8] != SIGNATURE {
      return Some(InvalidArg), h, raw;
    }
    var header, idatTotal;
    header, idatTotal, failure := FirstPass(png);
    if failure.Some? {
      return;
    }
    ParsedIsDescribed(png);
    DescribedSizes(png, header);
    h := header;
    var expected := header.height * Row(header);
    var idat := new byte[idatTotal];
    var used := SecondPass(png, idat);
    assert idat[..used] == idat[..];
    var inflated := inflate(idat[..used], expected);
    if inflated == None || |inflated.value| != expected {
      return Some(InvalidResponse), h, raw;
    }
    var data := new byte[expected](i requires 0 <= i < expected => inflated.value[i]);
    assert data[..] == inflated.value;
    var ok := PngFilter.Unfilter(data, header.width, header.height, header.channels);
    if !ok {
      return Some(InvalidResponse), h, raw;
    }
    raw := data[..];
    PngFilter.TypesKept(raw, Row(header), header.height, header.channels);
    assert Image(header, raw) by { DescribedImage(png, header, raw); }
    Resample(header, data[..], background, outWidth, outHeight, out);
    failure := None;
  }

  lemma DescribedSizes(png: seq<byte>, h: Header)
    requires Described(png, h)
    ensures h.width > 0 && h.height > 0 && h.channels > 0
  {}

  lemma DescribedImage(png: seq<byte>, h: Header, raw: seq<byte>)
    requires Described(png, h) && |raw| == h.height * Row(h)
    ensures Image(h, raw)
  {}

  /** The picture is the only one the file can hold. */
  lemma OnePicture(png: seq<byte>, inflate: Inflate, h: Header, raw: seq<byte>, other: seq<byte>)
    requires h.channels > 0 && Holds(png, inflate, h, raw) && Holds(png, inflate, h, other)
    ensures raw == other
  {
    PngFilter.FilteredInjective(raw, other, Row(h), h.channels, |raw|);
    assert raw[..|raw|] == raw && other[..|raw|] == other;
  }
}
