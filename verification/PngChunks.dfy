/**
  * The chunk structure of a PNG file (RFC 2083 section 3), read in two passes:
  * one that checks and counts, one that gathers the compressed data.
  */
module PngChunks {
  import opened Common

  const SIGNATURE: seq<byte> := [0x89, 0x50, 0x4E, 0x47, 0x0D, 0x0A, 0x1A, 0x0A]
  const IHDR: seq<byte> := [0x49, 0x48, 0x44, 0x52]
  const PLTE: seq<byte> := [0x50, 0x4C, 0x54, 0x45]
  const TRNS: seq<byte> := [0x74, 0x52, 0x4E, 0x53]
  const IDAT: seq<byte> := [0x49, 0x44, 0x41, 0x54]
  const IEND: seq<byte> := [0x49, 0x45, 0x4E, 0x44]
  const MAX_IDAT: nat := 32 * 1024
  const MAX_DIMENSION: nat := 64

  function Be32(s: seq<byte>, at: nat): nat
    requires at + 4 <= |s|
  {
    var a: int, b: int, c: int, d: int := s[at], s[at + 1], s[at + 2], s[at + 3];
    a * 0x100_0000 + b * 0x1_0000 + c * 0x100 + d
  }

  /** A whole chunk stands at `at`: length, type, body, checksum. */
  predicate ChunkAt(png: seq<byte>, at: nat) {
    at + 12 <= |png| && at + 12 + Be32(png, at) <= |png|
  }

  function TypeAt(png: seq<byte>, at: nat): seq<byte>
    requires ChunkAt(png, at)
  {
    png[at + 4..at + 8]
  }

  function BodyAt(png: seq<byte>, at: nat): seq<byte>
    requires ChunkAt(png, at)
  {
    png[at + 8..at + 8 + Be32(png, at)]
  }

  function NextChunk(png: seq<byte>, at: nat): (n: nat)
    requires ChunkAt(png, at)
    ensures at < n <= |png|
  {
    at + 12 + Be32(png, at)
  }

  /** The image data of the chunks from `at` to IEND, if the file gets there. */
  function ImageData(png: seq<byte>, at: nat): Option<seq<byte>>
    decreases |png| - at
  {
    if at > |png| || !ChunkAt(png, at) then None
    else if TypeAt(png, at) == IEND then Some([])
    else match ImageData(png, NextChunk(png, at))
         case None => None
         case Some(rest) => Some((if TypeAt(png, at) == IDAT then BodyAt(png, at) else []) + rest)
  }

  datatype Header = Header(width: nat, height: nat, colorType: byte, channels: nat,
                           paletteCount: nat, palette: seq<byte>, paletteAlpha: seq<byte>)

  /** Samples a pixel of each supported colour type has; 0 for the others. */
  function Channels(colorType: byte): nat {
    if colorType == 0 then 1 else if colorType == 4 then 2 else if colorType == 2 then 3
    else if colorType == 3 then 1 else if colorType == 6 then 4 else 0
  }

  datatype Failure = InvalidArg | InvalidSize | InvalidResponse | NotSupported

  /** What a first pass that succeeds has read, in terms of the file. */
  ghost predicate Described(png: seq<byte>, h: Header) {
    && ChunkAt(png, 8) && TypeAt(png, 8) == IHDR && Be32(png, 8) == 13
    && h.width == Be32(png, 16) && h.height == Be32(png, 20) && png[24] == 8 && h.colorType == png[25]
    && png[26] == 0 && png[27] == 0 && png[28] == 0
    && 1 <= h.width <= MAX_DIMENSION && 1 <= h.height <= MAX_DIMENSION
    && h.channels == Channels(h.colorType) > 0
    && |h.palette| == 768 && |h.paletteAlpha| == 256 && h.paletteCount <= 256
    && (h.colorType == 3 ==> h.paletteCount > 0)
  }

  function Overwrite(s: seq<byte>, data: seq<byte>): (r: seq<byte>)
    requires |data| <= |s|
    ensures |r| == |s|
  {
    data + s[|data|..]
  }

  function Blank(): Header { Header(0, 0, 0, 0, 0, seq(768, _ => 0), seq(256, _ => 0xFF)) }

  /** The image data met so far, and what is still ahead. */
  ghost predicate Gathering(png: seq<byte>, at: nat, total: nat) {
    && 8 <= at <= |png|
    && (ImageData(png, 8).Some? <==> ImageData(png, at).Some?)
    && (ImageData(png, 8).Some? ==> |ImageData(png, 8).value| == total + |ImageData(png, at).value|)
  }

  lemma GatherOn(png: seq<byte>, at: nat, total: nat)
    requires Gathering(png, at, total) && ChunkAt(png, at) && TypeAt(png, at) != IEND
    ensures Gathering(png, NextChunk(png, at),
                      total + if TypeAt(png, at) == IDAT then Be32(png, at) else 0)
  {
    assert |BodyAt(png, at)| == Be32(png, at);
  }

  lemma GatherEnds(png: seq<byte>, at: nat, total: nat)
    requires Gathering(png, at, total) && ChunkAt(png, at) && TypeAt(png, at) == IEND
    ensures ImageData(png, 8).Some? && |ImageData(png, 8).value| == total
  {}

  /** The file starts with a header chunk of a kind that is supported. */
  predicate HeaderOk(png: seq<byte>) {
    && ChunkAt(png, 8) && TypeAt(png, 8) == IHDR && Be32(png, 8) == 13
    && png[24] == 8 && png[26] == 0 && png[27] == 0 && png[28] == 0 && Channels(png[25]) > 0
    && 1 <= Be32(png, 16) <= MAX_DIMENSION && 1 <= Be32(png, 20) <= MAX_DIMENSION
  }

  function HeaderOf(png: seq<byte>): Header
    requires HeaderOk(png)
  {
    Blank().(width := Be32(png, 16), height := Be32(png, 20), colorType := png[25], channels := Channels(png[25]))
  }

  /** A chunk that may follow the header: one that is known and well sized, or may be skipped. */
  predicate MayFollow(png: seq<byte>, at: nat)
    requires ChunkAt(png, at)
  {
    var kind, length := TypeAt(png, at), Be32(png, at);
    if kind == PLTE then length % 3 == 0 && length <= 768
    else kind in {TRNS, IDAT, IEND} || (kind != IHDR && (png[at + 4] / 0x20) % 2 == 1)
  }

  predicate Sized(h: Header) { |h.palette| == 768 && |h.paletteAlpha| == 256 && h.paletteCount <= 256 }

  /** The header with the colours or the transparency of one more chunk. */
  function Coloured(png: seq<byte>, at: nat, h: Header): (r: Header)
    requires ChunkAt(png, at) && MayFollow(png, at) && Sized(h)
    ensures Sized(r) && r == h.(palette := r.palette, paletteAlpha := r.paletteAlpha, paletteCount := r.paletteCount)
  {
    var length := Be32(png, at);
    if TypeAt(png, at) == PLTE then
      h.(paletteCount := length / 3, palette := Overwrite(h.palette, BodyAt(png, at)))
    else if TypeAt(png, at) == TRNS && h.colorType == 3 && length <= 256 then
      h.(paletteAlpha := Overwrite(h.paletteAlpha, BodyAt(png, at)))
    else h
  }

  /** The header after all chunks from `at` to IEND, if each of them may follow. */
  function Rest(png: seq<byte>, at: nat, h: Header): (r: Option<Header>)
    requires Sized(h)
    ensures r.Some? ==>
              && Sized(r.value)
              && r.value == h.(palette := r.value.palette, paletteAlpha := r.value.paletteAlpha,
                               paletteCount := r.value.paletteCount)
    decreases |png| - at
  {
    if at > |png| || !ChunkAt(png, at) || !MayFollow(png, at) then None
    else if TypeAt(png, at) == IEND then Some(h)
    else Rest(png, NextChunk(png, at), Coloured(png, at, h))
  }

  /** What the file says, if it is one that can be decoded. */
  function Parsed(png: seq<byte>): Option<Header> {
    if !HeaderOk(png) then None
    else match Rest(png, NextChunk(png, 8), HeaderOf(png))
         case None => None
         case Some(h) =>
           var data := ImageData(png, 8);
           if data == None || data.value == [] || |data.value| > MAX_IDAT || (h.colorType == 3 && h.paletteCount == 0)
           then None else Some(h)
  }

  lemma ParsedIsDescribed(png: seq<byte>)
    requires Parsed(png).Some?
    ensures Described(png, Parsed(png).value) && ImageData(png, 8).Some?
  {}

  method ReadHeader(png: seq<byte>, at: nat) returns (h: Header, ok: bool)
    requires ChunkAt(png, at) && Be32(png, at) == 13
    ensures h == Blank().(width := Be32(png, at + 8), height := Be32(png, at + 12), colorType := png[at + 17],
                        channels := Channels(png[at + 17]))
    ensures ok <==> png[at + 16] == 8 && png[at + 18] == 0 && png[at + 19] == 0 && png[at + 20] == 0 &&
                    h.channels > 0 && 1 <= h.width <= MAX_DIMENSION && 1 <= h.height <= MAX_DIMENSION
  {
    var colorType := png[at + 17];
    h := Blank().(width := Be32(png, at + 8), height := Be32(png, at + 12), colorType := colorType,
                channels := Channels(colorType));
    var supported := png[at + 16] == 8 && png[at + 18] == 0 && png[at + 19] == 0 && png[at + 20] == 0;
    ok := !(!supported || h.channels == 0 || h.width == 0 || h.height == 0 ||
            h.width > MAX_DIMENSION || h.height > MAX_DIMENSION);
  }

  /** What is wrong with one chunk: `first` if no header has come yet, `total` octets of
      image data before it. */
  function ChunkFault(png: seq<byte>, at: nat, first: bool, total: nat): Option<Failure> {
    if !ChunkAt(png, at) then Some(InvalidSize)
    else if TypeAt(png, at) == IHDR then
      if !first || Be32(png, at) != 13 then Some(InvalidResponse)
      else if !HeaderOk(png) then Some(NotSupported) else None
    else if first then Some(InvalidResponse)
    else if TypeAt(png, at) == IDAT then
      if total + Be32(png, at) > MAX_IDAT then Some(InvalidSize) else None
    else if MayFollow(png, at) then None
    else if TypeAt(png, at) == PLTE then Some(InvalidResponse) else Some(NotSupported)
  }

  /** The fault of the first chunk from `at` on that has one, up to IEND. */
  function FirstFault(png: seq<byte>, at: nat, first: bool, total: nat): Option<Failure>
    decreases |png| - at
  {
    var fault := ChunkFault(png, at, first, total);
    if fault.Some? then fault
    else if TypeAt(png, at) == IEND then None
    else FirstFault(png, NextChunk(png, at), false, total + if TypeAt(png, at) == IDAT then Be32(png, at) else 0)
  }

  /** Why a file cannot be decoded: the first chunk at fault, or else something missing. */
  function Fault(png: seq<byte>): Option<Failure> {
    var fault := FirstFault(png, 8, true, 0);
    if fault.Some? then fault else if Parsed(png) == None then Some(InvalidResponse) else None
  }

  lemma FaultStep(png: seq<byte>, at: nat, first: bool, total: nat)
    ensures ChunkFault(png, at, first, total).Some? ==>
              FirstFault(png, at, first, total) == ChunkFault(png, at, first, total)
    ensures ChunkFault(png, at, first, total) == None ==>
              && ChunkAt(png, at)
              && (first ==> TypeAt(png, at) == IHDR)
              && FirstFault(png, at, first, total) ==
                   if TypeAt(png, at) == IEND then None
                   else FirstFault(png, NextChunk(png, at), false,
                                   total + if TypeAt(png, at) == IDAT then Be32(png, at) else 0)
  {}

  /** One chunk after the header: the header as it changes, or a failure. */
  method ReadChunk(png: seq<byte>, at: nat, h: Header, total: nat)
    returns (h': Header, total': nat, ended: bool, failure: Option<Failure>)
    requires ChunkAt(png, at) && TypeAt(png, at) != IHDR && Sized(h)
    ensures total' == total + (if TypeAt(png, at) == IDAT then Be32(png, at) else 0)
    ensures failure == None <==> MayFollow(png, at) && (TypeAt(png, at) == IDAT ==> total' <= MAX_IDAT)
    ensures failure == ChunkFault(png, at, false, total)
    ensures failure == None ==> h' == Coloured(png, at, h) && (ended <==> TypeAt(png, at) == IEND)
  {
    hide Be32;
    var length := Be32(png, at);
    var kind := png[at + 4..at + 8];
    h', total', ended, failure := h, total, false, None;
    if kind == PLTE {
      if length % 3 != 0 || length > 768 {
        failure := Some(InvalidResponse);
        return;
      }
      h' := h'.(paletteCount := length / 3, palette := Overwrite(h.palette, BodyAt(png, at)));
    } else if kind == TRNS {
      if h.colorType == 3 && length <= 256 {
        h' := h'.(paletteAlpha := Overwrite(h.paletteAlpha, BodyAt(png, at)));
      }
    } else if kind == IDAT {
      total' := total' + length;
      if total' > MAX_IDAT {
        failure := Some(InvalidSize);
      }
    } else if kind == IEND {
      ended := true;
    } else if (png[at + 4] / 0x20) % 2 == 0 {
      failure := Some(NotSupported);
    }
  }

  /** How far the first pass has come: what remains decides what the file says. */
  ghost predicate Reading(png: seq<byte>, at: nat, h: Header, total: nat) {
    && HeaderOk(png) && Sized(h) && Gathering(png, at, total) && total <= MAX_IDAT
    && Rest(png, NextChunk(png, 8), HeaderOf(png)) == Rest(png, at, h)
  }

  lemma ReadingStarts(png: seq<byte>)
    requires HeaderOk(png)
    ensures Reading(png, NextChunk(png, 8), HeaderOf(png), 0)
  {
    hide Be32;
    GatherOn(png, 8, 0);
  }

  lemma ReadingOn(png: seq<byte>, at: nat, h: Header, total: nat)
    requires Reading(png, at, h, total) && ChunkAt(png, at) && MayFollow(png, at) && TypeAt(png, at) != IEND
    requires var more := total + if TypeAt(png, at) == IDAT then Be32(png, at) else 0; more <= MAX_IDAT
    ensures Reading(png, NextChunk(png, at), Coloured(png, at, h),
                    total + if TypeAt(png, at) == IDAT then Be32(png, at) else 0)
  {
    hide Be32, HeaderOk, MayFollow, Coloured, HeaderOf, ImageData;
    GatherOn(png, at, total);
  }

  /** Nothing that stops the first pass lets the file be decoded. */
  lemma ReadingStops(png: seq<byte>, at: nat, h: Header, total: nat)
    requires Reading(png, at, h, total)
    requires ChunkAt(png, at) && MayFollow(png, at) ==> TypeAt(png, at) == IDAT && total + Be32(png, at) > MAX_IDAT
    ensures Parsed(png) == None
  {
    hide Be32, HeaderOk, Coloured, HeaderOf;
    if ChunkAt(png, at) && MayFollow(png, at) { GatherOn(png, at, total); }
  }

  lemma ReadingEnds(png: seq<byte>, at: nat, h: Header, total: nat)
    requires Reading(png, at, h, total) && ChunkAt(png, at) && TypeAt(png, at) == IEND
    ensures ImageData(png, 8).Some? && |ImageData(png, 8).value| == total
    ensures Parsed(png) == if total == 0 || (h.colorType == 3 && h.paletteCount == 0) then None else Some(h)
  {
    hide Be32, HeaderOk, Coloured, HeaderOf;
    GatherEnds(png, at, total);
  }

  /** Checks the chunks up to IEND and counts their image data. */
  method FirstPass(png: seq<byte>) returns (h: Header, idatTotal: nat, failure: Option<Failure>)
    requires |png| >= 8
    ensures failure == None <==> Parsed(png).Some?
    ensures failure == Fault(png)
    ensures failure == None ==>
              h == Parsed(png).value && ImageData(png, 8).Some? && idatTotal == |ImageData(png, 8).value|
  {
    hide ImageData, Gathering, Reading, Rest, Parsed, MayFollow, Coloured, Be32, FirstFault;
    h, idatTotal, failure := Blank(), 0, None;
    var haveHeader, haveEnd := false, false;
    var offset := 8;
    while !haveEnd
      invariant haveHeader || (offset == 8 && h == Blank() && idatTotal == 0)
      invariant 8 <= offset <= |png| && failure == None
      invariant haveEnd ==> haveHeader
      invariant !haveEnd ==> FirstFault(png, 8, true, 0) == FirstFault(png, offset, !haveHeader, idatTotal)
      invariant haveEnd ==> FirstFault(png, 8, true, 0) == None
      invariant haveHeader && !haveEnd ==> Reading(png, offset, h, idatTotal)
      invariant haveEnd ==> ImageData(png, 8).Some? && |ImageData(png, 8).value| == idatTotal
      invariant haveEnd ==>
        Parsed(png) == if idatTotal == 0 || (h.colorType == 3 && h.paletteCount == 0) then None else Some(h)
      decreases !haveEnd, |png| - offset
    {
      FaultStep(png, offset, !haveHeader, idatTotal);
      if |png| - offset < 12 || Be32(png, offset) > |png| - offset - 12 {
        failure := Some(InvalidSize);
        Refused(png, haveHeader, offset, h, idatTotal);
        return;
      }
      var length := Be32(png, offset);
      if png[offset + 4..offset + 8] == IHDR {
        if haveHeader || length != 13 {
          failure := Some(InvalidResponse);
          OneHeader(png, offset);
          Refused(png, haveHeader, offset, h, idatTotal);
          return;
        }
        var ok;
        h, ok := ReadHeader(png, offset);
        if !ok {
          failure := Some(NotSupported);
          NoHeader(png);
          return;
        }
        haveHeader := true;
        ReadingStarts(png);
      } else if !haveHeader {
        failure := Some(InvalidResponse);
        NoHeader(png);
        return;
      } else {
        ghost var before, total := h, idatTotal;
        ReadingSized(png, offset, h, idatTotal);
        h, idatTotal, haveEnd, failure := ReadChunk(png, offset, h, idatTotal);
        if failure.Some? {
          ReadingStops(png, offset, before, total);
          return;
        }
        if haveEnd {
          EndChanges(png, offset, before);
          ReadingEnds(png, offset, h, idatTotal);
        } else {
          ReadingOn(png, offset, before, total);
        }
      }
      offset := offset + 12 + length;
    }
    if idatTotal == 0 || (h.colorType == 3 && h.paletteCount == 0) {
      failure := Some(InvalidResponse);
    }
  }

  lemma ReadingSized(png: seq<byte>, at: nat, h: Header, total: nat)
    requires Reading(png, at, h, total)
    ensures Sized(h) && total <= MAX_IDAT
  {}

  lemma EndChanges(png: seq<byte>, at: nat, h: Header)
    requires ChunkAt(png, at) && TypeAt(png, at) == IEND && MayFollow(png, at) && Sized(h)
    ensures Coloured(png, at, h) == h
  {}

  lemma OneHeader(png: seq<byte>, at: nat)
    requires ChunkAt(png, at) && TypeAt(png, at) == IHDR
    ensures !MayFollow(png, at)
  {}

  lemma NoHeader(png: seq<byte>)
    requires !HeaderOk(png)
    ensures Parsed(png) == None
  {}

  lemma Refused(png: seq<byte>, haveHeader: bool, at: nat, h: Header, total: nat)
    requires haveHeader ==> Reading(png, at, h, total) && !(ChunkAt(png, at) && MayFollow(png, at))
    requires !haveHeader ==> !HeaderOk(png)
    ensures Parsed(png) == None
  {
    if haveHeader { ReadingStops(png, at, h, total); } else { NoHeader(png); }
  }

  /** Gathers the image data into one buffer, sized by the first pass. */
  method SecondPass(png: seq<byte>, idat: array<byte>) returns (used: nat)
    requires |png| >= 8 && ImageData(png, 8).Some? && idat.Length == |ImageData(png, 8).value|
    modifies idat
    ensures used == idat.Length && idat[..] == ImageData(png, 8).value
  {
    hide ImageData, Be32;
    used := 0;
    var offset := 8;
    ghost var all := ImageData(png, 8).value;
    while offset + 12 <= |png|
      invariant 8 <= offset <= |png| && used <= |all| && ImageData(png, offset).Some?
      invariant all == idat[..used] + ImageData(png, offset).value
      decreases |png| - offset
    {
      ImageDataStep(png, offset);
      var length := Be32(png, offset);
      if png[offset + 4..offset + 8] == IDAT {
        ghost var rest := ImageData(png, NextChunk(png, offset)).value;
        assert all == idat[..used] + BodyAt(png, offset) + rest;
        CopyBody(png, offset, idat, used);
        used := used + length;
        assert all == idat[..used] + rest;
      } else if png[offset + 4..offset + 8] == IEND {
        break;
      }
      offset := offset + 12 + length;
    }
    ImageDataStep(png, offset);
  }

  lemma ImageDataStep(png: seq<byte>, at: nat)
    requires ImageData(png, at).Some?
    ensures at + 12 <= |png| && ChunkAt(png, at)
    ensures TypeAt(png, at) == IEND ==> ImageData(png, at) == Some([])
    ensures TypeAt(png, at) != IEND ==>
              && ImageData(png, NextChunk(png, at)).Some?
              && ImageData(png, at).value
                 == (if TypeAt(png, at) == IDAT then BodyAt(png, at) else []) + ImageData(png, NextChunk(png, at)).value
  {}

  method CopyBody(png: seq<byte>, at: nat, idat: array<byte>, used: nat)
    requires ChunkAt(png, at) && used + Be32(png, at) <= idat.Length
    modifies idat
    ensures idat[..used + Be32(png, at)] == old(idat[..used]) + BodyAt(png, at)
  {
    ghost var before := idat[..used];
    var length := Be32(png, at);
    var body := BodyAt(png, at);
    hide Be32;
    forall i | 0 <= i < length {
      idat[used + i] := body[i];
    }
    assert idat[..used] == before;
    assert idat[used..used + length] == body;
    assert idat[..used + length] == idat[..used] + idat[used..used + length];
  }

  // ----- the colours, chunk by chunk

  datatype Chunk = Chunk(kind: seq<byte>, body: seq<byte>)

  /** The chunks from `at` to IEND. */
  function Chunks(png: seq<byte>, at: nat): seq<Chunk>
    decreases |png| - at
  {
    if at > |png| || !ChunkAt(png, at) then []
    else
      var chunk := Chunk(TypeAt(png, at), png[at + 8..at + 8 + Be32(png, at)]);
      if chunk.kind == IEND then [chunk] else [chunk] + Chunks(png, NextChunk(png, at))
  }

  /** The body of the last chunk of a kind that is not too long, if there is one. */
  function LastBody(chunks: seq<Chunk>, kind: seq<byte>, limit: nat): Option<seq<byte>> {
    if chunks == [] then None
    else
      var later := LastBody(chunks[1..], kind, limit);
      if later == None && chunks[0].kind == kind && |chunks[0].body| <= limit then Some(chunks[0].body) else later
  }

  /** What the colours and their opacity are after these chunks. */
  predicate ColoursFrom(chunks: seq<Chunk>, h: Header, r: Header) {
    && (match LastBody(chunks, PLTE, 768)
        case None => r.palette == h.palette && r.paletteCount == h.paletteCount
        case Some(body) => 3 * r.paletteCount == |body| <= |r.palette| && r.palette[..|body|] == body)
    && (match if h.colorType == 3 then LastBody(chunks, TRNS, 256) else None
        case None => r.paletteAlpha == h.paletteAlpha
        case Some(body) => |body| <= |r.paletteAlpha| && r.paletteAlpha[..|body|] == body)
  }

  /** The last palette chunk gives the colours and their number, and the last transparency
      chunk their opacity, in a picture with a palette. */
  lemma {:induction false} ColoursAre(png: seq<byte>, at: nat, h: Header)
    requires Sized(h) && Rest(png, at, h).Some?
    ensures ColoursFrom(Chunks(png, at), h, Rest(png, at, h).value)
    decreases |png| - at
  {
    hide Be32, LastBody, Coloured;
    var first := Chunk(TypeAt(png, at), BodyAt(png, at));
    if first.kind == IEND {
      EndHasNone(first);
      assert Chunks(png, at) == [first];
    } else {
      var next, h1 := NextChunk(png, at), Coloured(png, at, h);
      ColoursAre(png, next, h1);
      OneChunkColours(png, at, h);
      assert Chunks(png, at) == [first] + Chunks(png, next);
      LaterColours(first, Chunks(png, next), h, h1, Rest(png, next, h1).value);
    }
  }

  lemma EndHasNone(end: Chunk)
    requires end.kind == IEND
    ensures LastBody([end], PLTE, 768) == None && LastBody([end], TRNS, 256) == None
  {
    assert [end][1..] == [];
  }

  lemma OneChunkColours(png: seq<byte>, at: nat, h: Header)
    requires ChunkAt(png, at) && MayFollow(png, at) && Sized(h)
    ensures ColoursFrom([Chunk(TypeAt(png, at), BodyAt(png, at))], h, Coloured(png, at, h))
    ensures Coloured(png, at, h).colorType == h.colorType
    ensures TypeAt(png, at) == PLTE ==> |BodyAt(png, at)| <= 768
  {
    hide Be32;
    var chunks := [Chunk(TypeAt(png, at), BodyAt(png, at))];
    assert chunks[1..] == [];
    assert LastBody([], PLTE, 768) == None && LastBody([], TRNS, 256) == None;
  }

  lemma LaterColours(first: Chunk, rest: seq<Chunk>, h: Header, h1: Header, r: Header)
    requires ColoursFrom([first], h, h1) && ColoursFrom(rest, h1, r) && h1.colorType == h.colorType
    ensures ColoursFrom([first] + rest, h, r)
  {
    LaterBody(first, rest, PLTE, 768);
    LaterBody(first, rest, TRNS, 256);
    hide LastBody;
  }

  lemma LaterBody(first: Chunk, rest: seq<Chunk>, kind: seq<byte>, limit: nat)
    ensures LastBody([first] + rest, kind, limit) ==
            if LastBody(rest, kind, limit).Some? then LastBody(rest, kind, limit) else LastBody([first], kind, limit)
  {
    assert ([first] + rest)[1..] == rest && [first][1..] == [];
  }

  /** Colours and opacity of a file that can be decoded: those of its last such chunks, or
      none, and all opaque. */
  lemma ParsedColours(png: seq<byte>)
    requires Parsed(png).Some?
    ensures var chunks, h := Chunks(png, 8), Parsed(png).value;
            && (match LastBody(chunks, PLTE, 768)
                case None => h.paletteCount == 0
                case Some(body) => 3 * h.paletteCount == |body| <= 768 && h.palette[..|body|] == body)
            && (match if h.colorType == 3 then LastBody(chunks, TRNS, 256) else None
                case None => |h.paletteAlpha| == 256 && forall i :: 0 <= i < 256 ==> h.paletteAlpha[i] == 0xFF
                case Some(body) => |body| <= 256 == |h.paletteAlpha| && h.paletteAlpha[..|body|] == body)
  {
    hide Be32;
    var next := NextChunk(png, 8);
    ColoursAre(png, next, HeaderOf(png));
    var first, rest := Chunk(TypeAt(png, 8), BodyAt(png, 8)), Chunks(png, next);
    assert Chunks(png, 8) == [first] + rest && ([first] + rest)[1..] == rest;
    hide Rest, Chunks;
  }

  lemma Be32Is(png: seq<byte>, at: nat)
    requires at + 4 <= |png|
    ensures Be32(png, at) == 0x100_0000 * png[at] as int + 0x1_0000 * png[at + 1] as int
                             + 0x100 * png[at + 2] as int + png[at + 3] as int
  {}

  /** A chunk as it is written: length, kind, body, checksum. */
  function Written(c: Chunk, checksum: seq<byte>): (r: seq<byte>)
    requires |c.kind| == 4 && |c.body| < 0x1_0000_0000 && |checksum| == 4
    ensures |r| == 12 + |c.body|
  {
    Big(|c.body|) + c.kind + c.body + checksum
  }

  function Big(n: nat): (r: seq<byte>)
    requires n < 0x1_0000_0000
    ensures |r| == 4 && Be32(r, 0) == n
  {
    var high, low := n / 0x1_0000, n % 0x1_0000;
    [high / 0x100, high % 0x100, low / 0x100, low % 0x100]
  }

  /** A chunk is read back as it was written, whatever its checksum, and so is what follows it. */
  lemma WrittenIsRead(before: seq<byte>, c: Chunk, checksum: seq<byte>, after: seq<byte>)
    requires |c.kind| == 4 && |c.body| < 0x1_0000_0000 && |checksum| == 4
    ensures var png := before + Written(c, checksum) + after;
            Chunks(png, |before|) ==
            [c] + if c.kind == [0x49, 0x45, 0x4E, 0x44] then []
                  else Chunks(png, |before + Written(c, checksum)|)
  {
    var w := Written(c, checksum);
    var png, at := before + w + after, |before|;
    assert png[at..at + |w|] == w;
    ReadAsWritten(png, at, c, checksum);
    assert |before + w| == NextChunk(png, at);
    hide Written, ChunkAt, TypeAt, Be32, NextChunk;
  }

  lemma ReadAsWritten(png: seq<byte>, at: nat, c: Chunk, checksum: seq<byte>)
    requires |c.kind| == 4 && |c.body| < 0x1_0000_0000 && |checksum| == 4
    requires var w := Written(c, checksum); at + |w| <= |png| && png[at..at + |w|] == w
    ensures ChunkAt(png, at) && TypeAt(png, at) == c.kind && NextChunk(png, at) == at + |Written(c, checksum)|
    ensures png[at + 8..at + 8 + Be32(png, at)] == c.body
  {
    var w := Written(c, checksum);
    WrittenParts(c, checksum);
    assert forall i :: 0 <= i < |w| ==> w[i] == png[at + i];
    assert Be32(png, at) == Be32(w, 0);
    hide Be32, Written;
    assert png[at + 4..at + 8] == w[4..8];
    assert png[at + 8..at + 8 + |c.body|] == w[8..8 + |c.body|];
  }

  lemma WrittenParts(c: Chunk, checksum: seq<byte>)
    requires |c.kind| == 4 && |c.body| < 0x1_0000_0000 && |checksum| == 4
    ensures var w := Written(c, checksum);
            Be32(w, 0) == |c.body| && w[4..8] == c.kind && w[8..8 + |c.body|] == c.body
  {
    var length := Big(|c.body|);
    assert forall i :: 0 <= i < 4 ==> Written(c, checksum)[i] == length[i];
    assert Be32(Written(c, checksum), 0) == Be32(length, 0);
    hide Big, Be32;
  }

  // ----- which files can be decoded

  /** The header of a picture that is supported: 8 bits a sample, a known colour type, not
      interlaced, and 1 to 64 pixels each way. */
  predicate Supported(body: seq<byte>) {
    && |body| == 13
    && 1 <= Be32(body, 0) <= 64 && 1 <= Be32(body, 4) <= 64
    && body[8] == 8 && body[9] in {0, 2, 3, 4, 6} && body[10..] == [0, 0, 0]
  }

  /** A chunk that may follow the header: whole colours and at most 256 of them,
      transparency, image data, the end, or one that a decoder may ignore (section 3.3). */
  predicate Allowed(c: Chunk) {
    && |c.kind| == 4
    && if c.kind == [0x50, 0x4C, 0x54, 0x45] then |c.body| % 3 == 0 && |c.body| <= 768
       else || c.kind == [0x74, 0x52, 0x4E, 0x53] || c.kind == [0x49, 0x44, 0x41, 0x54]
            || c.kind == [0x49, 0x45, 0x4E, 0x44] || (c.kind[0] / 32) % 2 == 1
  }

  function ImageLength(chunks: seq<Chunk>): nat {
    if chunks == [] then 0
    else (if chunks[0].kind == IDAT then |chunks[0].body| else 0) + ImageLength(chunks[1..])
  }

  predicate Ended(chunks: seq<Chunk>) { chunks != [] && Last(chunks).kind == IEND }

  lemma {:induction false} DataIsImage(png: seq<byte>, at: nat)
    ensures ImageData(png, at).Some? <==> Ended(Chunks(png, at))
    ensures ImageData(png, at).Some? ==> |ImageData(png, at).value| == ImageLength(Chunks(png, at))
    decreases |png| - at
  {
    if at <= |png| && ChunkAt(png, at) {
      var first := Chunk(TypeAt(png, at), BodyAt(png, at));
      assert |first.body| == Be32(png, at);
      hide Be32;
      if first.kind == IEND {
        assert Chunks(png, at) == [first] && [first][1..] == [];
      } else {
        DataIsImage(png, NextChunk(png, at));
        var rest := Chunks(png, NextChunk(png, at));
        assert Chunks(png, at) == [first] + rest && ([first] + rest)[1..] == rest;
      }
    }
  }

  lemma AllowedMayFollow(png: seq<byte>, at: nat)
    requires ChunkAt(png, at)
    ensures Allowed(Chunk(TypeAt(png, at), BodyAt(png, at))) <==> MayFollow(png, at)
    ensures TypeAt(png, at) == IEND ==> MayFollow(png, at)
  {
    assert |BodyAt(png, at)| == Be32(png, at);
    hide Be32;
  }

  lemma {:induction false} RestExactly(png: seq<byte>, at: nat, h: Header)
    requires Sized(h)
    ensures var chunks := Chunks(png, at);
            Rest(png, at, h).Some? <==> Ended(chunks) && forall i :: 0 <= i < |chunks| ==> Allowed(chunks[i])
    decreases |png| - at
  {
    if at <= |png| && ChunkAt(png, at) {
      AllowedMayFollow(png, at);
      var first, next := Chunk(TypeAt(png, at), BodyAt(png, at)), NextChunk(png, at);
      hide Be32, Allowed, Coloured, MayFollow, ChunkAt, TypeAt, NextChunk;
      if first.kind == IEND {
        assert Chunks(png, at) == [first];
      } else {
        if MayFollow(png, at) { RestExactly(png, next, Coloured(png, at, h)); }
        AllBoth(first, Chunks(png, next));
      }
    }
  }

  lemma AllBoth(first: Chunk, rest: seq<Chunk>)
    requires first.kind != IEND
    ensures var chunks := [first] + rest;
            && (Ended(chunks) <==> Ended(rest))
            && ((forall i :: 0 <= i < |chunks| ==> Allowed(chunks[i])) <==>
                  Allowed(first) && forall i :: 0 <= i < |rest| ==> Allowed(rest[i]))
  {
    hide Allowed;
    var chunks := [first] + rest;
    assert chunks[0] == first;
    assert forall i :: 0 <= i < |rest| ==> chunks[i + 1] == rest[i];
  }

  /** Exactly these files pass: a supported header comes first, every further chunk up to
      the end is allowed, there are 1 to 32768 octets of image data, and a picture with
      a palette has one. */
  lemma ParsedExactly(png: seq<byte>)
    ensures var chunks := Chunks(png, 8);
            Parsed(png).Some? <==>
              && Ended(chunks)
              && chunks[0].kind == [0x49, 0x48, 0x44, 0x52] && Supported(chunks[0].body)
              && (forall i :: 1 <= i < |chunks| ==> Allowed(chunks[i]))
              && 1 <= ImageLength(chunks) <= 32768
              && (chunks[0].body[9] == 3 ==> LastBody(chunks, PLTE, 768).GetOr([]) != [])
  {
    DataIsImage(png, 8);
    if 8 <= |png| && ChunkAt(png, 8) && TypeAt(png, 8) == IHDR {
      HeaderIs(png);
      if HeaderOk(png) { FollowsHeader(png); }
    }
    hide Be32, NextChunk, Rest, ImageLength, Supported, Allowed, LastBody;
  }

  lemma FollowsHeader(png: seq<byte>)
    requires HeaderOk(png)
    ensures var chunks, rest := Chunks(png, 8), Rest(png, NextChunk(png, 8), HeaderOf(png));
            && (Ended(chunks) ==>
                  (rest.Some? <==> forall i :: 1 <= i < |chunks| ==> Allowed(chunks[i])))
            && (rest.Some? ==> Ended(chunks))
            && (rest.Some? ==>
                  (rest.value.paletteCount == 0 <==> LastBody(chunks, PLTE, 768).GetOr([]) == []))
  {
    var first, next := Chunk(TypeAt(png, 8), BodyAt(png, 8)), NextChunk(png, 8);
    var rest := Chunks(png, next);
    assert Chunks(png, 8) == [first] + rest;
    RestExactly(png, next, HeaderOf(png));
    if Rest(png, next, HeaderOf(png)).Some? { ColoursAre(png, next, HeaderOf(png)); }
    hide *;
    AfterFirst(first, rest);
  }

  lemma AfterFirst(first: Chunk, rest: seq<Chunk>)
    requires first.kind == IHDR
    ensures var chunks := [first] + rest;
            && (Ended(chunks) <==> Ended(rest))
            && LastBody(chunks, PLTE, 768) == LastBody(rest, PLTE, 768)
            && ((forall i :: 1 <= i < |chunks| ==> Allowed(chunks[i])) <==>
                  forall i :: 0 <= i < |rest| ==> Allowed(rest[i]))
  {
    hide Allowed;
    var chunks := [first] + rest;
    assert chunks[1..] == rest;
    assert forall i :: 0 <= i < |rest| ==> chunks[i + 1] == rest[i];
  }

  lemma HeaderIs(png: seq<byte>)
    requires ChunkAt(png, 8) && TypeAt(png, 8) == IHDR
    ensures HeaderOk(png) <==> Supported(BodyAt(png, 8))
    ensures HeaderOk(png) ==> BodyAt(png, 8)[9] == HeaderOf(png).colorType
  {
    var body := BodyAt(png, 8);
    if Be32(png, 8) == 13 {
      assert Be32(body, 0) == Be32(png, 16) && Be32(body, 4) == Be32(png, 20);
      assert body[10..] == [png[26], png[27], png[28]];
    }
  }

  /** What each fault says: the file ends inside a chunk, or has too much image data; or a
      whole header, or a chunk that may not be ignored, is of an unsupported kind; or else
      the chunks are out of order, or the colours badly sized. */
  lemma FaultMeans(png: seq<byte>, at: nat, first: bool, total: nat)
    requires first ==> at == 8
    ensures var fault := ChunkFault(png, at, first, total);
            if !ChunkAt(png, at) then fault == Some(InvalidSize)
            else
              var c := Chunk(TypeAt(png, at), BodyAt(png, at));
              && (fault == Some(InvalidSize) <==>
                    !first && c.kind == [0x49, 0x44, 0x41, 0x54] && total + |c.body| > 32768)
              && (fault == Some(NotSupported) <==>
                    if first then c.kind == [0x49, 0x48, 0x44, 0x52] && |c.body| == 13 && !Supported(c.body)
                    else !Allowed(c) && c.kind !in {[0x49, 0x48, 0x44, 0x52], [0x50, 0x4C, 0x54, 0x45]})
              && (fault == Some(InvalidResponse) <==>
                    if first then c.kind != [0x49, 0x48, 0x44, 0x52] || |c.body| != 13
                    else !Allowed(c) && c.kind in {[0x49, 0x48, 0x44, 0x52], [0x50, 0x4C, 0x54, 0x45]})
              && fault != Some(InvalidArg)
  {
    if ChunkAt(png, at) {
      AllowedMayFollow(png, at);
      assert |BodyAt(png, at)| == Be32(png, at);
      if first && TypeAt(png, at) == IHDR { HeaderIs(png); }
      hide Be32, HeaderOk, Supported, MayFollow, Allowed;
      KnownAllowed(Chunk(TypeAt(png, at), BodyAt(png, at)));
    }
  }

  lemma KnownAllowed(c: Chunk)
    ensures c.kind == IDAT ==> Allowed(c)
    ensures c.kind == IHDR ==> !Allowed(c)
  {}
}
