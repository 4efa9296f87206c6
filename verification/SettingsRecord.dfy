/**
  * The stored settings record.  The layout is given as consecutive blocks, one
  * per schema that introduced them; the encoder writes, and the decoder reads,
  * at fixed offsets.
  */
module SettingsRecord {
  import opened Common
  import opened Settings

  const MAGIC: u32 := 0x4b525441
  const HEADER_BYTES: nat := 20
  const CRC_AT: nat := 16

  /** esp_crc32_le over a whole record: any deterministic checksum. */
  type Checksum = seq<byte> -> u32

  function SchemaBytes(schema: nat): nat
    requires 1 <= schema <= 5
  {
    if schema == 1 then 80 else if schema == 2 then 96 else if schema == 3 then 136
    else if schema == 4 then 138 else 139
  }

  function Flag(b: bool): byte { if b then 1 else 0 }

  function Zeros(n: nat): (z: seq<byte>)
    ensures |z| == n
  {
    seq(n, i => 0)
  }

  function Padded(s: seq<byte>, width: nat): (p: seq<byte>)
    requires |s| <= width
    ensures |p| == width
  {
    s + Zeros(width - |s|)
  }

  /** The strings fit their fields and hold no terminator. */
  predicate Storable(s: Settings) {
    && |s.hostname| <= HOSTNAME_MAX && |s.focusFlight| <= FOCUS_MAX && |s.timezone| <= TZ_MAX
    && 0 !in s.hostname && 0 !in s.focusFlight && 0 !in s.timezone
  }

  // ----- layout

  function Header(schema: u16, length: u16, generation: u64, crc: u32): (h: seq<byte>)
    ensures |h| == HEADER_BYTES
  {
    Le32(MAGIC) + Le16(schema) + Le16(length) + Le64(generation) + Le32(crc)
  }

  function BaseHead(s: Settings): (b: seq<byte>)
    ensures |b| == 15
  {
    [Flag(s.locationConfigured)] + Le32(ToU32(s.latitudeE7)) + Le32(ToU32(s.longitudeE7)) +
    Le16(s.radiusNm) + Le16(s.pollIntervalS) + Le16(s.maxPositionAgeS)
  }

  function Base(s: Settings): (b: seq<byte>)
    requires Storable(s)
    ensures |b| == 50
  {
    BaseHead(s) +
    [Flag(s.includeGround), s.distanceUnit, s.brightnessPercent, s.loggingMode] +
    Le16(s.logHeartbeatS) + Le16(s.retentionDays) + Le16(s.retentionMib) +
    [|s.hostname|] + Padded(s.hostname, 24)
  }

  function Focus(s: Settings): (b: seq<byte>)
    requires Storable(s)
    ensures |b| == 10
  {
    [|s.focusFlight|] + Padded(s.focusFlight, 9)
  }

  function Night(s: Settings): (b: seq<byte>)
    requires Storable(s)
    ensures |b| == 56
  {
    [Flag(s.nightEnabled)] + Le16(s.nightStartMin) + Le16(s.nightEndMin) +
    [s.nightBrightnessPercent, Flag(s.nightLedOff), |s.timezone|] + Padded(s.timezone, 48)
  }

  /** The blocks a schema has; `reserved` fills a record out to its length. */
  function Fields(schema: nat, s: Settings, reserved: seq<byte>): (b: seq<byte>)
    requires 1 <= schema <= 5 && Storable(s) && |reserved| == ReservedBytes(schema)
    ensures |b| == SchemaBytes(schema) - HEADER_BYTES
  {
    Base(s) +
    (if schema >= 2 then Focus(s) else []) +
    (if schema >= 3 then Night(s) else []) +
    (if schema >= 4 then Le16(s.sightingWindowMin) else []) +
    (if schema >= 5 then [s.temperatureUnit] else []) +
    reserved
  }

  function ReservedBytes(schema: nat): nat { if schema == 1 then 10 else if schema == 2 then 16 else 0 }

  /** A record laid out under a schema, its checksum taken with the checksum field zero. */
  function Record(crc32: Checksum, schema: nat, s: Settings, reserved: seq<byte>): (w: seq<byte>)
    requires 1 <= schema <= 5 && Storable(s) && |reserved| == ReservedBytes(schema)
    ensures |w| == SchemaBytes(schema)
  {
    var fields := Fields(schema, s, reserved);
    var crc := crc32(Header(schema, SchemaBytes(schema), s.generation, 0) + fields);
    Header(schema, SchemaBytes(schema), s.generation, crc) + fields
  }

  /** The fields that a schema does not have, at the factory values. */
  function Upgraded(schema: nat, s: Settings): Settings {
    var s4 := if schema < 5 then s.(temperatureUnit := DEFAULTS.temperatureUnit) else s;
    var s3 := if schema < 4 then s4.(sightingWindowMin := DEFAULTS.sightingWindowMin) else s4;
    var s2 := if schema < 3 then s3.(nightEnabled := DEFAULTS.nightEnabled, nightStartMin := DEFAULTS.nightStartMin,
                                     nightEndMin := DEFAULTS.nightEndMin,
                                     nightBrightnessPercent := DEFAULTS.nightBrightnessPercent,
                                     nightLedOff := DEFAULTS.nightLedOff, timezone := DEFAULTS.timezone) else s3;
    if schema < 2 then s2.(focusFlight := DEFAULTS.focusFlight) else s2
  }

  // ----- decoding

  /** What C sees in a buffer: the octets before the first terminator. */
  function CString(s: seq<byte>): seq<byte> {
    if s == [] || s[0] == 0 then [] else [s[0]] + CString(s[1..])
  }

  function Text(w: seq<byte>, lengthAt: nat, at: nat): seq<byte>
    requires lengthAt < |w| && at + w[lengthAt] <= |w|
  {
    CString(w[at..at + w[lengthAt]])
  }

  /** The record with its checksum field zeroed. */
  function Checked(w: seq<byte>): seq<byte>
    requires HEADER_BYTES <= |w|
  {
    w[..CRC_AT] + Le32(0) + w[HEADER_BYTES..]
  }

  predicate HeaderOk(crc32: Checksum, w: seq<byte>) {
    && 80 <= |w| <= 139
    && Get32(w, 0) == MAGIC
    && var schema := Get16(w, 4);
    && 1 <= schema <= 5 && |w| == SchemaBytes(schema) && Get16(w, 6) == |w|
    && crc32(Checked(w)) == Get32(w, CRC_AT)
  }

  /** Lengths and flags that must be in range before the fields are read. */
  predicate BytesOk(w: seq<byte>, schema: nat)
    requires 1 <= schema <= 5 && |w| == SchemaBytes(schema)
  {
    && 1 <= w[45] <= HOSTNAME_MAX && w[20] <= 1 && w[35] <= 1
    && (schema >= 2 ==> w[70] <= FOCUS_MAX)
    && (schema >= 3 ==> w[87] <= TZ_MAX && w[80] <= 1 && w[86] <= 1)
  }

  function ReadFields(w: seq<byte>, schema: nat): Settings
    requires 1 <= schema <= 5 && |w| == SchemaBytes(schema) && BytesOk(w, schema)
  {
    Settings(
      Get64(w, 8), w[20] == 1, ToI32(Get32(w, 21)), ToI32(Get32(w, 25)),
      Get16(w, 29), Get16(w, 31), Get16(w, 33), w[35] == 1,
      w[36], if schema >= 5 then w[138] else 0, w[37], w[38],
      Get16(w, 39), Get16(w, 41), Get16(w, 43), Text(w, 45, 46),
      if schema >= 2 then Text(w, 70, 71) else [],
      schema >= 3 && w[80] == 1,
      if schema >= 3 then Get16(w, 81) else 23 * 60,
      if schema >= 3 then Get16(w, 83) else 7 * 60,
      if schema >= 3 then w[85] else 5,
      if schema >= 3 then w[86] == 1 else true,
      if schema >= 3 then Text(w, 87, 88) else [],
      if schema >= 4 then Get16(w, 136) else 30)
  }

  function Decode(crc32: Checksum, w: seq<byte>): (r: Option<Settings>)
    ensures r.Some? ==> Validate(r.value)
  {
    if HeaderOk(crc32, w) && BytesOk(w, Get16(w, 4)) && Validate(ReadFields(w, Get16(w, 4)))
    then Some(ReadFields(w, Get16(w, 4)))
    else None
  }

  // ----- reading back what was laid out

  lemma Inside(w: seq<byte>, lo: nat, block: seq<byte>, i: nat, n: nat)
    requires lo + |block| <= |w| && w[lo..lo + |block|] == block && i + n <= |block|
    ensures w[lo + i..lo + i + n] == block[i..i + n]
    ensures n > 0 ==> w[lo + i] == block[i]
  {
    var whole := w[lo..lo + |block|];
    forall k | 0 <= k < |block| ensures w[lo + k] == block[k] { assert whole[k] == w[lo + k]; }
  }

  lemma {:induction false} CStringPadded(s: seq<byte>)
    requires 0 !in s
    ensures CString(s) == s
  {
    if s != [] {
      assert s == [s[0]] + s[1..];
      CStringPadded(s[1..]);
    }
  }

  lemma TextRead(w: seq<byte>, lengthAt: nat, s: seq<byte>, width: nat)
    requires 0 !in s && |s| <= width && |s| < 256 && lengthAt + 1 + width <= |w|
    requires w[lengthAt] == |s| && w[lengthAt + 1..lengthAt + 1 + width] == Padded(s, width)
    ensures Text(w, lengthAt, lengthAt + 1) == s
  {
    assert Padded(s, width)[..|s|] == s;
    var field := w[lengthAt + 1..lengthAt + 1 + width];
    var text := w[lengthAt + 1..lengthAt + 1 + |s|];
    assert text == field[..|s|];
    assert text == s;
    CStringPadded(s);
  }

  lemma BaseNumbers(s: Settings)
    requires Storable(s)
    ensures var b := Base(s);
            && b[0] == Flag(s.locationConfigured)
            && b[1..5] == Le32(ToU32(s.latitudeE7)) && b[5..9] == Le32(ToU32(s.longitudeE7))
            && b[9..11] == Le16(s.radiusNm) && b[11..13] == Le16(s.pollIntervalS)
            && b[13..15] == Le16(s.maxPositionAgeS)
  {
    hide Little;
  }

  lemma BaseRest(s: Settings)
    requires Storable(s)
    ensures var b := Base(s);
            && b[15] == Flag(s.includeGround) && b[16] == s.distanceUnit && b[17] == s.brightnessPercent
            && b[18] == s.loggingMode
            && b[19..21] == Le16(s.logHeartbeatS) && b[21..23] == Le16(s.retentionDays)
            && b[23..25] == Le16(s.retentionMib)
            && b[25] == |s.hostname| && b[26..50] == Padded(s.hostname, 24)
  {
    hide Little, Padded, ToU32;
  }

  lemma NightParts(s: Settings)
    requires Storable(s)
    ensures var b := Night(s);
            && b[0] == Flag(s.nightEnabled)
            && b[1..3] == Le16(s.nightStartMin) && b[3..5] == Le16(s.nightEndMin)
            && b[5] == s.nightBrightnessPercent && b[6] == Flag(s.nightLedOff)
            && b[7] == |s.timezone| && b[8..56] == Padded(s.timezone, 48)
  {
    hide Little, Padded;
  }

  lemma HeaderParts(schema: u16, length: u16, generation: u64, crc: u32)
    ensures var h := Header(schema, length, generation, crc);
            && h[..4] == Le32(MAGIC) && h[4..6] == Le16(schema) && h[6..8] == Le16(length)
            && h[8..16] == Le64(generation) && h[16..20] == Le32(crc)
            && h[..16] + Le32(0) == Header(schema, length, generation, 0)
  {
    hide Little;
  }

  lemma BaseRead(w: seq<byte>, s: Settings)
    requires Storable(s) && |w| >= 70 && w[20..70] == Base(s)
    ensures w[20] == Flag(s.locationConfigured)
    ensures ToI32(Get32(w, 21)) == s.latitudeE7 && ToI32(Get32(w, 25)) == s.longitudeE7
    ensures Get16(w, 29) == s.radiusNm && Get16(w, 31) == s.pollIntervalS && Get16(w, 33) == s.maxPositionAgeS
  {
    hide Base, Little, Number;
    BaseNumbers(s);
    var b := Base(s);
    Inside(w, 20, b, 0, 1);
    Inside(w, 20, b, 1, 4);
    Inside(w, 20, b, 5, 4);
    Inside(w, 20, b, 9, 2);
    Inside(w, 20, b, 11, 2);
    Inside(w, 20, b, 13, 2);
    GetLittle(w, 21);
    GetLittle(w, 25);
    GetLittle(w, 29);
    GetLittle(w, 31);
    GetLittle(w, 33);
  }

  lemma BaseReadFlags(w: seq<byte>, s: Settings)
    requires Storable(s) && |w| >= 70 && w[20..70] == Base(s)
    ensures w[35] == Flag(s.includeGround) && w[36] == s.distanceUnit && w[37] == s.brightnessPercent
    ensures w[38] == s.loggingMode && w[45] == |s.hostname| && w[46..70] == Padded(s.hostname, 24)
  {
    BaseRest(s);
    var b := Base(s);
    Inside(w, 20, b, 15, 1);
    Inside(w, 20, b, 16, 1);
    Inside(w, 20, b, 17, 1);
    Inside(w, 20, b, 18, 1);
    Inside(w, 20, b, 25, 1);
    Inside(w, 20, b, 26, 24);
    hide Base, Padded;
  }

  lemma BaseReadRest(w: seq<byte>, s: Settings)
    requires Storable(s) && |w| >= 70 && w[20..70] == Base(s)
    ensures w[35] == Flag(s.includeGround) && w[36] == s.distanceUnit && w[37] == s.brightnessPercent
    ensures w[38] == s.loggingMode && w[45] == |s.hostname|
    ensures Get16(w, 39) == s.logHeartbeatS && Get16(w, 41) == s.retentionDays && Get16(w, 43) == s.retentionMib
    ensures Text(w, 45, 46) == s.hostname
  {
    BaseReadFlags(w, s);
    TextRead(w, 45, s.hostname, 24);
    BaseRest(s);
    var b := Base(s);
    Inside(w, 20, b, 19, 2);
    Inside(w, 20, b, 21, 2);
    Inside(w, 20, b, 23, 2);
    hide Base, Little, Number, Padded, Text;
    GetLittle(w, 39);
    GetLittle(w, 41);
    GetLittle(w, 43);
  }

  lemma FocusRead(w: seq<byte>, s: Settings)
    requires Storable(s) && |w| >= 80 && w[70..80] == Focus(s)
    ensures w[70] == |s.focusFlight| && Text(w, 70, 71) == s.focusFlight
  {
    var b := Focus(s);
    assert b[0] == |s.focusFlight| && b[1..10] == Padded(s.focusFlight, 9);
    Inside(w, 70, b, 0, 1);
    Inside(w, 70, b, 1, 9);
    hide Focus, Padded;
    TextRead(w, 70, s.focusFlight, 9);
  }

  lemma NightRead(w: seq<byte>, s: Settings)
    requires Storable(s) && |w| >= 136 && w[80..136] == Night(s)
    ensures w[80] == Flag(s.nightEnabled) && w[85] == s.nightBrightnessPercent && w[86] == Flag(s.nightLedOff)
    ensures w[87] == |s.timezone| && Text(w, 87, 88) == s.timezone
    ensures Get16(w, 81) == s.nightStartMin && Get16(w, 83) == s.nightEndMin
  {
    NightParts(s);
    var b := Night(s);
    Inside(w, 80, b, 0, 1);
    Inside(w, 80, b, 1, 2);
    Inside(w, 80, b, 3, 2);
    Inside(w, 80, b, 5, 1);
    Inside(w, 80, b, 6, 1);
    Inside(w, 80, b, 7, 1);
    Inside(w, 80, b, 8, 48);
    hide Night, Little, Number, Padded;
    GetLittle(w, 81);
    GetLittle(w, 83);
    TextRead(w, 87, s.timezone, 48);
  }

  /** Where the blocks of a record lie. */
  ghost predicate Laid(w: seq<byte>, schema: nat, s: Settings)
    requires 1 <= schema <= 5 && Storable(s)
  {
    && |w| == SchemaBytes(schema)
    && w[20..70] == Base(s)
    && (schema >= 2 ==> w[70..80] == Focus(s))
    && (schema >= 3 ==> w[80..136] == Night(s))
    && (schema >= 4 ==> w[136..138] == Le16(s.sightingWindowMin))
    && (schema >= 5 ==> w[138] == s.temperatureUnit)
    && Get64(w, 8) == s.generation
  }

  lemma ReadsBack(w: seq<byte>, schema: nat, s: Settings)
    requires 1 <= schema <= 5 && Storable(s) && Laid(w, schema, s) && |s.hostname| >= 1
    ensures BytesOk(w, schema) && ReadFields(w, schema) == Upgraded(schema, s)
  {
    hide Base, Focus, Night, Text, Little, Number, Padded, Get16, Get32, Get64, Storable;
    BaseRead(w, s);
    BaseReadRest(w, s);
    assert |s.hostname| <= HOSTNAME_MAX && |s.focusFlight| <= FOCUS_MAX && |s.timezone| <= TZ_MAX by {
      StorableLengths(s);
    }
    if schema >= 2 { FocusRead(w, s); }
    if schema >= 3 { NightRead(w, s); }
    if schema >= 4 { GetLittle(w, 136); }
  }

  lemma StorableLengths(s: Settings)
    requires Storable(s)
    ensures |s.hostname| <= HOSTNAME_MAX && |s.focusFlight| <= FOCUS_MAX && |s.timezone| <= TZ_MAX
  {}

  lemma FieldsLaid(w: seq<byte>, schema: nat, s: Settings, reserved: seq<byte>)
    requires 1 <= schema <= 5 && Storable(s) && |reserved| == ReservedBytes(schema)
    requires |w| == SchemaBytes(schema) && w[20..] == Fields(schema, s, reserved)
    ensures w[20..70] == Base(s)
    ensures schema >= 2 ==> w[70..80] == Focus(s)
    ensures schema >= 3 ==> w[80..136] == Night(s)
    ensures schema >= 4 ==> w[136..138] == Le16(s.sightingWindowMin)
    ensures schema >= 5 ==> w[138] == s.temperatureUnit
  {
    hide Base, Focus, Night, Little;
    var f := w[20..];
    assert |Base(s)| == 50 && |Focus(s)| == 10 && |Night(s)| == 56;
    assert f[..50] == Base(s);
    assert w[20..70] == f[..50];
    if schema >= 2 { assert w[70..80] == f[50..60]; }
    if schema >= 3 { assert w[80..136] == f[60..116]; }
    if schema >= 4 { assert w[136..138] == f[116..118]; }
    if schema >= 5 { assert w[138] == f[118]; }
  }

  lemma RecordLaid(crc32: Checksum, schema: nat, s: Settings, reserved: seq<byte>)
    requires 1 <= schema <= 5 && Storable(s) && |reserved| == ReservedBytes(schema)
    ensures var w := Record(crc32, schema, s, reserved);
            HeaderOk(crc32, w) && Get16(w, 4) == schema && Laid(w, schema, s)
  {
    var w := Record(crc32, schema, s, reserved);
    var fields := Fields(schema, s, reserved);
    var length := SchemaBytes(schema);
    var crc := crc32(Header(schema, length, s.generation, 0) + fields);
    var h := Header(schema, length, s.generation, crc);
    hide Fields, Record, Little, Base, Focus, Night;
    assert w == h + fields;
    HeaderParts(schema, length, s.generation, crc);
    assert w[20..] == fields && w[..20] == h;
    hide Header;
    FieldsLaid(w, schema, s, reserved);
    HeaderRead(w, h, schema, length, s.generation, crc);
    assert Checked(w) == Header(schema, length, s.generation, 0) + fields by {
      assert w[..16] == h[..16];
    }
  }

  lemma HeaderRead(w: seq<byte>, h: seq<byte>, schema: u16, length: u16, generation: u64, crc: u32)
    requires |w| >= 20 && |h| == 20 && w[..20] == h
    requires h[..4] == Le32(MAGIC) && h[4..6] == Le16(schema) && h[6..8] == Le16(length)
    requires h[8..16] == Le64(generation) && h[16..20] == Le32(crc)
    ensures Get32(w, 0) == MAGIC && Get16(w, 4) == schema && Get16(w, 6) == length
    ensures Get64(w, 8) == generation && Get32(w, 16) == crc
  {
    hide Little, Number;
    assert w[0..20] == h;
    Inside(w, 0, h, 0, 4);
    Inside(w, 0, h, 4, 2);
    Inside(w, 0, h, 6, 2);
    Inside(w, 0, h, 8, 8);
    Inside(w, 0, h, 16, 4);
    assert h[0..4] == h[..4];
    GetLittle(w, 0);
    GetLittle(w, 4);
    GetLittle(w, 6);
    GetLittle(w, 8);
    GetLittle(w, 16);
  }

  lemma ValidIsStorable(s: Settings)
    requires Validate(s)
    ensures Storable(s)
  {}

  /** A record of any schema decodes to its settings, the fields it lacks at the
      factory values, whatever its reserved octets hold. */
  lemma DecodesEverySchema(crc32: Checksum, schema: nat, s: Settings, reserved: seq<byte>)
    requires 1 <= schema <= 5 && Storable(s) && |reserved| == ReservedBytes(schema)
    requires Validate(Upgraded(schema, s))
    ensures Decode(crc32, Record(crc32, schema, s, reserved)) == Some(Upgraded(schema, s))
  {
    hide Fields, Record, HeaderOk, BytesOk, ReadFields;
    RecordLaid(crc32, schema, s, reserved);
    assert |s.hostname| >= 1;
    hide Validate, Upgraded, Storable;
    ReadsBack(Record(crc32, schema, s, reserved), schema, s);
  }

  /** The stored form of the current schema reads back unchanged, for all valid settings. */
  lemma RoundTrip(crc32: Checksum, s: Settings)
    requires Validate(s)
    ensures Storable(s) && Decode(crc32, Record(crc32, 5, s, [])) == Some(s)
  {
    ValidIsStorable(s);
    DecodesEverySchema(crc32, 5, s, []);
  }

  /** Two valid settings never share a record. */
  lemma RecordsDiffer(crc32: Checksum, s: Settings, t: Settings)
    requires Validate(s) && Validate(t) && s != t
    ensures Storable(s) && Storable(t) && Record(crc32, 5, s, []) != Record(crc32, 5, t, [])
  {
    RoundTrip(crc32, s);
    RoundTrip(crc32, t);
  }

  // ----- the encoder

  predicate ZeroFrom(w: seq<byte>, at: nat) {
    forall i :: at <= i < |w| ==> w[i] == 0
  }

  /** Writes one field into a buffer that is still zero from there on. */
  method PutField(wire: array<byte>, at: nat, data: seq<byte>, width: nat)
    requires |data| <= width && at + width <= wire.Length && ZeroFrom(wire[..], at)
    modifies wire
    ensures wire[..at + width] == old(wire[..at]) + Padded(data, width)
    ensures ZeroFrom(wire[..], at + width)
  {
    ghost var before := wire[..at];
    forall i | 0 <= i < |data| {
      wire[at + i] := data[i];
    }
    assert wire[..at] == before;
    assert wire[at..at + width] == Padded(data, width);
    assert wire[..at + width] == wire[..at] + wire[at..at + width];
  }

  method EncodeSettings(crc32: Checksum, s: Settings, wire: array<byte>)
    requires Storable(s) && wire.Length == 139
    modifies wire
    ensures wire[..] == Record(crc32, 5, s, [])
  {
    forall i | 0 <= i < wire.Length {
      wire[i] := 0;
    }
    PutHeader(wire, s);
    PutBase(wire, s);
    PutLater(wire, s);
    ghost var fields := AllFields(s);
    hide Base, Focus, Night, Header, Record, Le16, AllFields;
    assert wire[..] == wire[..139];
    WholeRecord(s, wire[..]);
    var crc := crc32(wire[..]);
    PutChecksum(wire, s.generation, crc, fields);
    RecordOf(crc32, s);
  }

  /** The blocks of the current schema. */
  function AllFields(s: Settings): (b: seq<byte>)
    requires Storable(s)
    ensures |b| == 119
  {
    Fields(5, s, [])
  }

  lemma WholeRecord(s: Settings, w: seq<byte>)
    requires Storable(s)
    requires w == Header(5, 139, s.generation, 0) + Base(s) +
                  (Focus(s) + Night(s) + Le16(s.sightingWindowMin) + [s.temperatureUnit])
    ensures w == Header(5, 139, s.generation, 0) + AllFields(s)
  {
    hide Base, Focus, Night, Header, Le16;
  }

  lemma RecordOf(crc32: Checksum, s: Settings)
    requires Storable(s)
    ensures Record(crc32, 5, s, []) ==
            Header(5, 139, s.generation, crc32(Header(5, 139, s.generation, 0) + AllFields(s))) + AllFields(s)
  {
    hide Fields, Header;
  }

  method PutHeader(wire: array<byte>, s: Settings)
    requires wire.Length == 139 && ZeroFrom(wire[..], 0)
    modifies wire
    ensures wire[..20] == Header(5, 139, s.generation, 0) && ZeroFrom(wire[..], 20)
  {
    hide Little;
    PutField(wire, 0, Le32(MAGIC), 4);
    PutField(wire, 4, Le16(5), 2);
    PutField(wire, 6, Le16(139), 2);
    PutField(wire, 8, Le64(s.generation), 8);
    PutField(wire, 16, Le32(0), 4);
  }

  method PutBase(wire: array<byte>, s: Settings)
    requires Storable(s) && wire.Length == 139 && ZeroFrom(wire[..], 20)
    modifies wire
    ensures wire[..70] == old(wire[..20]) + Base(s) && ZeroFrom(wire[..], 70)
  {
    hide Little, Zeros;
    ghost var head := wire[..20];
    PutBaseHead(wire, s);
    PutField(wire, 35, [Flag(s.includeGround)], 1);
    PutField(wire, 36, [s.distanceUnit], 1);
    PutField(wire, 37, [s.brightnessPercent], 1);
    PutField(wire, 38, [s.loggingMode], 1);
    ghost var flags := [Flag(s.includeGround), s.distanceUnit, s.brightnessPercent, s.loggingMode];
    assert wire[..39] == head + (BaseHead(s) + flags);
    PutField(wire, 39, Le16(s.logHeartbeatS), 2);
    PutField(wire, 41, Le16(s.retentionDays), 2);
    PutField(wire, 43, Le16(s.retentionMib), 2);
    PutField(wire, 45, [|s.hostname|], 1);
    PutField(wire, 46, s.hostname, 24);
  }

  method PutBaseHead(wire: array<byte>, s: Settings)
    requires wire.Length == 139 && ZeroFrom(wire[..], 20)
    modifies wire
    ensures wire[..35] == old(wire[..20]) + BaseHead(s) && ZeroFrom(wire[..], 35)
  {
    hide Little, Zeros;
    PutField(wire, 20, [Flag(s.locationConfigured)], 1);
    PutField(wire, 21, Le32(ToU32(s.latitudeE7)), 4);
    PutField(wire, 25, Le32(ToU32(s.longitudeE7)), 4);
    PutField(wire, 29, Le16(s.radiusNm), 2);
    PutField(wire, 31, Le16(s.pollIntervalS), 2);
    PutField(wire, 33, Le16(s.maxPositionAgeS), 2);
  }

  method PutLater(wire: array<byte>, s: Settings)
    requires Storable(s) && wire.Length == 139 && ZeroFrom(wire[..], 70)
    modifies wire
    ensures wire[..139] == old(wire[..70]) + (Focus(s) + Night(s) + Le16(s.sightingWindowMin) + [s.temperatureUnit])
  {
    hide Little, Zeros;
    ghost var head := wire[..70];
    PutField(wire, 70, [|s.focusFlight|], 1);
    PutField(wire, 71, s.focusFlight, 9);
    assert wire[..80] == head + Focus(s);
    PutField(wire, 80, [Flag(s.nightEnabled)], 1);
    PutField(wire, 81, Le16(s.nightStartMin), 2);
    PutField(wire, 83, Le16(s.nightEndMin), 2);
    PutField(wire, 85, [s.nightBrightnessPercent], 1);
    PutField(wire, 86, [Flag(s.nightLedOff)], 1);
    PutField(wire, 87, [|s.timezone|], 1);
    PutField(wire, 88, s.timezone, 48);
    assert wire[..136] == head + Focus(s) + Night(s);
    PutField(wire, 136, Le16(s.sightingWindowMin), 2);
    PutField(wire, 138, [s.temperatureUnit], 1);
  }

  /** Fills in the checksum last. */
  method PutChecksum(wire: array<byte>, generation: u64, crc: u32, ghost fields: seq<byte>)
    requires wire.Length == 139 && |fields| == 119
    requires wire[..] == Header(5, 139, generation, 0) + fields
    modifies wire
    ensures wire[..] == Header(5, 139, generation, crc) + fields
  {
    hide Little;
    ghost var before := wire[..];
    var data := Le32(crc);
    forall i | 0 <= i < 4 {
      wire[CRC_AT + i] := data[i];
    }
    assert wire[..16] == before[..16] && wire[20..] == before[20..] && wire[16..20] == data;
    assert wire[..] == wire[..16] + wire[16..20] + wire[20..];
  }

  method DecodeSettings(crc32: Checksum, wire: seq<byte>) returns (r: Option<Settings>)
    ensures r == Decode(crc32, wire)
  {
    if |wire| < 80 || |wire| > 139 || Get32(wire, 0) != MAGIC {
      return None;
    }
    var schema := Get16(wire, 4);
    if !((schema == 1 && |wire| == 80) || (schema == 2 && |wire| == 96) || (schema == 3 && |wire| == 136) ||
         (schema == 4 && |wire| == 138) || (schema == 5 && |wire| == 139)) || Get16(wire, 6) != |wire| {
      return None;
    }
    if crc32(Checked(wire)) != Get32(wire, CRC_AT) {
      return None;
    }
    if wire[45] == 0 || wire[45] > HOSTNAME_MAX || (schema >= 2 && wire[70] > FOCUS_MAX) {
      return None;
    }
    if schema >= 3 && (wire[87] > TZ_MAX || wire[80] > 1 || wire[86] > 1) {
      return None;
    }
    if wire[20] > 1 || wire[35] > 1 {
      return None;
    }
    var decoded := ReadFields(wire, schema);
    r := if Validate(decoded) then Some(decoded) else None;
  }
}
