/** The stored settings record, octet by octet, and the limits of what is accepted from one. */
module SettingsLayout {
  import opened Common
  import opened Settings
  import opened SettingsRecord

  // ----- numbers, least significant octet first

  predicate Two(w: seq<byte>, at: nat, v: int)
    requires at + 2 <= |w|
  {
    v == w[at] as int + 0x100 * w[at + 1] as int
  }

  predicate Four(w: seq<byte>, at: nat, v: int)
    requires at + 4 <= |w|
  {
    v == w[at] as int + 0x100 * w[at + 1] as int + 0x1_0000 * w[at + 2] as int + 0x100_0000 * w[at + 3] as int
  }

  lemma {:induction false} NumberIs(s: seq<byte>)
    requires s != []
    ensures Number(s) == s[0] as int + 256 * Number(s[1..])
  {}

  lemma GetsAre(w: seq<byte>, at: nat)
    ensures at + 2 <= |w| ==> Two(w, at, Get16(w, at))
    ensures at + 4 <= |w| ==> Four(w, at, Get32(w, at))
  {
    if at + 2 <= |w| {
      var s := w[at..at + 2];
      NumberIs(s);
      NumberIs(s[1..]);
      assert s[1..][1..] == [];
    }
    if at + 4 <= |w| {
      var s := w[at..at + 4];
      NumberIs(s);
      NumberIs(s[1..]);
      NumberIs(s[1..][1..]);
      NumberIs(s[1..][1..][1..]);
      assert s[1..][1..][1..][1..] == [];
    }
  }

  predicate Eight(w: seq<byte>, at: nat, v: int)
    requires at + 8 <= |w|
  {
    v == w[at] as int + 0x100 * w[at + 1] as int + 0x1_0000 * w[at + 2] as int + 0x100_0000 * w[at + 3] as int
         + 0x1_0000_0000 * (w[at + 4] as int + 0x100 * w[at + 5] as int + 0x1_0000 * w[at + 6] as int
                            + 0x100_0000 * w[at + 7] as int)
  }

  lemma Get64Is(w: seq<byte>, at: nat)
    requires at + 8 <= |w|
    ensures Eight(w, at, Get64(w, at))
  {
    var s := w[at..at + 8];
    NumberIs(s);
    NumberIs(s[1..]);
    NumberIs(s[1..][1..]);
    NumberIs(s[1..][1..][1..]);
    var t := w[at + 4..at + 8];
    assert s[1..][1..][1..][1..] == t;
    GetsAre(w, at + 4);
    hide Number;
  }

  // ----- where the fields are

  /** A signed number of 32 bits, negative ones from the top. */
  predicate Signed(w: seq<byte>, at: nat, v: int)
    requires at + 4 <= |w|
  {
    Four(w, at, if v < 0 then v + 0x1_0000_0000 else v)
  }

  predicate Yes(octet: byte, b: bool) { octet == if b then 1 else 0 }

  /** The text and its length, and nothing but zeros after it. */
  predicate Text(w: seq<byte>, at: nat, width: nat, text: seq<byte>) {
    && at + 1 + width <= |w| && |text| <= width
    && w[at] == |text| && w[at + 1..at + 1 + |text|] == text
    && forall i :: at + 1 + |text| <= i < at + 1 + width ==> w[i] == 0
  }

  predicate HoldsBase(w: seq<byte>, s: Settings) {
    && |w| >= 70
    && Yes(w[20], s.locationConfigured) && Signed(w, 21, s.latitudeE7) && Signed(w, 25, s.longitudeE7)
    && Two(w, 29, s.radiusNm) && Two(w, 31, s.pollIntervalS) && Two(w, 33, s.maxPositionAgeS)
    && Yes(w[35], s.includeGround) && w[36] == s.distanceUnit && w[37] == s.brightnessPercent && w[38] == s.loggingMode
    && Two(w, 39, s.logHeartbeatS) && Two(w, 41, s.retentionDays) && Two(w, 43, s.retentionMib)
    && Text(w, 45, 24, s.hostname)
  }

  predicate HoldsNight(w: seq<byte>, s: Settings) {
    && |w| >= 136
    && Yes(w[80], s.nightEnabled) && Two(w, 81, s.nightStartMin) && Two(w, 83, s.nightEndMin)
    && w[85] == s.nightBrightnessPercent && Yes(w[86], s.nightLedOff) && Text(w, 87, 48, s.timezone)
  }

  /** A record of one schema, its checksum taken with the checksum's own octets zero. */
  predicate IsRecord(crc32: Checksum, w: seq<byte>, schema: nat, s: Settings) {
    && 1 <= schema <= 5 && |w| == [80, 96, 136, 138, 139][schema - 1]
    && w[0..4] == [0x41, 0x54, 0x52, 0x4b] && Two(w, 4, schema) && Two(w, 6, |w|) && Eight(w, 8, s.generation)
    && Four(w, 16, crc32(w[..16] + [0, 0, 0, 0] + w[20..]))
    && HoldsBase(w, s)
    && (schema >= 2 ==> Text(w, 70, 9, s.focusFlight))
    && (schema >= 3 ==> HoldsNight(w, s))
    && (schema >= 4 ==> Two(w, 136, s.sightingWindowMin))
    && (schema >= 5 ==> w[138] == s.temperatureUnit)
  }

  lemma PaddedText(w: seq<byte>, at: nat, width: nat, text: seq<byte>)
    requires at + 1 + width <= |w| && |text| <= width
    requires w[at] == |text| && w[at + 1..at + 1 + width] == Padded(text, width)
    ensures Text(w, at, width, text)
  {
    var p := w[at + 1..at + 1 + width];
    assert w[at + 1..at + 1 + |text|] == p[..|text|] == text;
    forall i | at + 1 + |text| <= i < at + 1 + width ensures w[i] == 0 {
      assert w[i] == p[i - at - 1];
    }
  }

  lemma SignedIs(w: seq<byte>, at: nat, v: int)
    requires at + 4 <= |w| && ToI32(Get32(w, at)) == v
    ensures Signed(w, at, v)
  {
    GetsAre(w, at);
    hide Get32;
  }

  lemma BaseIsHeld(w: seq<byte>, s: Settings)
    requires Storable(s) && |w| >= 70 && w[20..70] == Base(s)
    ensures HoldsBase(w, s)
  {
    hide Base, Get16, Get32, Number, Two, Signed, Padded;
    BaseRead(w, s);
    BaseReadFlags(w, s);
    BaseReadRest(w, s);
    SignedIs(w, 21, s.latitudeE7);
    SignedIs(w, 25, s.longitudeE7);
    GetsAre(w, 29);
    GetsAre(w, 31);
    GetsAre(w, 33);
    GetsAre(w, 39);
    GetsAre(w, 41);
    GetsAre(w, 43);
    PaddedText(w, 45, 24, s.hostname);
  }

  lemma FocusIsHeld(w: seq<byte>, s: Settings)
    requires Storable(s) && |w| >= 80 && w[70..80] == Focus(s)
    ensures Text(w, 70, 9, s.focusFlight)
  {
    var b := Focus(s);
    assert b[0] == |s.focusFlight| && b[1..10] == Padded(s.focusFlight, 9);
    Inside(w, 70, b, 0, 1);
    Inside(w, 70, b, 1, 9);
    hide Focus, Padded;
    PaddedText(w, 70, 9, s.focusFlight);
  }

  lemma NightIsHeld(w: seq<byte>, s: Settings)
    requires Storable(s) && |w| >= 136 && w[80..136] == Night(s)
    ensures HoldsNight(w, s)
  {
    NightRead(w, s);
    NightParts(s);
    Inside(w, 80, Night(s), 7, 1);
    Inside(w, 80, Night(s), 8, 48);
    hide Night, Get16, Number, Two, Padded;
    GetsAre(w, 81);
    GetsAre(w, 83);
    PaddedText(w, 87, 48, s.timezone);
  }

  lemma MagicIs(w: seq<byte>)
    requires |w| >= 4
    ensures Get32(w, 0) == MAGIC <==> w[0..4] == [0x41, 0x54, 0x52, 0x4b]
  {
    GetsAre(w, 0);
    hide Get32;
    assert w[0..4] == [w[0], w[1], w[2], w[3]];
    Digits(w[0], w[1], w[2], w[3]);
  }

  lemma Digits(a: int, b: int, c: int, d: int)
    requires 0 <= a < 256 && 0 <= b < 256 && 0 <= c < 256 && 0 <= d < 256
    ensures a + 0x100 * b + 0x1_0000 * c + 0x100_0000 * d == 0x4b525441 <==>
            a == 0x41 && b == 0x54 && c == 0x52 && d == 0x4b
  {}

  /** The header's tests, octet by octet. */
  lemma HeaderIs(crc32: Checksum, w: seq<byte>)
    requires HeaderOk(crc32, w)
    ensures var schema := Get16(w, 4);
            && 1 <= schema <= 5 && |w| == [80, 96, 136, 138, 139][schema - 1]
            && w[0..4] == [0x41, 0x54, 0x52, 0x4b] && Two(w, 4, schema) && Two(w, 6, |w|)
            && Four(w, 16, crc32(w[..16] + [0, 0, 0, 0] + w[20..]))
  {
    MagicIs(w);
    GetsAre(w, 4);
    GetsAre(w, 6);
    GetsAre(w, 16);
    ZeroOctets();
    hide Get16, Get32, Two, Four, Le32;
  }

  lemma ZeroOctets()
    ensures Le32(0) == [0, 0, 0, 0]
  {
    assert Little(1, 0) == [0] && Little(2, 0) == [0, 0] && Little(3, 0) == [0, 0, 0];
  }

  /** What is encoded for valid settings, of any schema, has its fields at these places. */
  lemma RecordIs(crc32: Checksum, schema: nat, s: Settings, reserved: seq<byte>)
    requires 1 <= schema <= 5 && Storable(s) && |reserved| == ReservedBytes(schema)
    ensures IsRecord(crc32, Record(crc32, schema, s, reserved), schema, s)
  {
    var w := Record(crc32, schema, s, reserved);
    RecordLaid(crc32, schema, s, reserved);
    HeaderIs(crc32, w);
    Get64Is(w, 8);
    BaseIsHeld(w, s);
    if schema >= 2 { FocusIsHeld(w, s); }
    if schema >= 3 { NightIsHeld(w, s); }
    if schema >= 4 { WindowIsHeld(w, s); }
    hide Record, HeaderOk, Base, Focus, Night, HoldsBase, HoldsNight, Text, Two, Four, Eight, Get16, Get64;
  }

  lemma WindowIsHeld(w: seq<byte>, s: Settings)
    requires |w| >= 138 && w[136..138] == Le16(s.sightingWindowMin)
    ensures Two(w, 136, s.sightingWindowMin)
  {
    GetLittle(w, 136);
    GetsAre(w, 136);
    hide Get16, Le16;
  }

  // ----- what is accepted

  /** Whatever is decoded came with these header octets, and lies within these limits. */
  predicate WithinLimits(s: Settings) {
    && -900000000 <= s.latitudeE7 <= 900000000 && -1800000000 <= s.longitudeE7 <= 1800000000
    && 1 <= s.radiusNm <= 250 && 2 <= s.pollIntervalS <= 300 && 5 <= s.maxPositionAgeS <= 120
    && s.distanceUnit in {0, 1, 2} && s.temperatureUnit in {0, 1} && s.brightnessPercent <= 50
    && s.loggingMode in {0, 1, 2} && 30 <= s.logHeartbeatS <= 3600
    && 1 <= s.retentionDays <= 365 && 8 <= s.retentionMib <= 4096
    && s.nightStartMin < 1440 && s.nightEndMin < 1440 && s.nightBrightnessPercent <= 50
    && 5 <= s.sightingWindowMin <= 1440
    && 1 <= |s.hostname| <= 24 && s.hostname[0] != '-' as int && Last(s.hostname) != '-' as int
    && (forall i :: 0 <= i < |s.hostname| ==> HostChar(s.hostname[i] as char))
    && |s.focusFlight| <= 8
    && (forall i :: 0 <= i < |s.focusFlight| ==>
          FocusChar(s.focusFlight[i] as char) || (i == 0 && s.focusFlight[i] == '~' as int))
    && |s.timezone| <= 47
    && (forall i :: 0 <= i < |s.timezone| ==> ZoneChar(s.timezone[i] as char))
  }

  predicate HostChar(c: char) { 'a' <= c <= 'z' || '0' <= c <= '9' || c == '-' }

  predicate FocusChar(c: char) { 'A' <= c <= 'Z' || '0' <= c <= '9' || c == '-' }

  predicate ZoneChar(c: char) {
    || 'A' <= c <= 'Z' || 'a' <= c <= 'z' || '0' <= c <= '9'
    || c == '+' || c == '-' || c == ',' || c == '.' || c == '/' || c == ':' || c == '<' || c == '>' || c == '_'
  }

  /** Settings are valid exactly within the limits. */
  lemma ValidMeans(s: Settings)
    ensures Validate(s) <==> WithinLimits(s)
  {
  }

  /** A record that is decoded has the magic, a known schema of its own length and its own
      checksum, so one torn or altered without its checksum is refused; and its settings
      are within the limits. */
  lemma DecodedWas(crc32: Checksum, w: seq<byte>)
    requires Decode(crc32, w).Some?
    ensures var schema, s := Get16(w, 4), Decode(crc32, w).value;
            && 1 <= schema <= 5 && |w| == [80, 96, 136, 138, 139][schema - 1]
            && w[0..4] == [0x41, 0x54, 0x52, 0x4b] && Two(w, 4, schema) && Two(w, 6, |w|)
            && Four(w, 16, crc32(w[..16] + [0, 0, 0, 0] + w[20..]))
            && w[20] <= 1 && w[35] <= 1 && 1 <= w[45] <= 24
            && WithinLimits(s)
  {
    HeaderIs(crc32, w);
    ValidMeans(Decode(crc32, w).value);
    hide Validate, WithinLimits, ReadFields, Two, Four, Get16;
  }

  /** A record of an older schema keeps what it has; the rest starts as in a new device:
      nothing followed, no night from 23:00 to 7:00 at 5% with the LED off, no zone, half
      an hour between sightings, degrees Celsius. */
  lemma OldRecordsGain(crc32: Checksum, schema: nat, s: Settings, reserved: seq<byte>)
    requires 1 <= schema <= 5 && Storable(s) && |reserved| == ReservedBytes(schema) && Validate(Upgraded(schema, s))
    ensures Decode(crc32, Record(crc32, schema, s, reserved)) ==
            Some(s.(focusFlight := if schema < 2 then [] else s.focusFlight,
                    nightEnabled := schema >= 3 && s.nightEnabled,
                    nightStartMin := if schema < 3 then 1380 else s.nightStartMin,
                    nightEndMin := if schema < 3 then 420 else s.nightEndMin,
                    nightBrightnessPercent := if schema < 3 then 5 else s.nightBrightnessPercent,
                    nightLedOff := schema < 3 || s.nightLedOff,
                    timezone := if schema < 3 then [] else s.timezone,
                    sightingWindowMin := if schema < 4 then 30 else s.sightingWindowMin,
                    temperatureUnit := if schema < 5 then 0 else s.temperatureUnit))
  {
    DecodesEverySchema(crc32, schema, s, reserved);
    hide Record, Decode, Validate, Storable;
  }

  /** The factory settings can be stored. */
  lemma DefaultsAreValid()
    ensures Validate(DEFAULTS)
  {}
}
