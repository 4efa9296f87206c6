/** Tracker settings: their limits, their defaults, and their stored record. */
module Settings {
  import opened Common

  type u16 = x: int | 0 <= x < 0x1_0000
  type u32 = x: int | 0 <= x < 0x1_0000_0000
  type u64 = x: int | 0 <= x < 0x1_0000_0000_0000_0000
  type i32 = x: int | -0x8000_0000 <= x < 0x8000_0000

  const HOSTNAME_MAX: nat := 24
  const FOCUS_MAX: nat := 8
  const TZ_MAX: nat := 47

  /** Strings are C strings: octets without a terminator. */
  datatype Settings = Settings(
    generation: u64, locationConfigured: bool, latitudeE7: i32, longitudeE7: i32,
    radiusNm: u16, pollIntervalS: u16, maxPositionAgeS: u16, includeGround: bool,
    distanceUnit: byte, temperatureUnit: byte, brightnessPercent: byte, loggingMode: byte,
    logHeartbeatS: u16, retentionDays: u16, retentionMib: u16, hostname: seq<byte>, focusFlight: seq<byte>,
    nightEnabled: bool, nightStartMin: u16, nightEndMin: u16, nightBrightnessPercent: byte, nightLedOff: bool,
    timezone: seq<byte>, sightingWindowMin: u16)

  /** "airtrack" */
  const AIRTRACK: seq<byte> := [97, 105, 114, 116, 114, 97, 99, 107]

  const DEFAULTS := Settings(
    0, false, 0, 0, 25, 5, 15, false, 0, 0, 40, 0, 60, 30, 64, AIRTRACK, [],
    false, 23 * 60, 7 * 60, 5, true, [], 30)

  predicate Upper(b: byte) { 0x41 <= b <= 0x5A }
  predicate Lower(b: byte) { 0x61 <= b <= 0x7A }
  predicate Digit(b: byte) { 0x30 <= b <= 0x39 }
  predicate Dash(b: byte) { b == 0x2D }

  predicate HostnameOk(s: seq<byte>) {
    && 1 <= |s| <= HOSTNAME_MAX && !Dash(s[0]) && !Dash(Last(s))
    && forall i :: 0 <= i < |s| ==> Lower(s[i]) || Digit(s[i]) || Dash(s[i])
  }

  predicate FocusOk(s: seq<byte>) {
    && |s| <= FOCUS_MAX
    && forall i :: 0 <= i < |s| ==> Upper(s[i]) || Digit(s[i]) || Dash(s[i]) || (i == 0 && s[i] == 0x7E)
  }

  /** Letters, digits and + - , . / : < > _ */
  predicate TimezoneOk(s: seq<byte>) {
    && |s| <= TZ_MAX
    && forall i :: 0 <= i < |s| ==>
         Upper(s[i]) || Lower(s[i]) || Digit(s[i]) || 0x2B <= s[i] <= 0x2F || s[i] == 0x3A ||
         s[i] == 0x3C || s[i] == 0x3E || s[i] == 0x5F
  }

  predicate Validate(s: Settings) {
    && -900000000 <= s.latitudeE7 <= 900000000
    && -1800000000 <= s.longitudeE7 <= 1800000000
    && 1 <= s.radiusNm <= 250
    && 2 <= s.pollIntervalS <= 300
    && 5 <= s.maxPositionAgeS <= 120
    && s.distanceUnit <= 2 && s.temperatureUnit <= 1
    && s.brightnessPercent <= 50 && s.loggingMode <= 2
    && 30 <= s.logHeartbeatS <= 3600
    && 1 <= s.retentionDays <= 365
    && 8 <= s.retentionMib <= 4096
    && HostnameOk(s.hostname) && FocusOk(s.focusFlight)
    && s.nightStartMin < 1440 && s.nightEndMin < 1440
    && s.nightBrightnessPercent <= 50
    && TimezoneOk(s.timezone)
    && 5 <= s.sightingWindowMin <= 1440
  }

  // ----- little-endian numbers

  function Little(n: nat, v: nat): (r: seq<byte>)
    ensures |r| == n
  {
    if n == 0 then [] else [v % 256] + Little(n - 1, v / 256)
  }

  function Number(s: seq<byte>): nat {
    if s == [] then 0 else s[0] + 256 * Number(s[1..])
  }

  function Pow256(n: nat): nat {
    if n == 0 then 1 else 256 * Pow256(n - 1)
  }

  lemma {:induction false} NumberLittle(n: nat, v: nat)
    requires v < Pow256(n)
    ensures Number(Little(n, v)) == v
  {
    if n > 0 {
      NumberLittle(n - 1, v / 256);
      assert Little(n, v)[1..] == Little(n - 1, v / 256);
    }
  }

  lemma {:induction false} NumberBounded(s: seq<byte>)
    ensures Number(s) < Pow256(|s|)
  {
    if s != [] { NumberBounded(s[1..]); }
  }

  lemma Powers()
    ensures Pow256(2) == 0x1_0000 && Pow256(4) == 0x1_0000_0000 && Pow256(8) == 0x1_0000_0000_0000_0000
  {
    assert Pow256(1) == 256 && Pow256(3) == 256 * Pow256(2);
    assert Pow256(5) == 256 * Pow256(4) && Pow256(6) == 256 * Pow256(5) && Pow256(7) == 256 * Pow256(6);
  }

  function Le16(v: u16): seq<byte> { Little(2, v) }
  function Le64(v: u64): seq<byte> { Little(8, v) }
  function Le32(v: u32): seq<byte> { Little(4, v) }

  /** Two's complement, as the casts between int32_t and uint32_t. */
  function ToU32(v: i32): u32 { if v < 0 then v + 0x1_0000_0000 else v }
  function ToI32(v: u32): i32 { if v >= 0x8000_0000 then v - 0x1_0000_0000 else v }

  function Get16(w: seq<byte>, at: nat): u16
    requires at + 2 <= |w|
  {
    NumberBounded(w[at..at + 2]);
    Powers();
    Number(w[at..at + 2])
  }

  function Get32(w: seq<byte>, at: nat): u32
    requires at + 4 <= |w|
  {
    NumberBounded(w[at..at + 4]);
    Powers();
    Number(w[at..at + 4])
  }

  function Get64(w: seq<byte>, at: nat): u64
    requires at + 8 <= |w|
  {
    NumberBounded(w[at..at + 8]);
    Powers();
    Number(w[at..at + 8])
  }

  lemma GetLittle(w: seq<byte>, at: nat)
    ensures forall v: u16 :: at + 2 <= |w| && w[at..at + 2] == Le16(v) ==> Get16(w, at) == v
    ensures forall v: u32 :: at + 4 <= |w| && w[at..at + 4] == Le32(v) ==> Get32(w, at) == v
    ensures forall v: u64 :: at + 8 <= |w| && w[at..at + 8] == Le64(v) ==> Get64(w, at) == v
  {
    Powers();
    forall v: u16 | at + 2 <= |w| && w[at..at + 2] == Le16(v) ensures Get16(w, at) == v { NumberLittle(2, v); }
    forall v: u32 | at + 4 <= |w| && w[at..at + 4] == Le32(v) ensures Get32(w, at) == v { NumberLittle(4, v); }
    forall v: u64 | at + 8 <= |w| && w[at..at + 8] == Le64(v) ensures Get64(w, at) == v { NumberLittle(8, v); }
  }
}
