/** The battery-backed clock: seven BCD registers written from, and read back to, a Unix time. */
module Rtc {
  import opened Common
  import opened Calendar

  const REG_CONTROL: nat := 0
  const REG_SECONDS: nat := 4
  const STOP: byte := 0x20
  const EPOCH_YEAR: int := 2000

  function ToBcd(v: nat): byte
    requires v < 100
  {
    (v / 10) * 16 + v % 10
  }

  function FromBcd(v: byte): nat { ((v as nat) / 16) * 10 + (v as nat) % 16 }

  lemma BcdRoundTrip(v: nat)
    requires v < 100
    ensures FromBcd(ToBcd(v)) == v
    ensures ToBcd(v) < 0xA0 && (v < 80 ==> ToBcd(v) < 0x80)
    ensures (v < 40 ==> ToBcd(v) < 0x40) && (v < 20 ==> ToBcd(v) < 0x20)
  {
    var tens, ones := v / 10, v % 10;
    assert v == 10 * tens + ones && tens < 10;
    assert (tens * 16 + ones) / 16 == tens && (tens * 16 + ones) % 16 == ones;
  }

  datatype Parts = Parts(date: Date, hour: nat, minute: nat, second: nat, weekday: nat)

  /** gmtime for times from the epoch on: the calendar by counting days. */
  function Gmtime(utc: nat): Parts {
    var days, seconds := utc / 86400, utc % 86400;
    Parts(CivilOf(days), seconds / 3600, seconds / 60 % 60, seconds % 60, (4 + days) % 7)
  }

  function UtcFromParts(p: Parts): int
    requires p.date.month >= 1 && p.date.day >= 1
  {
    DaysFromCivil(p.date) * 86400 + p.hour * 3600 + p.minute * 60 + p.second
  }

  lemma GmtimeInverts(utc: nat)
    ensures var p := Gmtime(utc);
            && Valid(p.date) && p.hour < 24 && p.minute < 60 && p.second < 60 && p.weekday < 7
            && UtcFromParts(p) == utc
  {
    hide DaysFromCivil, CivilOf;
    CountOfCivil(utc / 86400);
    ClockOf(utc % 86400);
  }

  lemma ClockOf(seconds: nat)
    requires seconds < 86400
    ensures seconds / 3600 < 24
    ensures seconds == seconds / 3600 * 3600 + seconds / 60 % 60 * 60 + seconds % 60
  {}

  datatype RtcError = InvalidArg | NotFound | InvalidResponse

  /** What the seven registers hold for a time. */
  function Registers(p: Parts): seq<byte>
    requires Valid(p.date) && p.hour < 24 && p.minute < 60 && p.second < 60 && p.weekday < 7
    requires EPOCH_YEAR <= p.date.year <= EPOCH_YEAR + 99
  {
    [ToBcd(p.second), ToBcd(p.minute), ToBcd(p.hour), ToBcd(p.date.day), p.weekday,
     ToBcd(p.date.month), ToBcd(p.date.year - EPOCH_YEAR)]
  }

  /** What seven registers read as, whether or not there is such a time. */
  function Fields(raw: seq<byte>): Parts
    requires |raw| == 7
  {
    Parts(Date(EPOCH_YEAR + FromBcd(raw[6]), FromBcd(raw[5] % 0x20), FromBcd(raw[3] % 0x40)),
          FromBcd(raw[2] % 0x40), FromBcd(raw[1] % 0x80), FromBcd(raw[0] % 0x80), 0)
  }

  predicate InRange(p: Parts) {
    p.second <= 59 && p.minute <= 59 && p.hour <= 23 && 1 <= p.date.day <= 31 && 1 <= p.date.month <= 12
  }

  /** The chip says that its oscillator has stopped since the registers were written. */
  predicate Stopped(raw: seq<byte>)
    requires |raw| == 7
  {
    raw[0] >= 0x80
  }

  /** The time seven registers stand for. */
  function TimeOf(raw: seq<byte>): Result<int, RtcError>
    requires |raw| == 7
  {
    if Stopped(raw) then Err(NotFound)
    else if !InRange(Fields(raw)) || UtcFromParts(Fields(raw)) <= 0 then Err(InvalidResponse)
    else Ok(UtcFromParts(Fields(raw)))
  }

  predicate Representable(utc: int) {
    utc >= 0 && EPOCH_YEAR <= Gmtime(utc).date.year <= EPOCH_YEAR + 99
  }

  /** The representable times are exactly those from 2000-01-01 to the end of 2099. */
  lemma RepresentableSpan(utc: int)
    ensures Representable(utc) <==> 946684800 <= utc < 4102444800
  {
    hide DaysFromCivil, CivilOf;
    if utc >= 0 {
      YearSpan(utc / 86400, 2000, 2099);
      CenturyCounts();
    }
  }

  lemma CenturyCounts()
    ensures DaysFromCivil(Date(2000, 1, 1)) == 10957 && DaysFromCivil(Date(2100, 1, 1)) == 47482
  {}

  /** Every second from 2000 through 2099 survives the registers unchanged. */
  lemma RegistersRoundTrip(utc: nat)
    requires Representable(utc)
    ensures var p := Gmtime(utc);
            && Valid(p.date) && p.hour < 24 && p.minute < 60 && p.second < 60 && p.weekday < 7
            && TimeOf(Registers(p)) == Ok(utc)
  {
    GmtimeInverts(utc);
    var p := Gmtime(utc);
    hide DaysFromCivil, Gmtime, ToBcd, FromBcd;
    BcdRoundTrip(p.second);
    BcdRoundTrip(p.minute);
    BcdRoundTrip(p.hour);
    assert p.date.day <= 31;
    BcdRoundTrip(p.date.day);
    BcdRoundTrip(p.date.month);
    BcdRoundTrip(p.date.year - EPOCH_YEAR);
    RepresentablePositive(utc);
  }

  lemma RepresentablePositive(utc: nat)
    requires Representable(utc)
    ensures utc > 0
  {
    RepresentableSpan(utc);
  }

  lemma DayOfMonth(year: int, month: nat, day: nat)
    requires 1 <= month <= 12 && day >= 1
    ensures DaysFromCivil(Date(year, month, day)) == DaysFromCivil(Date(year, month, 1)) + day - 1
  {}

  lemma AfterTheEpoch(year: int, month: nat, day: nat)
    requires year >= EPOCH_YEAR && 1 <= month <= 12 && day >= 1
    ensures DaysFromCivil(Date(year, month, day)) >= 10957
  {
    CenturyCounts();
    DayOfMonth(year, month, day);
    hide DaysFromCivil;
    var first, epoch := Date(year, month, 1), Date(2000, 1, 1);
    if first != epoch { CountIncreases(epoch, first); }
  }

  lemma SplitSeconds(days: nat, p: Parts)
    requires InRange(p) && p.date.month >= 1 && p.date.day >= 1 && DaysFromCivil(p.date) == days
    ensures var utc := UtcFromParts(p);
            utc >= 0 && utc / 86400 == days && Gmtime(utc).hour == p.hour && Gmtime(utc).minute == p.minute &&
            Gmtime(utc).second == p.second && Gmtime(utc).date == CivilOf(days)
  {
    hide DaysFromCivil, CivilOf;
    var seconds := p.hour * 3600 + p.minute * 60 + p.second;
    assert seconds < 86400 && UtcFromParts(p) == days * 86400 + seconds;
    assert seconds / 3600 == p.hour && seconds / 60 == p.hour * 60 + p.minute;
  }

  /** What a reading means: its clock time is that of the registers, and its date too,
      or, for a day past the end of its month, the date that counting on comes to. */
  lemma ReadingMeans(raw: seq<byte>)
    requires |raw| == 7
    ensures TimeOf(raw) == Err(NotFound) <==> Stopped(raw)
    ensures TimeOf(raw) == Err(InvalidResponse) <==> !Stopped(raw) && !InRange(Fields(raw))
    ensures TimeOf(raw).Ok? ==> TimeOf(raw).value > 0 && Means(TimeOf(raw).value, Fields(raw))
  {
    if !Stopped(raw) && InRange(Fields(raw)) {
      var p := Fields(raw);
      AfterTheEpoch(p.date.year, p.date.month, p.date.day);
      DayOfMonth(p.date.year, p.date.month, p.date.day);
      var days: nat := DaysFromCivil(p.date);
      SplitSeconds(days, p);
      CountOfCivil(days);
      hide DaysFromCivil, CivilOf, Fields, Gmtime, InRange;
      if Valid(p.date) { CountIsInjective(CivilOf(days), p.date); }
    }
  }

  predicate Means(utc: nat, p: Parts)
    requires p.date.month >= 1
  {
    var g := Gmtime(utc);
    && g.hour == p.hour && g.minute == p.minute && g.second == p.second
    && (Valid(p.date) ==> g.date == p.date)
    && DaysFromCivil(g.date) == DaysFromCivil(p.date.(day := 1)) + p.date.day - 1
  }

  /** A day past the end of its month is read as one of the next month. */
  lemma PastTheMonth(d: Date)
    requires 1 <= d.month <= 12 && 1 <= d.day <= 31 && !Valid(d)
    ensures var next := Date(d.year, d.month + 1, d.day - DaysInMonth(d.year, d.month));
            Valid(next) && DaysFromCivil(next) == DaysFromCivil(d.(day := 1)) + d.day - 1
  {
    hide DaysFromCivil;
    var length := DaysInMonth(d.year, d.month);
    ShortMonth(d);
    DayOfMonth(d.year, d.month, length);
    NextCountsOne(Date(d.year, d.month, length));
    DayOfMonth(d.year, d.month + 1, d.day - length);
  }

  /** Only the months before December are short, and by at most three days. */
  lemma ShortMonth(d: Date)
    requires 1 <= d.month <= 12 && 1 <= d.day <= 31 && !Valid(d)
    ensures 28 <= DaysInMonth(d.year, d.month) < d.day && d.month < 12
    ensures Valid(Date(d.year, d.month, DaysInMonth(d.year, d.month)))
    ensures Next(Date(d.year, d.month, DaysInMonth(d.year, d.month))) == Date(d.year, d.month + 1, 1)
    ensures Valid(Date(d.year, d.month + 1, d.day - DaysInMonth(d.year, d.month)))
  {}

  /** The date read is the one that the registers hold exactly when there is such a
      date; otherwise it is in the next month, by as many days as the day is past. */
  lemma DateRead(raw: seq<byte>)
    requires |raw| == 7 && TimeOf(raw).Ok?
    ensures TimeOf(raw).value > 0
    ensures var held, read := Fields(raw).date, Gmtime(TimeOf(raw).value).date;
            && (read == held <==> Valid(held))
            && (!Valid(held) ==>
                  held.month < 12 &&
                  read == Date(held.year, held.month + 1, held.day - DaysInMonth(held.year, held.month)))
  {
    ReadingMeans(raw);
    var held, utc := Fields(raw).date, TimeOf(raw).value;
    GmtimeInverts(utc);
    hide TimeOf, Fields, DaysFromCivil, Gmtime;
    if !Valid(held) {
      PastTheMonth(held);
      CountIsInjective(Gmtime(utc).date,
                       Date(held.year, held.month + 1, held.day - DaysInMonth(held.year, held.month)));
    }
  }

  /** Registers that hold noon on 31 February of 2000 + `year`. */
  function February31(year: nat): seq<byte>
    requires year < 100
  {
    [0x00, 0x00, 0x12, 0x31, 0, 0x02, ToBcd(year)]
  }

  /** It is read as noon on 3 March, and in a leap year on 2 March. */
  lemma February31Reads(year: nat)
    requires year < 100
    ensures TimeOf(February31(year)).Ok? && TimeOf(February31(year)).value > 0
    ensures var read := Gmtime(TimeOf(February31(year)).value);
            read.date == Date(2000 + year, 3, if Leap(2000 + year) then 2 else 3) &&
            read.hour == 12 && read.minute == 0 && read.second == 0
  {
    var raw := February31(year);
    FebruaryFields(year);
    ReadingMeans(raw);
    hide FromBcd, DaysFromCivil, Gmtime, CivilOf, UtcFromParts, February31, Fields;
    DateRead(raw);
  }

  lemma FebruaryFields(year: nat)
    requires year < 100
    ensures !Stopped(February31(year))
    ensures Fields(February31(year)) == Parts(Date(2000 + year, 2, 31), 12, 0, 0, 0)
  {
    hide *;
    BcdRoundTrip(year);
    FebruaryIs(year);
    RawFields(ToBcd(year));
  }

  lemma FebruaryIs(year: nat)
    requires year < 100
    ensures February31(year) == [0x00, 0x00, 0x12, 0x31, 0, 0x02, ToBcd(year)]
  {}

  lemma RawFields(year: byte)
    ensures var raw := [0x00, 0x00, 0x12, 0x31, 0, 0x02, year];
            !Stopped(raw) && Fields(raw) == Parts(Date(2000 + FromBcd(year), 2, 31), 12, 0, 0, 0)
  {
    Constants();
    hide FromBcd;
  }

  lemma Constants()
    ensures FromBcd(0x31) == 31 && FromBcd(0x12) == 12 && FromBcd(0x02) == 2 && FromBcd(0) == 0
  {}

  /** The value of a register that holds two decimal digits. */
  predicate Decimal(octet: byte, v: int) { octet / 16 * 10 + octet % 16 == v && octet / 16 < 10 && octet % 16 < 10 }

  /** The registers of a time: seconds, minutes, hours, day, weekday, month and year. */
  predicate Shows(raw: seq<byte>, utc: nat, d: Date) {
    && |raw| == 7
    && Decimal(raw[0], utc % 60) && Decimal(raw[1], utc / 60 % 60) && Decimal(raw[2], utc / 3600 % 24)
    && Decimal(raw[3], d.day) && raw[4] == (4 + utc / 86400) % 7 && Decimal(raw[5], d.month)
    && Decimal(raw[6], d.year - 2000)
    && Valid(d) && DaysFromCivil(d) == utc / 86400
  }

  lemma DecimalIs(v: nat)
    requires v < 100
    ensures Decimal(ToBcd(v), v)
  {
    BcdRoundTrip(v);
    var tens, ones := v / 10, v % 10;
    assert (tens * 16 + ones) / 16 == tens && (tens * 16 + ones) % 16 == ones;
  }

  /** What is written for a time is that time's own digits. */
  lemma RegistersShow(utc: nat)
    requires Representable(utc)
    ensures var p := Gmtime(utc);
            && Valid(p.date) && p.hour < 24 && p.minute < 60 && p.second < 60 && p.weekday < 7
            && Shows(Registers(p), utc, p.date)
  {
    PartsAre(utc);
    RegistersHold(Gmtime(utc));
    hide DaysFromCivil, Gmtime, Registers, Decimal;
  }

  lemma PartsAre(utc: nat)
    ensures var p := Gmtime(utc);
            && Valid(p.date) && DaysFromCivil(p.date) == utc / 86400
            && p.second == utc % 60 && p.minute == utc / 60 % 60 && p.hour == utc / 3600 % 24
            && p.weekday == (4 + utc / 86400) % 7
  {
    hide DaysFromCivil, CivilOf;
    CountOfCivil(utc / 86400);
    ClockDigits(utc);
  }

  lemma RegistersHold(p: Parts)
    requires Valid(p.date) && p.hour < 24 && p.minute < 60 && p.second < 60 && p.weekday < 7
    requires EPOCH_YEAR <= p.date.year <= EPOCH_YEAR + 99
    ensures var raw := Registers(p);
            && |raw| == 7 && Decimal(raw[0], p.second) && Decimal(raw[1], p.minute) && Decimal(raw[2], p.hour)
            && Decimal(raw[3], p.date.day) && raw[4] == p.weekday && Decimal(raw[5], p.date.month)
            && Decimal(raw[6], p.date.year - 2000)
  {
    hide ToBcd, Decimal;
    DecimalIs(p.second);
    DecimalIs(p.minute);
    DecimalIs(p.hour);
    assert p.date.day <= 31;
    DecimalIs(p.date.day);
    DecimalIs(p.date.month);
    DecimalIs(p.date.year - 2000);
  }

  lemma ClockDigits(utc: nat)
    ensures var s := utc % 86400;
            s / 3600 == utc / 3600 % 24 && s / 60 % 60 == utc / 60 % 60 && s % 60 == utc % 60
  {
    var d, s := utc / 86400, utc % 86400;
    assert utc == d * 86400 + s;
    Hours(d, s);
    Minutes(d, s);
    Seconds(d, s);
  }

  lemma Hours(d: nat, s: nat)
    requires s < 86400
    ensures (d * 86400 + s) / 3600 % 24 == s / 3600
  {
    var h, rest := s / 3600, s % 3600;
    assert d * 86400 + s == 3600 * (d * 24 + h) + rest;
    assert (d * 86400 + s) / 3600 == d * 24 + h;
  }

  lemma Minutes(d: nat, s: nat)
    requires s < 86400
    ensures (d * 86400 + s) / 60 % 60 == s / 60 % 60
  {
    var m, rest := s / 60, s % 60;
    assert d * 86400 + s == 60 * (d * 1440 + m) + rest;
    assert (d * 86400 + s) / 60 == d * 1440 + m;
    WholeHours(d, m);
  }

  lemma WholeHours(d: nat, m: nat)
    ensures (d * 1440 + m) % 60 == m % 60
  {
    var h, rest := m / 60, m % 60;
    assert d * 1440 + m == 60 * (d * 24 + h) + rest;
  }

  lemma Seconds(d: nat, s: nat)
    requires s < 86400
    ensures (d * 86400 + s) % 60 == s % 60
  {
    var m, rest := s / 60, s % 60;
    assert d * 86400 + s == 60 * (d * 1440 + m) + rest;
  }

  /** The chip's register file. */
  class Clock {
    const registers: array<byte>

    constructor ()
      ensures fresh(registers) && registers.Length == 11
    {
      registers := new byte[11](_ => 0);
    }

    method Write(reg: nat, data: seq<byte>)
      requires reg + |data| <= registers.Length
      modifies registers
      ensures registers[reg..reg + |data|] == data
      ensures forall i :: 0 <= i < reg || reg + |data| <= i < registers.Length ==> registers[i] == old(registers[i])
    {
      forall i | 0 <= i < |data| {
        registers[reg + i] := data[i];
      }
    }

    /** Halts the counter, writes the seven registers, and lets it run again. */
    method Set(utc: int) returns (err: Option<RtcError>)
      requires registers.Length == 11
      modifies registers
      ensures err == if Representable(utc) then None else Some(InvalidArg)
      ensures err.Some? ==> registers[..] == old(registers[..])
      ensures err == None ==>
                && TimeOf(registers[REG_SECONDS..REG_SECONDS + 7]) == Ok(utc)
                && Shows(registers[REG_SECONDS..REG_SECONDS + 7], utc, Gmtime(utc).date)
                && registers[REG_CONTROL] == 0 && registers[1..REG_SECONDS] == old(registers[1..REG_SECONDS])
    {
      hide TimeOf, Gmtime, Valid;
      if utc < 0 {
        return Some(InvalidArg);
      }
      var parts := Gmtime(utc);
      var year := parts.date.year;
      if year < EPOCH_YEAR || year > EPOCH_YEAR + 99 {
        return Some(InvalidArg);
      }
      RegistersRoundTrip(utc);
      RegistersShow(utc);
      var raw := Registers(parts);
      hide Registers, Shows;
      Write(REG_CONTROL, [STOP]);
      Write(REG_SECONDS, raw);
      ghost var written := registers[REG_SECONDS..REG_SECONDS + 7];
      Write(REG_CONTROL, [0]);
      assert registers[REG_CONTROL..REG_CONTROL + 1] == [0];
      assert registers[REG_SECONDS..REG_SECONDS + 7] == written;
      err := None;
    }

    /** The time by the registers, or why there is none. */
    method Get() returns (r: Result<int, RtcError>)
      requires registers.Length == 11
      ensures var raw := registers[REG_SECONDS..REG_SECONDS + 7];
              && (r == Err(NotFound) <==> Stopped(raw))
              && (r == Err(InvalidResponse) <==> !Stopped(raw) && !InRange(Fields(raw)))
              && (r.Ok? ==> r.value > 0 && Means(r.value, Fields(raw)))
              && r == TimeOf(raw)
    {
      hide FromBcd, UtcFromParts, Means;
      var raw := registers[REG_SECONDS..REG_SECONDS + 7];
      ReadingMeans(raw);
      r := Reading(raw);
    }
  }

  /** One register after another. */
  method Reading(raw: seq<byte>) returns (r: Result<int, RtcError>)
    requires |raw| == 7
    ensures r == TimeOf(raw)
  {
    hide FromBcd, DaysFromCivil;
    if raw[0] >= 0x80 {
      return Err(NotFound);
    }
    var second := FromBcd(raw[0] % 0x80);
    var minute := FromBcd(raw[1] % 0x80);
    var hour := FromBcd(raw[2] % 0x40);
    var day := FromBcd(raw[3] % 0x40);
    var month := FromBcd(raw[5] % 0x20);
    var year := EPOCH_YEAR + FromBcd(raw[6]);
    if second > 59 || minute > 59 || hour > 23 || day < 1 || day > 31 || month < 1 || month > 12 {
      return Err(InvalidResponse);
    }
    var utc := UtcFromParts(Parts(Date(year, month, day), hour, minute, second, 0));
    r := if utc <= 0 then Err(InvalidResponse) else Ok(utc);
  }

  /** Reading the clock right after setting it gives back the same second. */
  method SetThenGet(clock: Clock, utc: int) returns (r: Result<int, RtcError>)
    requires clock.registers.Length == 11 && 946684800 <= utc < 4102444800
    modifies clock.registers
    ensures r == Ok(utc)
  {
    RepresentableSpan(utc);
    var err := clock.Set(utc);
    r := clock.Get();
  }
}
