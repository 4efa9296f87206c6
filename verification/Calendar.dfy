/** The Gregorian calendar, and the era-based day count that the clock code uses. */
module Calendar {

  datatype Date = Date(year: int, month: nat, day: nat)

  predicate Leap(year: int) { year % 4 == 0 && (year % 100 != 0 || year % 400 == 0) }

  function DaysInMonth(year: int, month: nat): nat {
    if month == 2 then (if Leap(year) then 29 else 28)
    else if month == 4 || month == 6 || month == 9 || month == 11 then 30
    else 31
  }

  predicate Valid(d: Date) { 1 <= d.month <= 12 && 1 <= d.day <= DaysInMonth(d.year, d.month) }

  /** The day after. */
  function Next(d: Date): Date {
    if d.day < DaysInMonth(d.year, d.month) then d.(day := d.day + 1)
    else if d.month < 12 then Date(d.year, d.month + 1, 1)
    else Date(d.year + 1, 1, 1)
  }

  predicate Before(d: Date, e: Date) {
    || d.year < e.year
    || (d.year == e.year && d.month < e.month)
    || (d.year == e.year && d.month == e.month && d.day < e.day)
  }

  /** Division as in C, towards zero. */
  function TruncDiv(a: int, b: int): int
    requires b > 0
  {
    if a >= 0 then a / b else -((-a) / b)
  }

  /** Days from 1970-01-01, by eras of 400 years that start in March. */
  function DaysFromCivil(d: Date): int
    requires d.month >= 1 && d.day >= 1
  {
    var shiftedMonth := if d.month > 2 then d.month - 3 else d.month + 9;
    var year := if d.month <= 2 then d.year - 1 else d.year;
    var era := TruncDiv(if year >= 0 then year else year - 399, 400);
    var yearOfEra := year - era * 400;
    var dayOfYear := (153 * shiftedMonth + 2) / 5 + d.day - 1;
    var dayOfEra := yearOfEra * 365 + yearOfEra / 4 - yearOfEra / 100 + dayOfYear;
    era * 146097 + dayOfEra - 719468
  }

  const EPOCH := Date(1970, 1, 1)

  lemma EpochIsZero()
    ensures DaysFromCivil(EPOCH) == 0
  {}

  // ----- the count grows by one a day

  /** Days before a March-based year. */
  function YearStart(year: int): int { 365 * year + year / 4 - year / 100 + year / 400 }

  /** The era arithmetic is the plain leap-year count (division rounding down). */
  lemma EraIsYearStart(year: int)
    ensures var era := TruncDiv(if year >= 0 then year else year - 399, 400);
            var yearOfEra := year - era * 400;
            era * 146097 + yearOfEra * 365 + yearOfEra / 4 - yearOfEra / 100 == YearStart(year)
  {
    var era := TruncDiv(if year >= 0 then year else year - 399, 400);
    assert era == year / 400 by {
      if year < 0 { assert (-(year - 399)) / 400 == -(year / 400); }
    }
    var y := year - era * 400;
    assert 0 <= y < 400;
    assert year / 4 == era * 100 + y / 4;
    assert year / 100 == era * 4 + y / 100;
  }

  lemma CountIsYearStart(d: Date)
    requires d.month >= 1 && d.day >= 1
    ensures var shiftedMonth := if d.month > 2 then d.month - 3 else d.month + 9;
            var year := if d.month <= 2 then d.year - 1 else d.year;
            DaysFromCivil(d) == YearStart(year) + (153 * shiftedMonth + 2) / 5 + d.day - 1 - 719468
  {
    EraIsYearStart(if d.month <= 2 then d.year - 1 else d.year);
  }

  /** A March-based year is a day longer when the February that ends it is. */
  lemma YearLength(year: int)
    ensures YearStart(year) - YearStart(year - 1) == if Leap(year) then 366 else 365
  {
    Step(year, 4);
    Step(year, 100);
    Step(year, 400);
  }

  lemma Step(n: int, k: int)
    requires k == 4 || k == 100 || k == 400
    ensures n / k - (n - 1) / k == if n % k == 0 then 1 else 0
  {}

  lemma NextIsValid(d: Date)
    requires Valid(d)
    ensures Valid(Next(d)) && Before(d, Next(d))
  {}

  function Shifted(month: nat): nat
    requires month >= 1
  {
    if month > 2 then month - 3 else month + 9
  }

  /** Days before a month of a March-based year. */
  function MonthStart(shifted: nat): nat { (153 * shifted + 2) / 5 }

  lemma MonthLength(year: int, month: nat)
    requires 1 <= month <= 12 && month != 2
    ensures MonthStart(Shifted(month) + 1) - MonthStart(Shifted(month)) == DaysInMonth(year, month)
    ensures month < 12 ==> Shifted(month + 1) == Shifted(month) + 1
    ensures month == 12 ==> Shifted(1) == Shifted(12) + 1
  {}

  /** From each date to its successor the count grows by exactly one, in every year. */
  lemma NextCountsOne(d: Date)
    requires Valid(d)
    ensures DaysFromCivil(Next(d)) == DaysFromCivil(d) + 1
  {
    hide DaysFromCivil, YearStart, Leap;
    NextIsValid(d);
    CountIsYearStart(d);
    CountIsYearStart(Next(d));
    if d.month == 2 {
      YearLength(d.year);
      assert MonthStart(11) == 337 && MonthStart(0) == 0;
    } else {
      MonthLength(d.year, d.month);
    }
    hide MonthStart;
  }

  // ----- so it is increasing, and no two dates share a count

  /** The first day of the `i`-th month since year 0. */
  function MonthFirst(i: int): Date { Date(i / 12, i % 12 + 1, 1) }

  lemma WithinMonth(d: Date, e: Date)
    requires d.month >= 1 && d.day >= 1 && e.day >= 1 && e == d.(day := e.day)
    ensures DaysFromCivil(e) - DaysFromCivil(d) == e.day - d.day
  {
    hide DaysFromCivil, YearStart;
    CountIsYearStart(d);
    CountIsYearStart(e);
  }

  lemma LastOfMonth(d: Date)
    requires Valid(d)
    ensures DaysFromCivil(d) < DaysFromCivil(MonthFirst(d.year * 12 + d.month))
    ensures DaysFromCivil(d) >= DaysFromCivil(MonthFirst(d.year * 12 + d.month - 1))
  {
    hide DaysFromCivil, MonthFirst;
    var last := d.(day := DaysInMonth(d.year, d.month));
    MonthFirstOf(d.year, d.month);
    if d.month < 12 { MonthFirstOf(d.year, d.month + 1); } else { MonthFirstOf(d.year + 1, 1); }
    NextCountsOne(last);
    WithinMonth(d, last);
    WithinMonth(d.(day := 1), d);
  }

  lemma MonthFirstOf(year: int, month: nat)
    requires 1 <= month <= 12
    ensures MonthFirst(year * 12 + month - 1) == Date(year, month, 1)
  {
    var i := year * 12 + month - 1;
    assert i / 12 == year && i % 12 == month - 1;
  }

  lemma {:induction false} MonthsIncrease(i: int, j: int)
    requires i <= j
    ensures DaysFromCivil(MonthFirst(i)) <= DaysFromCivil(MonthFirst(j))
    decreases j - i
  {
    hide DaysFromCivil;
    if i < j {
      var d := MonthFirst(j - 1);
      assert Valid(d);
      LastOfMonth(d);
      MonthsIncrease(i, j - 1);
      assert d.year * 12 + d.month == j by { assert j - 1 == 12 * ((j - 1) / 12) + (j - 1) % 12; }
    }
  }

  lemma CountIncreases(d: Date, e: Date)
    requires Valid(d) && Valid(e) && Before(d, e)
    ensures DaysFromCivil(d) < DaysFromCivil(e)
  {
    hide DaysFromCivil, MonthFirst, DaysInMonth;
    if d.year == e.year && d.month == e.month {
      WithinMonth(d, e);
    } else {
      LastOfMonth(d);
      LastOfMonth(e);
      MonthsIncrease(d.year * 12 + d.month, e.year * 12 + e.month - 1);
    }
  }

  lemma CountIsInjective(d: Date, e: Date)
    requires Valid(d) && Valid(e) && DaysFromCivil(d) == DaysFromCivil(e)
    ensures d == e
  {
    hide DaysFromCivil;
    if Before(d, e) { CountIncreases(d, e); }
    if Before(e, d) { CountIncreases(e, d); }
  }

  // ----- the calendar by counting

  /** The date so many days after the epoch, one day at a time. */
  function CivilOf(days: nat): (d: Date)
    ensures Valid(d)
  {
    if days == 0 then EPOCH else (NextIsValid(CivilOf(days - 1)); Next(CivilOf(days - 1)))
  }

  lemma {:induction false} CountOfCivil(days: nat)
    ensures DaysFromCivil(CivilOf(days)) == days
  {
    if days == 0 {
      EpochIsZero();
    } else {
      CountOfCivil(days - 1);
      NextCountsOne(CivilOf(days - 1));
    }
  }

  /** The date is in a span of years exactly when its count is in the span of days. */
  lemma YearSpan(days: nat, first: int, last: int)
    ensures first <= CivilOf(days).year <= last <==>
            DaysFromCivil(Date(first, 1, 1)) <= days < DaysFromCivil(Date(last + 1, 1, 1))
  {
    CountOfCivil(days);
    var d := CivilOf(days);
    YearBound(d, first);
    YearBound(d, last + 1);
  }

  lemma YearBound(d: Date, year: int)
    requires Valid(d)
    ensures d.year >= year <==> DaysFromCivil(d) >= DaysFromCivil(Date(year, 1, 1))
  {
    hide DaysFromCivil;
    var first := Date(year, 1, 1);
    assert Valid(first);
    if d.year < year { CountIncreases(d, first); }
    else if d != first { CountIncreases(first, d); }
  }
}
