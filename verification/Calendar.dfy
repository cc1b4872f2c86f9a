/** Civil dates to Unix time: the day count of the HTTP-date and RFC 3339 parsers, checked against
    counting days one month and one year at a time. Leap years as in Appendix C of RFC 3339. */
module Calendar {
  import opened Common

  const SECS_PER_DAY: int := 86_400
  const I64_MIN: int := -0x8000_0000_0000_0000
  const I64_MAX: int := 0x7FFF_FFFF_FFFF_FFFF

  /** Integer division as the source's language does it: towards zero. */
  function TruncDiv(a: int, b: int): int
    requires b > 0
  {
    if a >= 0 then a / b else -((-a) / b)
  }

  function DaysFromCivil(year: int, month: nat, day: nat): int {
    var y := if month <= 2 then year - 1 else year;
    var era := TruncDiv(if y >= 0 then y else y - 399, 400);
    var yoe := y - era * 400;
    var doy := TruncDiv(153 * (if month > 2 then month - 3 else month + 9) + 2, 5) + day - 1;
    var doe := yoe * 365 + TruncDiv(yoe, 4) - TruncDiv(yoe, 100) + doy;
    era * 146_097 + doe - 719_468
  }

  function CivilToUnix(year: int, month: nat, day: nat, h: nat, m: nat, s: nat): Option<int> {
    if !(0 <= year <= 9999) || !(1 <= month <= 12) || !(1 <= day <= 31) || h > 23 || m > 59 || s > 60 then None
    else
      var days := DaysFromCivil(year, month, day);
      var secs := h * 3600 + m * 60 + s;
      // The checked multiplication and addition.
      if !(I64_MIN <= days * SECS_PER_DAY <= I64_MAX) then None
      else if !(I64_MIN <= days * SECS_PER_DAY + secs <= I64_MAX) then None
      else Some(days * SECS_PER_DAY + secs)
  }

  // --- The reference: counting ---------------------------------------------------------------------

  predicate IsLeap(year: int) {
    year % 4 == 0 && (year % 100 != 0 || year % 400 == 0)
  }

  function DaysInMonth(year: int, month: nat): nat {
    if month == 2 then (if IsLeap(year) then 29 else 28)
    else if month in {4, 6, 9, 11} then 30 else 31
  }

  function DaysInYear(year: int): nat {
    if IsLeap(year) then 366 else 365
  }

  datatype Date = Date(year: int, month: nat, day: nat)

  predicate Valid(d: Date) {
    1 <= d.month <= 12 && 1 <= d.day <= DaysInMonth(d.year, d.month)
  }

  /** Days from 1970-01-01 to the first of `year`, year by year, in either direction. */
  function YearDays(year: int): int
    decreases if year >= 1970 then year - 1970 else 1970 - year
  {
    if year == 1970 then 0
    else if year > 1970 then YearDays(year - 1) + DaysInYear(year - 1)
    else YearDays(year + 1) - DaysInYear(year)
  }

  /** Days in the months of `year` before `month`. */
  function MonthDays(year: int, month: nat): nat
  {
    if month <= 1 then 0 else MonthDays(year, month - 1) + DaysInMonth(year, month - 1)
  }

  function CountedDays(d: Date): int {
    YearDays(d.year) + MonthDays(d.year, d.month) + d.day - 1
  }

  function NextDay(d: Date): Date {
    if d.day < DaysInMonth(d.year, d.month) then d.(day := d.day + 1)
    else if d.month < 12 then Date(d.year, d.month + 1, 1)
    else Date(d.year + 1, 1, 1)
  }

  predicate Before(a: Date, b: Date) {
    a.year < b.year || (a.year == b.year && (a.month < b.month || (a.month == b.month && a.day < b.day)))
  }

  // --- Proof ------------------------------------------------------------------------------------------

  /** Truncation with the era correction is floor division. */
  lemma EraIsFloor(y: int)
    ensures TruncDiv(if y >= 0 then y else y - 399, 400) == y / 400
  {
    if y < 0 {
      var q := y / 400;
      assert y == 400 * q + y % 400;
      assert (399 - y) / 400 == -q;
    }
  }

  /** The day count of the first of March, in plain floor arithmetic. */
  function MarchFirst(y: int): int {
    365 * y + y / 4 - y / 100 + y / 400 - 719_468
  }

  lemma MarchForm(year: int, month: nat, day: nat)
    requires 1 <= month <= 12
    ensures DaysFromCivil(year, month, day) ==
              MarchFirst(if month <= 2 then year - 1 else year)
              + (153 * (if month > 2 then month - 3 else month + 9) + 2) / 5 + day - 1
  {
    var y := if month <= 2 then year - 1 else year;
    EraIsFloor(y);
    var era, yoe := y / 400, y % 400;
    assert y == 400 * era + yoe;
    assert y / 4 == 100 * era + yoe / 4;
    assert y / 100 == 4 * era + yoe / 100;
  }

  /** From one first of March to the next passes exactly one leap day, if any. */
  lemma MarchStep(y: int)
    ensures MarchFirst(y) == MarchFirst(y - 1) + 365 + (if IsLeap(y) then 1 else 0)
  {
    assert y / 4 - (y - 1) / 4 == if y % 4 == 0 then 1 else 0;
    assert y / 100 - (y - 1) / 100 == if y % 100 == 0 then 1 else 0;
    assert y / 400 - (y - 1) / 400 == if y % 400 == 0 then 1 else 0;
  }

  lemma {:induction false} YearsCounted(year: int)
    ensures YearDays(year) == MarchFirst(year - 1) + 306
    decreases if year >= 1970 then year - 1970 else 1970 - year
  {
    if year > 1970 {
      YearsCounted(year - 1);
      MarchStep(year - 1);
    } else if year < 1970 {
      YearsCounted(year + 1);
      MarchStep(year);
    }
  }

  lemma MonthsCounted(year: int, month: nat)
    requires 1 <= month <= 12
    ensures MonthDays(year, month) ==
              if month <= 2 then 31 * (month - 1)
              else (153 * (month - 3) + 2) / 5 + 59 + (if IsLeap(year) then 1 else 0)
  {
    if month > 1 { MonthsCounted(year, month - 1); }
  }

  /** The closed formula is the count: for every date of every integer year. */
  lemma DaysFromCivilCounts(d: Date)
    requires Valid(d)
    ensures DaysFromCivil(d.year, d.month, d.day) == CountedDays(d)
  {
    MarchForm(d.year, d.month, d.day);
    YearsCounted(d.year);
    MonthsCounted(d.year, d.month);
    MarchStep(d.year);
  }

  lemma YearEnds(year: int)
    ensures YearDays(year) + DaysInYear(year) == YearDays(year + 1)
    ensures MonthDays(year, 12) + 31 == DaysInYear(year)
  {
    YearsCounted(year);
    YearsCounted(year + 1);
    MarchStep(year);
    MonthsCounted(year, 12);
  }

  lemma NextDayCounts(d: Date)
    requires Valid(d)
    ensures Valid(NextDay(d)) && CountedDays(NextDay(d)) == CountedDays(d) + 1
  {
    hide YearDays;
    if d.day == DaysInMonth(d.year, d.month) && d.month == 12 { YearEnds(d.year); }
  }

  lemma EpochIsZero()
    ensures DaysFromCivil(1970, 1, 1) == 0
  {
  }

  /** The next day is one more, and the epoch is day zero. */
  lemma NextDayAddsOne(d: Date)
    requires Valid(d)
    ensures Valid(NextDay(d))
    ensures var n := NextDay(d); DaysFromCivil(n.year, n.month, n.day) == DaysFromCivil(d.year, d.month, d.day) + 1
    ensures DaysFromCivil(1970, 1, 1) == 0
  {
    EpochIsZero();
    hide DaysFromCivil, CountedDays, NextDay, Valid;
    NextDayCounts(d);
    DaysFromCivilCounts(d);
    DaysFromCivilCounts(NextDay(d));
  }

  lemma {:induction false} YearOrder(a: int, b: int)
    requires a < b
    ensures YearDays(a) + DaysInYear(a) <= YearDays(b)
    decreases b - a
  {
    YearEnds(a);
    hide YearDays;
    if a + 1 < b { YearOrder(a + 1, b); }
  }

  lemma {:induction false} MonthOrder(year: int, m: nat, n: nat)
    requires 1 <= m < n <= 12
    ensures MonthDays(year, m) + DaysInMonth(year, m) <= MonthDays(year, n)
    decreases n
  {
    if m + 1 < n { MonthOrder(year, m, n - 1); }
  }

  /** Later dates have larger day counts, so no two dates share one. */
  lemma DayCountOrdersDates(a: Date, b: Date)
    requires Valid(a) && Valid(b)
    ensures Before(a, b) <==> DaysFromCivil(a.year, a.month, a.day) < DaysFromCivil(b.year, b.month, b.day)
    ensures a == b <==> DaysFromCivil(a.year, a.month, a.day) == DaysFromCivil(b.year, b.month, b.day)
  {
    DaysFromCivilCounts(a);
    DaysFromCivilCounts(b);
    if Before(a, b) {
      EarlierCounts(a, b);
    } else if Before(b, a) {
      EarlierCounts(b, a);
    }
  }

  lemma EarlierCounts(a: Date, b: Date)
    requires Valid(a) && Valid(b) && Before(a, b)
    ensures CountedDays(a) < CountedDays(b)
  {
    if a.year < b.year {
      YearOrder(a.year, b.year);
      MonthsCounted(a.year, 12);
      if a.month < 12 { MonthOrder(a.year, a.month, 12); }
    } else if a.month < b.month {
      MonthOrder(a.year, a.month, b.month);
    }
  }

  /** What `civil_to_unix` accepts, and what it returns: the checked arithmetic never fails in range,
      and a date that exists gets the second it names. */
  lemma CivilToUnixExact(d: Date, h: nat, m: nat, s: nat)
    ensures CivilToUnix(d.year, d.month, d.day, h, m, s).Some? <==>
              0 <= d.year <= 9999 && 1 <= d.month <= 12 && 1 <= d.day <= 31 && h <= 23 && m <= 59 && s <= 60
    ensures Valid(d) && CivilToUnix(d.year, d.month, d.day, h, m, s).Some? ==>
              CivilToUnix(d.year, d.month, d.day, h, m, s).value == CountedDays(d) * SECS_PER_DAY + h * 3600 + m * 60 + s
  {
    if Valid(d) { DaysFromCivilCounts(d); }
    if 0 <= d.year <= 9999 && 1 <= d.month <= 12 && 1 <= d.day <= 31 {
      MarchForm(d.year, d.month, d.day);
    }
  }

  /** Dates that do not exist pass too: a day past the end of a month is read as running on into the
      following one. So an accepted date names its own day exactly when the month has that day. */
  lemma OverlongMonthsRunOn(year: int, month: nat, day: nat, d: Date)
    requires 1 <= month <= 12 && 1 <= day <= 31 && Valid(d)
    requires DaysFromCivil(year, month, day) == DaysFromCivil(d.year, d.month, d.day)
    ensures d == Date(year, month, day) <==> day <= DaysInMonth(year, month)
    ensures day > DaysInMonth(year, month) ==>
              d == Date(year, month + 1, day - DaysInMonth(year, month))
  {
    hide DaysFromCivil;
    var date := Date(year, month, day);
    if day <= DaysInMonth(year, month) {
      DayCountOrdersDates(date, d);
    } else {
      var over := Date(year, month + 1, day - DaysInMonth(year, month));
      OverlongCounts(year, month, day);
      DayCountOrdersDates(over, d);
    }
  }

  lemma DaysRunOn(year: int, month: nat, day: nat)
    requires 1 <= month <= 12 && day >= 1
    ensures DaysFromCivil(year, month, day) == CountedDays(Date(year, month, day))
  {
    MarchForm(year, month, day);
    MarchForm(year, month, 1);
    hide DaysFromCivil;
    DaysFromCivilCounts(Date(year, month, 1));
  }

  lemma OverlongCounts(year: int, month: nat, day: nat)
    requires 1 <= month <= 12 && DaysInMonth(year, month) < day <= 31
    ensures month < 12
    ensures var over := Date(year, month + 1, day - DaysInMonth(year, month));
            Valid(over) && DaysFromCivil(year, month, day) == DaysFromCivil(over.year, over.month, over.day)
  {
    hide DaysFromCivil;
    DaysRunOn(year, month, day);
    DaysRunOn(year, month + 1, day - DaysInMonth(year, month));
  }
}
