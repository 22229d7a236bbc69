/** The civil calendar arithmetic behind log timestamps (`src/logging.rs`). */
module Calendar {

  datatype Date = Date(year: int, month: int, day: int)

  // ---------------------------------------------------------------- the calendar itself

  predicate IsLeap(y: int) {
    y % 4 == 0 && (y % 100 != 0 || y % 400 == 0)
  }

  function DaysInMonth(y: int, m: int): nat {
    if m == 2 then (if IsLeap(y) then 29 else 28)
    else if m == 4 || m == 6 || m == 9 || m == 11 then 30
    else 31
  }

  function DaysInYear(y: int): nat {
    if IsLeap(y) then 366 else 365
  }

  predicate ValidDate(date: Date) {
    1 <= date.month <= 12 && 1 <= date.day <= DaysInMonth(date.year, date.month)
  }

  /** Days from 1970-01-01 to the first of January of year `y`, counted year by year. */
  function DaysToYear(y: int): int
    decreases if y >= 1970 then y - 1970 else 1970 - y
  {
    if y == 1970 then 0
    else if y > 1970 then DaysToYear(y - 1) + DaysInYear(y - 1)
    else DaysToYear(y + 1) - DaysInYear(y)
  }

  /** Days from the first of January to the first of month `m`, counted month by month. */
  function DaysToMonth(y: int, m: int): nat
    decreases m
  {
    if m <= 1 then 0 else DaysToMonth(y, m - 1) + DaysInMonth(y, m - 1)
  }

  function DayNumber(date: Date): int {
    DaysToYear(date.year) + DaysToMonth(date.year, date.month) + date.day - 1
  }

  /** The day after. */
  function NextDate(date: Date): Date {
    if date.day < DaysInMonth(date.year, date.month) then date.(day := date.day + 1)
    else if date.month < 12 then Date(date.year, date.month + 1, 1)
    else Date(date.year + 1, 1, 1)
  }

  // ---------------------------------------------------------------- the algorithm

  /** Integer division that truncates toward zero. */
  function Quotient(a: int, b: int): int
    requires b > 0
  {
    if a >= 0 then a / b else -((-a) / b)
  }

  function CivilFromDays(days: int): Date {
    var z := days + 719_468;
    var era := Quotient(if z >= 0 then z else z - 146_096, 146_097);
    var doe := z - era * 146_097;
    var yoe := Quotient(doe - Quotient(doe, 1460) + Quotient(doe, 36_524) - Quotient(doe, 146_096), 365);
    var y := yoe + era * 400;
    var doy := doe - (365 * yoe + Quotient(yoe, 4) - Quotient(yoe, 100));
    var mp := Quotient(5 * doy + 2, 153);
    var d := doy - Quotient(153 * mp + 2, 5) + 1;
    var m := if mp < 10 then mp + 3 else mp - 9;
    Date(if m <= 2 then y + 1 else y, m, d)
  }

  // ---------------------------------------------------------------- eras, years, months

  /** The era is the 400-year cycle `z` falls in, also before the epoch of the algorithm. */
  lemma {:induction false} EraIsFloor(z: int)
    ensures var era := Quotient(if z >= 0 then z else z - 146_096, 146_097);
      0 <= z - era * 146_097 < 146_097
  {
  }

  /** A day of an era is a day `s` of one of its four-year cycles. */
  lemma {:induction false} SplitEra(doe: int) returns (c: int, q: int, s: int)
    requires 0 <= doe < 146_097
    ensures doe == 36_524 * c + 1461 * q + s && 0 <= c <= 3 && 0 <= q <= 24 && 0 <= s <= 1460
    ensures c < 3 && q == 24 ==> s < 1460
    ensures c == doe / 36_524 - doe / 146_096
  {
    c := doe / 36_524 - doe / 146_096;
    var r := doe - 36_524 * c;
    q, s := r / 1461, r % 1461;
  }

  lemma {:induction false} YearOfEra(doe: int, c: int, q: int, s: int)
    requires doe == 36_524 * c + 1461 * q + s && 0 <= c <= 3 && 0 <= q <= 24 && 0 <= s <= 1460
    requires c == doe / 36_524 - doe / 146_096
    ensures var k := if s == 1460 then 3 else s / 365;
      (doe - doe / 1460 + doe / 36_524 - doe / 146_096) / 365 == 100 * c + 4 * q + k
  {
    var e := (24 * c + q + s) / 1460;
    assert doe == 1460 * (25 * c + q) + (24 * c + q + s);
    assert doe / 1460 == 25 * c + q + e;
    assert 0 <= e <= 1;
    assert doe - doe / 1460 + c == 365 * (100 * c + 4 * q) + (s - e);
  }

  /** The leap days before the first of January of year `y`, up to a constant. */
  function LeapsBefore(y: int): int {
    (y - 1) / 4 - (y - 1) / 100 + (y - 1) / 400
  }

  lemma {:induction false} FourStep(y: int)
    ensures y / 4 - (y - 1) / 4 == if y % 4 == 0 then 1 else 0
  {
  }

  lemma {:induction false} HundredStep(y: int)
    ensures y / 100 - (y - 1) / 100 == if y % 100 == 0 then 1 else 0
  {
  }

  lemma {:induction false} FourHundredStep(y: int)
    ensures y / 400 - (y - 1) / 400 == if y % 400 == 0 then 1 else 0
  {
  }

  lemma {:induction false} RoundYears(y: int)
    ensures y % 100 == 0 ==> y % 4 == 0
    ensures y % 400 == 0 ==> y % 100 == 0
  {
  }

  lemma {:induction false} LeapsStep(y: int)
    ensures LeapsBefore(y + 1) - LeapsBefore(y) == if IsLeap(y) then 1 else 0
  {
    FourStep(y);
    HundredStep(y);
    FourHundredStep(y);
    RoundYears(y);
  }

  lemma {:induction false} DaysToYearClosed(y: int)
    ensures DaysToYear(y) == 365 * (y - 1970) + LeapsBefore(y) - 477
    decreases if y >= 1970 then y - 1970 else 1970 - y
  {
    if y > 1970 {
      DaysToYearClosed(y - 1);
      LeapsStep(y - 1);
    } else if y < 1970 {
      DaysToYearClosed(y + 1);
      LeapsStep(y);
    }
  }

  lemma {:induction false} MonthTable(y: int)
    ensures var leap := if IsLeap(y) then 1 else 0;
      && DaysToMonth(y, 1) == 0 && DaysToMonth(y, 2) == 31
      && DaysToMonth(y, 3) == 59 + leap && DaysToMonth(y, 4) == 90 + leap && DaysToMonth(y, 5) == 120 + leap
      && DaysToMonth(y, 6) == 151 + leap && DaysToMonth(y, 7) == 181 + leap && DaysToMonth(y, 8) == 212 + leap
      && DaysToMonth(y, 9) == 243 + leap && DaysToMonth(y, 10) == 273 + leap
      && DaysToMonth(y, 11) == 304 + leap && DaysToMonth(y, 12) == 334 + leap
  {
    assert DaysToMonth(y, 1) == 0;
    assert DaysToMonth(y, 2) == 31;
    assert DaysToMonth(y, 3) == DaysToMonth(y, 2) + DaysInMonth(y, 2);
    assert DaysToMonth(y, 4) == DaysToMonth(y, 3) + 31;
    assert DaysToMonth(y, 5) == DaysToMonth(y, 4) + 30;
    assert DaysToMonth(y, 6) == DaysToMonth(y, 5) + 31;
    assert DaysToMonth(y, 7) == DaysToMonth(y, 6) + 30;
    assert DaysToMonth(y, 8) == DaysToMonth(y, 7) + 31;
    assert DaysToMonth(y, 9) == DaysToMonth(y, 8) + 31;
    assert DaysToMonth(y, 10) == DaysToMonth(y, 9) + 30;
    assert DaysToMonth(y, 11) == DaysToMonth(y, 10) + 31;
    assert DaysToMonth(y, 12) == DaysToMonth(y, 11) + 30;
  }

  /** The day number of the first of March, which starts the algorithm's year. */
  function MarchFirst(y: int): int {
    DayNumber(Date(y, 3, 1))
  }

  lemma {:induction false} MarchFirstClosed(y: int)
    ensures MarchFirst(y) == 365 * y + y / 4 - y / 100 + y / 400 - 719_468
  {
    DaysToYearClosed(y);
    LeapsStep(y);
    MonthTable(y);
  }

  lemma {:induction false} MarchFirstOfEra(era: int, yoe: int)
    requires 0 <= yoe < 400
    ensures MarchFirst(era * 400 + yoe) == era * 146_097 + (365 * yoe + yoe / 4 - yoe / 100) - 719_468
  {
    MarchFirstClosed(era * 400 + yoe);
    var y := era * 400 + yoe;
    assert y / 4 == 100 * era + yoe / 4 && y / 100 == 4 * era + yoe / 100 && y / 400 == era;
  }

  /** Months counted from March: `mp` months in, the first is day `(153 * mp + 2) / 5`. */
  lemma {:induction false} MonthStart(y: int, mp: nat)
    requires mp < 12
    ensures DayNumber(if mp < 10 then Date(y, mp + 3, 1) else Date(y + 1, mp - 9, 1))
         == MarchFirst(y) + (153 * mp + 2) / 5
  {
    MonthTable(y);
    MonthTable(y + 1);
    DaysToYearClosed(y);
    DaysToYearClosed(y + 1);
    LeapsStep(y);
  }

  /** The date `doy` days into the year that starts on the first of March `y`. */
  function FromMarch(y: int, doy: nat): Date {
    var mp := (5 * doy + 2) / 153;
    var d := doy - (153 * mp + 2) / 5 + 1;
    Date(if mp < 10 then y else y + 1, if mp < 10 then mp + 3 else mp - 9, d)
  }

  /** A day of the March year lands in one of its months, with February 29 only when the
      calendar year it belongs to is leap. */
  lemma {:induction false} MonthOfYear(y: int, doy: nat)
    requires doy <= 365 && (doy == 365 ==> IsLeap(y + 1))
    ensures ValidDate(FromMarch(y, doy)) && DayNumber(FromMarch(y, doy)) == MarchFirst(y) + doy
  {
    MonthStart(y, (5 * doy + 2) / 153);
  }

  /** The algorithm's divisions, once the day of the era is known. */
  lemma {:induction false} CivilByMarch(days: int, era: int, doe: int, yoe: nat, doy: nat)
    requires var z := days + 719_468;
      era == Quotient(if z >= 0 then z else z - 146_096, 146_097) && doe == z - era * 146_097
    requires 0 <= doe < 146_097
    requires yoe == (doe - doe / 1460 + doe / 36_524 - doe / 146_096) / 365
    requires doy == doe - (365 * yoe + yoe / 4 - yoe / 100) && doy <= 365
    ensures CivilFromDays(days) == FromMarch(era * 400 + yoe, doy)
  {
    assert doe - doe / 1460 >= 0;
  }

  /** A day of an era has a year of the era and a day of that year, and is the 366th day of
      one only when the February in it has 29. */
  lemma {:induction false} YearAndDay(era: int, doe: int) returns (yoe: nat, doy: nat)
    requires 0 <= doe < 146_097
    ensures yoe == (doe - doe / 1460 + doe / 36_524 - doe / 146_096) / 365 && yoe < 400
    ensures doy == doe - (365 * yoe + yoe / 4 - yoe / 100) && doy <= 365
    ensures doy == 365 ==> IsLeap(era * 400 + yoe + 1)
  {
    var c, q, s := SplitEra(doe);
    YearOfEra(doe, c, q, s);
    var k := if s == 1460 then 3 else s / 365;
    yoe := 100 * c + 4 * q + k;
    assert yoe / 4 == 25 * c + q && yoe / 100 == c;
    doy := s - 365 * k;
    if doy == 365 {
      LeapAtCycleEnd(era, c, q);
    }
  }

  /** Every day number is a valid date of the proleptic Gregorian calendar, and that date's
      day number is the one given. */
  lemma {:induction false} CivilIsTheDay(days: int)
    ensures ValidDate(CivilFromDays(days)) && DayNumber(CivilFromDays(days)) == days
  {
    var z := days + 719_468;
    var era := Quotient(if z >= 0 then z else z - 146_096, 146_097);
    EraIsFloor(z);
    var yoe, doy := YearAndDay(era, z - era * 146_097);
    MarchFirstOfEra(era, yoe);
    MonthOfYear(era * 400 + yoe, doy);
    CivilByMarch(days, era, z - era * 146_097, yoe, doy);
  }

  lemma {:induction false} CenturyRemainder(centuries: int, rest: int)
    requires 0 <= rest < 100
    ensures (100 * centuries + rest) % 100 == rest
  {
  }

  lemma {:induction false} LeapAtCycleEnd(era: int, c: int, q: int)
    requires 0 <= c <= 3 && 0 <= q <= 24 && (q == 24 ==> c == 3)
    ensures IsLeap(era * 400 + 100 * c + 4 * q + 4)
  {
    var y := era * 400 + 100 * c + 4 * q + 4;
    assert y == 4 * (100 * era + 25 * c + q + 1);
    if q == 24 {
      assert y == 400 * (era + 1);
    } else {
      assert y == 100 * (4 * era + c) + (4 * q + 4);
      CenturyRemainder(4 * era + c, 4 * q + 4);
    }
  }

  // ---------------------------------------------------------------- the converse

  lemma {:induction false} YearsInOrder(a: int, b: int)
    requires a < b
    ensures DaysToYear(a) + DaysInYear(a) <= DaysToYear(b)
    decreases b - a
  {
    DaysToYearClosed(b);
    DaysToYearClosed(b - 1);
    LeapsStep(b - 1);
    if a + 1 < b {
      YearsInOrder(a, b - 1);
    }
  }

  lemma {:induction false} MonthsInOrder(y: int, a: int, b: int)
    requires 1 <= a < b
    ensures DaysToMonth(y, a) + DaysInMonth(y, a) <= DaysToMonth(y, b)
    decreases b
  {
    if a + 1 < b {
      MonthsInOrder(y, a, b - 1);
    }
  }

  lemma {:induction false} MonthsFillTheYear(y: int)
    ensures DaysToMonth(y, 12) + DaysInMonth(y, 12) == DaysInYear(y)
  {
    MonthTable(y);
  }

  lemma {:induction false} DayWithinYear(date: Date)
    requires ValidDate(date)
    ensures DaysToYear(date.year) <= DayNumber(date) < DaysToYear(date.year) + DaysInYear(date.year)
  {
    MonthsFillTheYear(date.year);
    if date.month < 12 {
      MonthsInOrder(date.year, date.month, 12);
    }
  }

  /** Different valid dates are different days. */
  lemma {:induction false} DayNumberInjective(a: Date, b: Date)
    requires ValidDate(a) && ValidDate(b) && DayNumber(a) == DayNumber(b)
    ensures a == b
  {
    DayWithinYear(a);
    DayWithinYear(b);
    if a.year < b.year {
      YearsInOrder(a.year, b.year);
    } else if b.year < a.year {
      YearsInOrder(b.year, a.year);
    } else if a.month < b.month {
      MonthsInOrder(a.year, a.month, b.month);
    } else if b.month < a.month {
      MonthsInOrder(a.year, b.month, a.month);
    }
  }

  /** Going from a date to its day number and back is the identity. */
  lemma {:induction false} CivilInvertsDayNumber(date: Date)
    requires ValidDate(date)
    ensures CivilFromDays(DayNumber(date)) == date
  {
    CivilIsTheDay(DayNumber(date));
    DayNumberInjective(CivilFromDays(DayNumber(date)), date);
  }

  lemma {:induction false} NextDateIsNextDay(date: Date)
    requires ValidDate(date)
    ensures ValidDate(NextDate(date)) && DayNumber(NextDate(date)) == DayNumber(date) + 1
  {
    if date.day == DaysInMonth(date.year, date.month) && date.month == 12 {
      MonthsFillTheYear(date.year);
      DaysToYearClosed(date.year);
      DaysToYearClosed(date.year + 1);
      LeapsStep(date.year);
    }
  }

  /** Consecutive days are consecutive dates, across months, leap years and eras alike. */
  lemma {:induction false} ConsecutiveDays(days: int)
    ensures CivilFromDays(days + 1) == NextDate(CivilFromDays(days))
  {
    CivilIsTheDay(days);
    CivilIsTheDay(days + 1);
    NextDateIsNextDay(CivilFromDays(days));
    DayNumberInjective(CivilFromDays(days + 1), NextDate(CivilFromDays(days)));
  }

  // ---------------------------------------------------------------- instants

  datatype Instant = Instant(date: Date, hour: nat, minute: nat, second: nat)

  /** The fields `fmt_utc` prints for a Unix time. */
  function UtcFields(secs: nat): Instant {
    var tod := secs % 86_400;
    Instant(CivilFromDays(secs / 86_400), tod / 3600, (tod % 3600) / 60, tod % 60)
  }

  function UnixSeconds(i: Instant): int {
    DayNumber(i.date) * 86_400 + i.hour * 3600 + i.minute * 60 + i.second
  }

  predicate ValidInstant(i: Instant) {
    ValidDate(i.date) && i.hour < 24 && i.minute < 60 && i.second < 60
  }

  /** The printed fields name the second they were given. */
  lemma {:induction false} UtcFieldsNameTheSecond(secs: nat)
    ensures ValidInstant(UtcFields(secs)) && UnixSeconds(UtcFields(secs)) == secs
  {
    CivilIsTheDay(secs / 86_400);
    TimeOfDay(secs % 86_400);
    assert secs == (secs / 86_400) * 86_400 + secs % 86_400;
  }

  lemma {:induction false} TimeOfDay(tod: nat)
    requires tod < 86_400
    ensures tod / 3600 < 24 && (tod % 3600) / 60 < 60
    ensures tod == (tod / 3600) * 3600 + ((tod % 3600) / 60) * 60 + tod % 60
  {
    var h, rem := tod / 3600, tod % 3600;
    var m, s := rem / 60, rem % 60;
    assert tod == 60 * (60 * h + m) + s;
  }
}
