/** Days since 1970-01-01 to a civil date.

    `CivilFromDays` is the daemon's era arithmetic; `DaysOfDate` counts
    the days of the proleptic Gregorian calendar directly, and is the
    independent meaning the arithmetic is checked against. */
module Calendar {
  datatype Date = Date(year: int, month: int, day: int)

  // ----- the Gregorian calendar

  predicate IsLeap(y: int) {
    y % 4 == 0 && (y % 100 != 0 || y % 400 == 0)
  }

  function DaysInMonth(y: int, m: int): int
    requires 1 <= m <= 12
  {
    if m == 2 then (if IsLeap(y) then 29 else 28)
    else if m == 4 || m == 6 || m == 9 || m == 11 then 30
    else 31
  }

  predicate ValidDate(d: Date) {
    1 <= d.month <= 12 && 1 <= d.day <= DaysInMonth(d.year, d.month)
  }

  /** The calendar successor. */
  function NextDate(d: Date): Date
    requires ValidDate(d)
  {
    if d.day < DaysInMonth(d.year, d.month) then d.(day := d.day + 1)
    else if d.month < 12 then Date(d.year, d.month + 1, 1)
    else Date(d.year + 1, 1, 1)
  }

  predicate Earlier(a: Date, b: Date) {
    a.year < b.year || (a.year == b.year && (a.month < b.month || (a.month == b.month && a.day < b.day)))
  }

  /** Days from 1 January of year 0 to 1 January of year `y`. */
  function DaysBeforeYear(y: int): int {
    365 * y + LeapsThrough(y - 1) + 1
  }

  /** Leap years from 1 to `y`, counted negatively below. */
  function LeapsThrough(y: int): int {
    y / 4 - y / 100 + y / 400
  }

  function DaysBeforeMonth(y: int, m: int): int
    requires 1 <= m <= 12
  {
    if m == 1 then 0 else DaysBeforeMonth(y, m - 1) + DaysInMonth(y, m - 1)
  }

  /** Days from 1970-01-01, counted over the years, months and days between. */
  function DaysOfDate(d: Date): int
    requires 1 <= d.month <= 12
  {
    DaysBeforeYear(d.year) - DaysBeforeYear(1970) + DaysBeforeMonth(d.year, d.month) + d.day - 1
  }

  // ----- the era arithmetic

  /** Integer division toward zero. */
  function Quot(a: int, b: int): int
    requires b > 0
  {
    if a >= 0 then a / b else -((-a) / b)
  }

  /** Howard Hinnant's days-to-civil algorithm: the 400-year era, the year of
      the era, the day of a year that starts in March, the month and day. */
  function CivilFromDays(days: int): Date {
    var z := days + 719_468;
    var era := EraOf(z);
    var doe := z - era * 146_097;
    var yoe := YearInEra(doe);
    var doy := DayInYear(doe, yoe);
    MonthAndDay(yoe + era * 400, doy)
  }

  function EraOf(z: int): int {
    Quot(if z >= 0 then z else z - 146_096, 146_097)
  }

  function YearInEra(doe: int): int {
    Quot(doe - Quot(doe, 1460) + Quot(doe, 36_524) - Quot(doe, 146_096), 365)
  }

  function DayInYear(doe: int, yoe: int): int {
    doe - (365 * yoe + Quot(yoe, 4) - Quot(yoe, 100))
  }

  function MonthAndDay(y: int, doy: int): Date {
    var mp := Quot(5 * doy + 2, 153);
    var d := doy - Quot(153 * mp + 2, 5) + 1;
    var m := if mp < 10 then mp + 3 else mp - 9;
    Date(if m <= 2 then y + 1 else y, m, d)
  }

  // ----- the era arithmetic, step by step

  /** The era of a day: floor division, whatever the sign. */
  lemma EraIsFloor(z: int)
    ensures 0 <= z - EraOf(z) * 146_097 < 146_097
  {
  }

  /** First day of year `yoe` of an era, whose years start on 1 March. */
  function MarchYearStart(yoe: int): int {
    365 * yoe + yoe / 4 - yoe / 100
  }

  function YearOfEra(doe: int): int {
    (doe - doe / 1460 + doe / 36_524 - doe / 146_096) / 365
  }

  /** A day of an era as a century, a four-year cycle, a year and a day. */
  predicate InCycles(doe: int, c: int, u: int, v: int, k: int) {
    && 0 <= c < 4 && 0 <= u < 25 && 0 <= v < 4 && 0 <= k
    && (k < 365 || (k == 365 && v == 3 && (u < 24 || c == 3)))
    && doe == 36_524 * c + 1461 * u + 365 * v + k
  }

  lemma CyclesExist(doe: int) returns (c: int, u: int, v: int, k: int)
    requires 0 <= doe < 146_097
    ensures InCycles(doe, c, u, v, k)
  {
    c := if doe / 36_524 < 4 then doe / 36_524 else 3;
    var r := doe - 36_524 * c;
    u := r / 1461;
    var s := r - 1461 * u;
    v := if s / 365 < 4 then s / 365 else 3;
    k := s - 365 * v;
  }

  /** The three corrections cancel the leap days exactly. */
  lemma YearOfEraIs(doe: int, c: int, u: int, v: int, k: int)
    requires InCycles(doe, c, u, v, k)
    ensures YearOfEra(doe) == 100 * c + 4 * u + v
  {
    var over := 24 * c + u + 365 * v + k;
    var e := if over >= 1460 then 1 else 0;
    assert doe == 1460 * (25 * c + u + e) + (over - 1460 * e);
    assert doe / 1460 == 25 * c + u + e;
    var last := if doe == 146_096 then 1 else 0;
    assert doe / 36_524 == c + last;
    assert doe / 146_096 == last;
    var y := 100 * c + 4 * u + v;
    assert doe - doe / 1460 + doe / 36_524 - doe / 146_096 == 365 * y + (k - e);
  }

  lemma MarchYearStartIs(c: int, u: int, v: int)
    requires 0 <= c && 0 <= u < 25 && 0 <= v < 4
    ensures MarchYearStart(100 * c + 4 * u + v) == 36_524 * c + 1461 * u + 365 * v
  {
    var y := 100 * c + 4 * u + v;
    assert y / 4 == 25 * c + u;
    assert y / 100 == c;
  }

  /** Days in the year that starts on 1 March of `y`: its February is next year's. */
  function MarchYearLength(y: int): int {
    if IsLeap(y + 1) then 366 else 365
  }

  /** The year found is the one the day lies in. */
  lemma YearOfEraBrackets(doe: int)
    requires 0 <= doe < 146_097
    ensures var yoe := YearOfEra(doe);
            0 <= yoe < 400 && 0 <= doe - MarchYearStart(yoe) < MarchYearLength(yoe)
  {
    var c, u, v, k := CyclesExist(doe);
    YearOfEraIs(doe, c, u, v, k);
    MarchYearStartIs(c, u, v);
    if k == 365 {
      var next := 100 * c + 4 * u + v + 1;
      assert next == 4 * (25 * c + u + 1);
      if next % 100 == 0 {
        assert c == 3 && u == 24;
      }
    }
  }

  lemma MonthStarts(y: int)
    ensures var feb := DaysInMonth(y, 2);
      && DaysBeforeMonth(y, 1) == 0 && DaysBeforeMonth(y, 2) == 31 && DaysBeforeMonth(y, 3) == 31 + feb
      && DaysBeforeMonth(y, 4) == 62 + feb && DaysBeforeMonth(y, 5) == 92 + feb
      && DaysBeforeMonth(y, 6) == 123 + feb && DaysBeforeMonth(y, 7) == 153 + feb
      && DaysBeforeMonth(y, 8) == 184 + feb && DaysBeforeMonth(y, 9) == 215 + feb
      && DaysBeforeMonth(y, 10) == 245 + feb && DaysBeforeMonth(y, 11) == 276 + feb
      && DaysBeforeMonth(y, 12) == 306 + feb
  {
    var feb := DaysInMonth(y, 2);
    assert DaysBeforeMonth(y, 2) == DaysBeforeMonth(y, 1) + 31;
    assert DaysBeforeMonth(y, 3) == DaysBeforeMonth(y, 2) + feb;
    assert DaysBeforeMonth(y, 4) == DaysBeforeMonth(y, 3) + 31;
    assert DaysBeforeMonth(y, 5) == DaysBeforeMonth(y, 4) + 30;
    assert DaysBeforeMonth(y, 6) == DaysBeforeMonth(y, 5) + 31;
    assert DaysBeforeMonth(y, 7) == DaysBeforeMonth(y, 6) + 30;
    assert DaysBeforeMonth(y, 8) == DaysBeforeMonth(y, 7) + 31;
    assert DaysBeforeMonth(y, 9) == DaysBeforeMonth(y, 8) + 31;
    assert DaysBeforeMonth(y, 10) == DaysBeforeMonth(y, 9) + 30;
    assert DaysBeforeMonth(y, 11) == DaysBeforeMonth(y, 10) + 31;
    assert DaysBeforeMonth(y, 12) == DaysBeforeMonth(y, 11) + 30;
  }

  /** The date of day `doy` of the year that starts on 1 March of `y`. */
  function DateOfMarchDay(y: int, doy: int): Date {
    var mp := (5 * doy + 2) / 153;
    var m := if mp < 10 then mp + 3 else mp - 9;
    Date(if m <= 2 then y + 1 else y, m, doy - (153 * mp + 2) / 5 + 1)
  }

  /** Month and day from the day of a March-based year. */
  lemma MarchDays(y: int, doy: int)
    requires 0 <= doy < MarchYearLength(y)
    ensures var date := DateOfMarchDay(y, doy);
            ValidDate(date) && DaysOfDate(date) == DaysOfDate(Date(y, 3, 1)) + doy
  {
    hide DaysBeforeMonth, LeapsThrough;
    MonthStarts(y);
    MonthStarts(y + 1);
    YearsAddUp(y);
    var mp := (5 * doy + 2) / 153;
    assert 0 <= mp <= 11;
  }

  /** A new year starts 365 or 366 days after the last. */
  lemma YearsAddUp(y: int)
    ensures DaysBeforeYear(0) == 0
    ensures DaysBeforeYear(y + 1) == DaysBeforeYear(y) + (if IsLeap(y) then 366 else 365)
  {
    LeapStep(y);
  }

  lemma LeapStep(y: int)
    ensures LeapsThrough(y) == LeapsThrough(y - 1) + (if IsLeap(y) then 1 else 0)
  {
    DivStep(y, 4);
    DivStep(y, 100);
    DivStep(y, 400);
  }

  lemma DivStep(y: int, n: int)
    requires n == 4 || n == 100 || n == 400
    ensures y / n == (y - 1) / n + (if y % n == 0 then 1 else 0)
  {
  }

  lemma EraShift(y: int, era: int, n: int, k: int)
    requires (n == 4 && k == 100) || (n == 100 && k == 4) || (n == 400 && k == 1)
    ensures (y + 400 * era) / n == k * era + y / n
    ensures (y + 400 * era) % n == y % n
  {
  }

  /** Leap years repeat every 400 years, 97 to an era. */
  lemma LeapsPerEra(y: int, era: int)
    requires 0 <= y < 400
    ensures LeapsThrough(y + 400 * era) == 97 * era + y / 4 - y / 100
    ensures IsLeap(y + 400 * era + 1) <==> IsLeap(y + 1)
  {
    EraShift(y, era, 4, 100);
    EraShift(y, era, 100, 4);
    EraShift(y, era, 400, 1);
    EraShift(y + 1, era, 4, 100);
    EraShift(y + 1, era, 100, 4);
    EraShift(y + 1, era, 400, 1);
    assert y + 1 + 400 * era == y + 400 * era + 1;
  }

  // ----- main results

  /** On a day of an era no quotient is negative, so toward zero is down. */
  lemma StepsAreFloors(doe: int)
    requires 0 <= doe < 146_097
    ensures var yoe := YearOfEra(doe);
            YearInEra(doe) == yoe && (yoe >= 0 ==> DayInYear(doe, yoe) == doe - MarchYearStart(yoe))
  {
    assert doe - doe / 1460 + doe / 36_524 - doe / 146_096 >= 0;
  }

  lemma MonthIsFloor(y: int, doy: int)
    requires 0 <= doy
    ensures MonthAndDay(y, doy) == DateOfMarchDay(y, doy)
  {
  }

  /** The algorithm names the day `doy` of the March-based year it lies in. */
  lemma CivilIsMarchDay(days: int) returns (yoe: int, era: int, doy: int)
    ensures 0 <= yoe < 400 && 0 <= doy < MarchYearLength(yoe)
    ensures days + 719_468 == era * 146_097 + MarchYearStart(yoe) + doy
    ensures CivilFromDays(days) == DateOfMarchDay(yoe + 400 * era, doy)
  {
    hide MarchYearLength, MarchYearStart, EraOf, YearInEra, YearOfEra, DayInYear, MonthAndDay, DateOfMarchDay;
    var z := days + 719_468;
    era := EraOf(z);
    EraIsFloor(z);
    var doe := z - era * 146_097;
    yoe := YearOfEra(doe);
    YearOfEraBrackets(doe);
    StepsAreFloors(doe);
    doy := doe - MarchYearStart(yoe);
    MonthIsFloor(yoe + 400 * era, doy);
  }

  lemma MarchFirst(y: int)
    ensures DaysOfDate(Date(y, 3, 1)) == 365 * y + LeapsThrough(y) - 719_468
  {
    hide DaysBeforeMonth;
    MonthStarts(y);
    LeapStep(y);
    assert LeapsThrough(1969) == 477;
  }

  /** Every integer is the day number of the valid date it maps to. */
  lemma CivilFromDaysCounts(days: int)
    ensures ValidDate(CivilFromDays(days)) && DaysOfDate(CivilFromDays(days)) == days
  {
    hide DaysOfDate, LeapsThrough, CivilFromDays, DateOfMarchDay;
    var yoe, era, doy := CivilIsMarchDay(days);
    var y := yoe + 400 * era;
    LeapsPerEra(yoe, era);
    MarchFirst(y);
    MarchDays(y, doy);
  }

  /** Month lengths fill a year. */
  lemma YearOfMonths(y: int)
    ensures DaysBeforeMonth(y, 12) + 31 == if IsLeap(y) then 366 else 365
  {
    MonthStarts(y);
  }

  /** The next date is one day later. */
  lemma NextDateCounts(d: Date)
    requires ValidDate(d)
    ensures ValidDate(NextDate(d)) && DaysOfDate(NextDate(d)) == DaysOfDate(d) + 1
  {
    hide DaysBeforeYear;
    YearsAddUp(d.year);
    YearOfMonths(d.year);
  }

  lemma {:induction false} MonthsGrow(y: int, m: int, n: int)
    requires 1 <= m < n <= 12
    ensures DaysBeforeMonth(y, m) + DaysInMonth(y, m) <= DaysBeforeMonth(y, n)
    decreases n
  {
    if m + 1 < n {
      MonthsGrow(y, m, n - 1);
    }
  }

  lemma {:induction false} YearsGrow(y: int, z: int)
    requires y < z
    ensures DaysBeforeYear(y + 1) <= DaysBeforeYear(z)
    decreases z - y
  {
    if y + 1 < z {
      hide DaysBeforeYear;
      YearsGrow(y, z - 1);
      YearsAddUp(z - 1);
    }
  }

  /** Day numbers grow with the date. */
  lemma DaysOfDateIsMonotone(a: Date, b: Date)
    requires ValidDate(a) && ValidDate(b)
    ensures Earlier(a, b) <==> DaysOfDate(a) < DaysOfDate(b)
    ensures a == b <==> DaysOfDate(a) == DaysOfDate(b)
  {
    if Earlier(a, b) {
      EarlierCounts(a, b);
    } else if Earlier(b, a) {
      EarlierCounts(b, a);
    }
  }

  lemma EarlierCounts(a: Date, b: Date)
    requires ValidDate(a) && ValidDate(b) && Earlier(a, b)
    ensures DaysOfDate(a) < DaysOfDate(b)
  {
    hide DaysBeforeYear, DaysBeforeMonth;
    if a.year < b.year {
      YearsGrow(a.year, b.year);
      YearsAddUp(a.year);
      YearOfMonths(a.year);
      DayOfYear(a);
      DayOfYear(b);
    } else if a.month < b.month {
      MonthsGrow(a.year, a.month, b.month);
    }
  }

  lemma DayOfYear(d: Date)
    requires ValidDate(d)
    ensures 1 <= DaysBeforeMonth(d.year, d.month) + d.day <= DaysBeforeMonth(d.year, 12) + 31
  {
    hide DaysBeforeMonth;
    MonthStarts(d.year);
    if d.month < 12 {
      MonthsGrow(d.year, d.month, 12);
    }
  }

  lemma EpochIsDayZero()
    ensures CivilFromDays(0) == Date(1970, 1, 1)
  {
  }

  /** Day 0 is the epoch, and each day is followed by its calendar successor. */
  lemma CivilFollowsTheCalendar(days: int)
    ensures CivilFromDays(0) == Date(1970, 1, 1)
    ensures ValidDate(CivilFromDays(days))
    ensures CivilFromDays(days + 1) == NextDate(CivilFromDays(days))
  {
    EpochIsDayZero();
    var d, e := CivilFromDays(days), CivilFromDays(days + 1);
    CivilFromDaysCounts(days);
    CivilFromDaysCounts(days + 1);
    hide DaysOfDate, CivilFromDays;
    NextDateCounts(d);
    DaysOfDateIsMonotone(NextDate(d), e);
  }

  /** A strictly increasing bijection from the integers onto the valid dates. */
  lemma CivilIsOrderIsomorphism(days: int, later: int, date: Date)
    requires ValidDate(date)
    ensures CivilFromDays(DaysOfDate(date)) == date
    ensures DaysOfDate(CivilFromDays(days)) == days
    ensures days < later <==> Earlier(CivilFromDays(days), CivilFromDays(later))
  {
    hide DaysOfDate, CivilFromDays;
    CivilFromDaysCounts(days);
    CivilFromDaysCounts(later);
    CivilFromDaysCounts(DaysOfDate(date));
    DaysOfDateIsMonotone(CivilFromDays(DaysOfDate(date)), date);
    DaysOfDateIsMonotone(CivilFromDays(days), CivilFromDays(later));
  }
}
