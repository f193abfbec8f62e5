/**
 * Dates as java.time.LocalDate represents them: the ISO-8601 proleptic Gregorian
 * calendar. A date is modelled by its epoch day (LocalDate.toEpochDay), so that
 * isBefore is `<`, plusDays(n) is `+ n` and ChronoUnit.DAYS.between is a
 * difference; the year/month/day view is recovered through CivilOf.
 */
module Calendar {

  /** A LocalDate, as the number of days since 1970-01-01. */
  type Day = int

  /** A LocalDate as year, month (1..12) and day of month. */
  datatype Civil = Civil(year: int, month: int, day: int)

  predicate IsLeapYear(y: int) {
    y % 4 == 0 && (y % 100 != 0 || y % 400 == 0)
  }

  function DaysInMonth(y: int, m: int): (n: int)
    requires 1 <= m <= 12
    ensures 28 <= n <= 31
    ensures n == 29 <==> m == 2 && IsLeapYear(y)
  {
    if m == 2 then (if IsLeapYear(y) then 29 else 28)
    else if m == 4 || m == 6 || m == 9 || m == 11 then 30
    else 31
  }

  predicate ValidCivil(c: Civil) {
    1 <= c.month <= 12 && 1 <= c.day <= DaysInMonth(c.year, c.month)
  }

  /**
   * The epoch day of March 1 of year y, counting the Gregorian leap days
   * (every fourth year, except centuries not divisible by 400) before it.
   */
  function MarchFirst(y: int): Day {
    365 * y + y / 4 - y / 100 + y / 400 - 719468
  }

  /** The month counted from March: March is 0, ..., January 10, February 11. */
  function MonthFromMarch(m: int): int {
    if m > 2 then m - 3 else m + 9
  }

  /** Days from March 1 to the first day of the month with index mp from March. */
  function DaysBeforeMonthFromMarch(mp: int): int {
    (153 * mp + 2) / 5
  }

  /** LocalDate.toEpochDay of a year/month/day. */
  function EpochDayOf(c: Civil): Day {
    var marchYear := if c.month <= 2 then c.year - 1 else c.year;
    MarchFirst(marchYear) + DaysBeforeMonthFromMarch(MonthFromMarch(c.month)) + c.day - 1
  }

  function Min(a: int, b: int): int {
    if a <= b then a else b
  }

  /** Splits a day of a 400-year era into its century (the last one a day longer) and the day of that century. */
  function SplitCentury(doe: int): (cd: (int, int))
    requires 0 <= doe < 146097
    ensures 0 <= cd.0 <= 3 && 0 <= cd.1 <= 36524
    ensures doe == 36524 * cd.0 + cd.1
    ensures cd.1 == 36524 ==> cd.0 == 3
  {
    var century := Min(doe / 36524, 3);
    (century, doe - 36524 * century)
  }

  /** Splits a day of a century into its four-year block and the day of that block. */
  function SplitQuad(doc: int): (qd: (int, int))
    requires 0 <= doc <= 36524
    ensures 0 <= qd.0 <= 24 && 0 <= qd.1 <= 1460
    ensures doc == 1461 * qd.0 + qd.1
  {
    (doc / 1461, doc % 1461)
  }

  /** Splits a day of a four-year block into its year (the last one a day longer) and the day of that year. */
  function SplitYear(doq: int): (yd: (int, int))
    requires 0 <= doq <= 1460
    ensures 0 <= yd.0 <= 3 && 0 <= yd.1 <= 365
    ensures doq == 365 * yd.0 + yd.1
    ensures yd.1 == 365 ==> yd.0 == 3 && doq == 1460
  {
    var year := Min(doq / 365, 3);
    (year, doq - 365 * year)
  }

  /** Splits a day of a 400-year era into the March-based year of the era and the day of that year. */
  function SplitEra(doe: int): (yd: (int, int))
    requires 0 <= doe < 146097
    ensures 0 <= yd.0 < 400 && 0 <= yd.1 <= 365
    ensures doe == 365 * yd.0 + yd.0 / 4 - yd.0 / 100 + yd.1
    ensures yd.1 == 365 ==> IsLeapYear(yd.0 + 1)
  {
    var cd := SplitCentury(doe);
    var qd := SplitQuad(cd.1);
    var yd := SplitYear(qd.1);
    var yoe := 100 * cd.0 + 4 * qd.0 + yd.0;
    EraYearQuotients(cd.0, qd.0, yd.0);
    assert yd.1 == 365 ==> IsLeapYear(yoe + 1) by {
      if yd.1 == 365 {
        LeapYearOfEraEnd(cd.0, qd.0, yd.0);
      }
    }
    (yoe, yd.1)
  }

  /**
   * LocalDate.ofEpochDay: splits the days since 0000-03-01 into a 400-year era,
   * the March-based year of that era, and the month and day of that year.
   */
  function CivilOf(z: Day): Civil {
    var shifted := z + 719468;
    var era := shifted / 146097;
    var yd := SplitEra(shifted % 146097);
    var mp := (5 * yd.1 + 2) / 153;
    var marchYear := 400 * era + yd.0;
    var m := if mp < 10 then mp + 3 else mp - 9;
    Civil(if m <= 2 then marchYear + 1 else marchYear, m, yd.1 - DaysBeforeMonthFromMarch(mp) + 1)
  }

  /** LocalDate.getMonthValue. */
  function MonthValue(z: Day): int {
    CivilOf(z).month
  }

  /** The day after a date, as plusDays(1) computes it on year/month/day. */
  function NextDay(c: Civil): (n: Civil)
    requires ValidCivil(c)
  {
    if c.day < DaysInMonth(c.year, c.month) then Civil(c.year, c.month, c.day + 1)
    else if c.month < 12 then Civil(c.year, c.month + 1, 1)
    else Civil(c.year + 1, 1, 1)
  }

  // ---------------------------------------------------------------------------
  // Properties

  /** The days of March-based year y, March 1 included, through the last of February. */
  lemma {:induction false} MarchYearLength(y: int)
    ensures MarchFirst(y + 1) - MarchFirst(y) == if IsLeapYear(y + 1) then 366 else 365
  {
    var n := y + 1;
    StepQuotient(y, 4);
    StepQuotient(y, 100);
    StepQuotient(y, 400);
  }

  /** Moving from y to y + 1 raises y / k by one exactly when k divides y + 1. */
  lemma StepQuotient(y: int, k: int)
    requires k == 4 || k == 100 || k == 400
    ensures (y + 1) / k - y / k == if (y + 1) % k == 0 then 1 else 0
  {
    var q := y / k;
    var r := y % k;
    assert y == k * q + r && 0 <= r < k;
    if r == k - 1 {
      assert y + 1 == k * (q + 1);
      assert (y + 1) / k == q + 1 && (y + 1) % k == 0;
    } else {
      assert y + 1 == k * q + (r + 1);
      assert (y + 1) / k == q && (y + 1) % k == r + 1;
    }
  }

  /** The number of the first day of each month is where the previous month ends. */
  lemma MonthStarts(mp: int)
    requires 0 <= mp < 11
    ensures DaysBeforeMonthFromMarch(mp + 1) - DaysBeforeMonthFromMarch(mp)
         == DaysInMonth(2001, if mp < 10 then mp + 3 else mp - 9)
  {
  }

  /** March 1 of a year inside an era, counted from the era's first March 1. */
  lemma MarchFirstInEra(era: int, yoe: int)
    requires 0 <= yoe < 400
    ensures MarchFirst(400 * era + yoe) == 146097 * era + 365 * yoe + yoe / 4 - yoe / 100 - 719468
  {
    var y := 400 * era + yoe;
    assert y / 4 == 100 * era + yoe / 4;
    assert y / 100 == 4 * era + yoe / 100;
    assert y / 400 == era;
  }

  /** The month (from March) that a day of the March-based year falls in. */
  lemma MonthOfDayOfYear(doy: int)
    requires 0 <= doy <= 365
    ensures var mp := (5 * doy + 2) / 153;
            && 0 <= mp <= 11
            && DaysBeforeMonthFromMarch(mp) <= doy
            && (mp < 11 ==> doy < DaysBeforeMonthFromMarch(mp + 1))
  {
  }

  /** The year/month/day that CivilOf produces decomposes the day count exactly. */
  lemma {:induction false} CivilOfDecomposition(z: Day)
    ensures var c := CivilOf(z);
            var mp := MonthFromMarch(c.month);
            var marchYear := if c.month <= 2 then c.year - 1 else c.year;
            && 0 <= mp <= 11
            && 0 <= DaysBeforeMonthFromMarch(mp) + c.day - 1 <= 365
            && z == MarchFirst(marchYear) + DaysBeforeMonthFromMarch(mp) + c.day - 1
  {
    var shifted := z + 719468;
    var era := shifted / 146097;
    var yd := SplitEra(shifted % 146097);
    MarchFirstInEra(era, yd.0);
    MonthOfDayOfYear(yd.1);
  }

  /** Every epoch day names the date CivilOf gives it: EpochDayOf undoes CivilOf. */
  lemma EpochDayOfCivilOf(z: Day)
    ensures EpochDayOf(CivilOf(z)) == z
  {
    CivilOfDecomposition(z);
  }

  /** Leap years repeat every 400 years. */
  lemma LeapYearPeriod(era: int, n: int)
    ensures IsLeapYear(400 * era + n) == IsLeapYear(n)
  {
    var y := 400 * era + n;
    assert y / 4 == 100 * era + n / 4;
    assert y / 100 == 4 * era + n / 100;
    assert y / 400 == era + n / 400;
  }

  /** CivilOf produces a real calendar date: a month of 1..12 and a day within that month. */
  lemma CivilOfIsValid(z: Day)
    ensures ValidCivil(CivilOf(z))
  {
    var shifted := z + 719468;
    var era := shifted / 146097;
    var doe := shifted % 146097;
    var yd := SplitEra(doe);
    var mp := (5 * yd.1 + 2) / 153;
    CivilOfEra(z, era, doe, yd.0, yd.1, mp);
    DayOfYearIsValid(era, yd.0, yd.1, mp);
  }

  /** The month and day CivilOf reads off a day of a March-based year form a real date. */
  lemma DayOfYearIsValid(era: int, yoe: int, doy: int, mp: int)
    requires 0 <= yoe < 400 && 0 <= doy <= 365 && (doy == 365 ==> IsLeapYear(yoe + 1))
    requires mp == (5 * doy + 2) / 153
    ensures var m := if mp < 10 then mp + 3 else mp - 9;
            ValidCivil(Civil(if m <= 2 then 400 * era + yoe + 1 else 400 * era + yoe, m, doy - DaysBeforeMonthFromMarch(mp) + 1))
  {
    MonthOfDayOfYear(doy);
    var m := if mp < 10 then mp + 3 else mp - 9;
    var day := doy - DaysBeforeMonthFromMarch(mp) + 1;
    var year := if m <= 2 then 400 * era + yoe + 1 else 400 * era + yoe;
    if mp < 11 {
      MonthStarts(mp);
      assert m != 2;
      assert DaysInMonth(year, m) == DaysInMonth(2001, m);
    } else {
      assert m == 2 && year == 400 * era + yoe + 1;
      LeapYearPeriod(era, yoe + 1);
      assert day <= 29;
      assert day == 29 ==> doy == 365;
    }
  }

  /** A calendar date is the CivilOf of its epoch day: CivilOf undoes EpochDayOf. */
  lemma {:induction false} CivilOfEpochDayOf(c: Civil)
    requires ValidCivil(c)
    ensures CivilOf(EpochDayOf(c)) == c
  {
    var marchYear := if c.month <= 2 then c.year - 1 else c.year;
    var mp := MonthFromMarch(c.month);
    var doy := DaysBeforeMonthFromMarch(mp) + c.day - 1;
    var era := marchYear / 400;
    var yoe := marchYear % 400;
    assert marchYear == 400 * era + yoe;
    MarchFirstInEra(era, yoe);
    DayOfYearInRange(c);
    if doy == 365 {
      assert c.month == 2 && c.day == 29;
      LeapYearPeriod(era, yoe + 1);
    }
    var doe := 365 * yoe + yoe / 4 - yoe / 100 + doy;
    DayOfEraUnique(yoe, doy);
    var z := EpochDayOf(c);
    assert z + 719468 == 146097 * era + doe;
    var m := if mp < 10 then mp + 3 else mp - 9;
    assert m == c.month;
    if mp < 11 {
      assert DaysInMonth(2001, m) == DaysInMonth(c.year, c.month);
    }
    MonthOfDayInMonth(mp, c.day);
    CivilOfEra(z, era, doe, yoe, doy, mp);
  }

  /** CivilOf of a day given as an era, a year of that era, a day of that year and its month. */
  lemma CivilOfEra(z: Day, era: int, doe: int, yoe: int, doy: int, mp: int)
    requires 0 <= doe < 146097 && z + 719468 == 146097 * era + doe
    requires SplitEra(doe) == (yoe, doy) && (5 * doy + 2) / 153 == mp
    ensures var m := if mp < 10 then mp + 3 else mp - 9;
            CivilOf(z) == Civil(if m <= 2 then 400 * era + yoe + 1 else 400 * era + yoe, m, doy - DaysBeforeMonthFromMarch(mp) + 1)
  {
    assert (z + 719468) / 146097 == era;
    assert (z + 719468) % 146097 == doe;
  }

  /** The day of the March-based year of a calendar date, and when it can be the 366th. */
  lemma DayOfYearInRange(c: Civil)
    requires ValidCivil(c)
    ensures var doy := DaysBeforeMonthFromMarch(MonthFromMarch(c.month)) + c.day - 1;
            0 <= doy <= 365 && (doy == 365 ==> c.month == 2 && c.day == 29)
  {
    var mp := MonthFromMarch(c.month);
    if mp < 11 {
      MonthStarts(mp);
    }
  }

  /** A day inside month mp (counted from March) is recognised as belonging to mp. */
  lemma MonthOfDayInMonth(mp: int, day: int)
    requires 0 <= mp <= 11 && 1 <= day
    requires mp < 11 ==> day <= DaysInMonth(2001, if mp < 10 then mp + 3 else mp - 9)
    requires mp == 11 ==> day <= 29
    ensures (5 * (DaysBeforeMonthFromMarch(mp) + day - 1) + 2) / 153 == mp
  {
  }

  /** Each day of an era comes from exactly one year of the era and day of that year. */
  lemma {:induction false} DayOfEraUnique(yoe: int, doy: int)
    requires 0 <= yoe < 400 && 0 <= doy <= 365
    requires doy == 365 ==> IsLeapYear(yoe + 1)
    ensures var doe := 365 * yoe + yoe / 4 - yoe / 100 + doy;
            0 <= doe < 146097 && SplitEra(doe) == (yoe, doy)
  {
    var century, quad, year := YearOfEraParts(yoe);
    LeapYearOfEraEnd(century, quad, year);
    var doq := 365 * year + doy;
    var doc := 1461 * quad + doq;
    SplitYearOf(year, doy);
    SplitQuadOf(quad, doq);
    SplitCenturyOf(century, doc);
    SplitEraOf(century, quad, year, doy);
  }

  /** A year of an era as whole centuries, four-year groups and single years. */
  lemma YearOfEraParts(yoe: int) returns (century: int, quad: int, year: int)
    requires 0 <= yoe < 400
    ensures 0 <= century <= 3 && 0 <= quad <= 24 && 0 <= year <= 3
    ensures yoe == 100 * century + 4 * quad + year
  {
    century := yoe / 100;
    quad := (yoe % 100) / 4;
    year := yoe % 4;
  }

  /** The divisions by 4 and by 100 of a year of an era given in parts. */
  lemma EraYearQuotients(century: int, quad: int, year: int)
    requires 0 <= century <= 3 && 0 <= quad <= 24 && 0 <= year <= 3
    ensures (100 * century + 4 * quad + year) / 4 == 25 * century + quad
    ensures (100 * century + 4 * quad + year) / 100 == century
  {
    var yoe := 100 * century + 4 * quad + year;
    assert yoe == 4 * (25 * century + quad) + year;
    assert yoe == 100 * century + (4 * quad + year) && 4 * quad + year < 100;
  }

  /**
   * The year following a year of an era is a leap year exactly when that year ends
   * its four-year group, and, for the last group of a century, the century is the era's last.
   */
  lemma LeapYearOfEraEnd(century: int, quad: int, year: int)
    requires 0 <= century <= 3 && 0 <= quad <= 24 && 0 <= year <= 3
    ensures IsLeapYear(100 * century + 4 * quad + year + 1) <==> year == 3 && (quad == 24 ==> century == 3)
  {
    var y := 100 * century + 4 * quad + year + 1;
    if year < 3 {
      assert y == 4 * (25 * century + quad) + (year + 1);
      assert y % 4 == year + 1;
    } else if quad < 24 {
      assert y == 4 * (25 * century + quad + 1);
      assert y == 100 * century + (4 * quad + 4);
      assert y % 100 == 4 * quad + 4;
    } else {
      assert y == 100 * (century + 1);
      assert y % 100 == 0;
      if century < 3 {
        assert y % 400 == 100 * (century + 1);
      } else {
        assert y == 400;
      }
    }
  }

  /** SplitEra undoes the composition of its three splits. */
  lemma SplitEraOf(century: int, quad: int, year: int, doy: int)
    requires 0 <= century <= 3 && 0 <= quad <= 24 && 0 <= year <= 3 && 0 <= doy <= 365
    requires doy == 365 ==> year == 3 && (quad == 24 ==> century == 3)
    requires SplitYear(365 * year + doy) == (year, doy)
    requires SplitQuad(1461 * quad + 365 * year + doy) == (quad, 365 * year + doy)
    requires 36524 * century + 1461 * quad + 365 * year + doy < 146097
    requires SplitCentury(36524 * century + 1461 * quad + 365 * year + doy) == (century, 1461 * quad + 365 * year + doy)
    ensures var yoe := 100 * century + 4 * quad + year;
            SplitEra(36524 * century + 1461 * quad + 365 * year + doy) == (yoe, doy)
            && 36524 * century + 1461 * quad + 365 * year + doy == 365 * yoe + yoe / 4 - yoe / 100 + doy
  {
    EraYearQuotients(century, quad, year);
  }

  lemma SplitCenturyOf(century: int, doc: int)
    requires 0 <= century <= 3 && 0 <= doc <= 36524 && (doc == 36524 ==> century == 3)
    ensures 0 <= 36524 * century + doc < 146097
    ensures SplitCentury(36524 * century + doc) == (century, doc)
  {
    var doe := 36524 * century + doc;
    if doc < 36524 {
      assert doe / 36524 == century;
    } else {
      assert doe / 36524 == 4;
    }
  }

  lemma SplitQuadOf(quad: int, doq: int)
    requires 0 <= quad <= 24 && 0 <= doq <= 1460
    ensures 0 <= 1461 * quad + doq <= 36524
    ensures SplitQuad(1461 * quad + doq) == (quad, doq)
  {
    var doc := 1461 * quad + doq;
    assert doc / 1461 == quad;
    assert doc % 1461 == doq;
  }

  lemma SplitYearOf(year: int, doy: int)
    requires 0 <= year <= 3 && 0 <= doy <= 365 && (doy == 365 ==> year == 3)
    ensures 0 <= 365 * year + doy <= 1460
    ensures SplitYear(365 * year + doy) == (year, doy)
  {
    var doq := 365 * year + doy;
    if doy < 365 {
      assert doq / 365 == year;
    } else {
      assert doq / 365 == 4;
    }
  }

  /** The epoch day counts calendar days: the day after a date has the next epoch day. */
  lemma {:induction false} EpochDayOfNextDay(c: Civil)
    requires ValidCivil(c)
    ensures ValidCivil(NextDay(c))
    ensures EpochDayOf(NextDay(c)) == EpochDayOf(c) + 1
  {
    if c.day == DaysInMonth(c.year, c.month) {
      if c.month == 2 {
        MarchYearLength(c.year - 1);
      } else if c.month < 12 {
        MonthStarts(MonthFromMarch(c.month));
      }
    }
  }

  /** The epoch starts at 1970-01-01. */
  lemma EpochStart()
    ensures EpochDayOf(Civil(1970, 1, 1)) == 0
    ensures CivilOf(0) == Civil(1970, 1, 1)
  {
    assert 1969 / 4 == 492 && 1969 / 100 == 19 && 1969 / 400 == 4;
    assert MarchFirst(1969) == -306;
    assert DaysBeforeMonthFromMarch(10) == 306;
    CivilOfEpochDayOf(Civil(1970, 1, 1));
  }
}
