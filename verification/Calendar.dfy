/** The conversion of day numbers to calendar dates, behind the names of runs. */
module Calendar {

  datatype Date = Date(year: int, month: int, day: int)

  /** Division as Rust performs it on signed integers: toward zero. */
  function TruncDiv(a: int, b: int): int
    requires b > 0
  {
    if a >= 0 then a / b else -((-a) / b)
  }

  function CivilFromDays(daysSinceEpoch: int): Date {
    var z := daysSinceEpoch + 719_468;
    var era := TruncDiv(if z >= 0 then z else z - 146_096, 146_097);
    CivilInEra(era, z - era * 146_097)
  }

  /** The date of day `doe` of a 400-year era. */
  function CivilInEra(era: int, doe: int): Date {
    var yoe := TruncDiv(doe - TruncDiv(doe, 1460) + TruncDiv(doe, 36_524) - TruncDiv(doe, 146_096), 365);
    MarchDate(yoe + era * 400, doe - (365 * yoe + TruncDiv(yoe, 4) - TruncDiv(yoe, 100)))
  }

  /** The date of day `doy` of a year that begins on the first of March. */
  function MarchDate(y: int, doy: int): Date {
    var mp := TruncDiv(5 * doy + 2, 153);
    var d := doy - TruncDiv(153 * mp + 2, 5) + 1;
    var m := mp + (if mp < 10 then 3 else -9);
    Date(if m <= 2 then y + 1 else y, m, d)
  }

  // ------------------------------------------------ the proleptic Gregorian calendar

  predicate LeapYear(year: int) {
    year % 4 == 0 && (year % 100 != 0 || year % 400 == 0)
  }

  /** Month lengths, section 5.7 of RFC 3339. */
  function MonthLength(year: int, month: int): int
    requires 1 <= month <= 12
  {
    if month == 2 then (if LeapYear(year) then 29 else 28)
    else if month in {4, 6, 9, 11} then 30
    else 31
  }

  predicate ValidDate(date: Date) {
    1 <= date.month <= 12 && 1 <= date.day <= MonthLength(date.year, date.month)
  }

  function NextDay(date: Date): Date
    requires ValidDate(date)
  {
    if date.day < MonthLength(date.year, date.month) then Date(date.year, date.month, date.day + 1)
    else if date.month < 12 then Date(date.year, date.month + 1, 1)
    else Date(date.year + 1, 1, 1)
  }

  /** Days from 1970-01-01 to the first of January of a year, counted year by year. */
  function YearStart(year: int): int
    decreases if year >= 1970 then year - 1970 else 1970 - year
  {
    if year == 1970 then 0
    else if year > 1970 then YearStart(year - 1) + (if LeapYear(year - 1) then 366 else 365)
    else YearStart(year + 1) - (if LeapYear(year) then 366 else 365)
  }

  /** Days from the first of January to the first of a month, counted month by month. */
  function MonthStart(year: int, month: int): int
    requires 1 <= month <= 12
  {
    if month == 1 then 0 else MonthStart(year, month - 1) + MonthLength(year, month - 1)
  }

  /** Counting days: the independent definition that the conversion must invert. */
  function DayNumber(date: Date): int
    requires ValidDate(date)
  {
    YearStart(date.year) + MonthStart(date.year, date.month) + date.day - 1
  }

  // ------------------------------------------------ counting in closed form

  /** Leap years before a year, on the proleptic count. */
  function LeapsBefore(year: int): int {
    (year - 1) / 4 - (year - 1) / 100 + (year - 1) / 400
  }

  lemma QuotientStep4(n: int)
    ensures n / 4 == (n - 1) / 4 + (if n % 4 == 0 then 1 else 0)
  {
  }

  lemma QuotientStep100(n: int)
    ensures n / 100 == (n - 1) / 100 + (if n % 100 == 0 then 1 else 0)
    ensures n % 100 == 0 ==> n % 4 == 0
  {
  }

  lemma QuotientStep400(n: int)
    ensures n / 400 == (n - 1) / 400 + (if n % 400 == 0 then 1 else 0)
    ensures n % 400 == 0 ==> n % 100 == 0
  {
  }

  lemma LeapsBeforeStep(year: int)
    ensures LeapsBefore(year + 1) == LeapsBefore(year) + (if LeapYear(year) then 1 else 0)
  {
    QuotientStep4(year);
    QuotientStep100(year);
    QuotientStep400(year);
  }

  lemma {:induction false} YearStartClosed(year: int)
    ensures YearStart(year) == 365 * (year - 1970) + LeapsBefore(year) - 477
    decreases if year >= 1970 then year - 1970 else 1970 - year
  {
    if year > 1970 {
      YearStartClosed(year - 1);
      LeapsBeforeStep(year - 1);
    } else if year < 1970 {
      YearStartClosed(year + 1);
      LeapsBeforeStep(year);
    }
  }

  lemma MonthStartClosed(year: int, month: int)
    requires 1 <= month <= 12
    ensures var leap := if LeapYear(year) then 1 else 0;
            MonthStart(year, month)
            == [0, 31, 59 + leap, 90 + leap, 120 + leap, 151 + leap, 181 + leap, 212 + leap,
                243 + leap, 273 + leap, 304 + leap, 334 + leap][month - 1]
  {
    var m := 1;
    while m < month
      invariant 1 <= m <= month
      invariant var leap := if LeapYear(year) then 1 else 0;
                MonthStart(year, m)
                == [0, 31, 59 + leap, 90 + leap, 120 + leap, 151 + leap, 181 + leap, 212 + leap,
                    243 + leap, 273 + leap, 304 + leap, 334 + leap][m - 1]
    {
      m := m + 1;
    }
  }

  // ------------------------------------------------ the conversion, stage by stage

  /** Day of the era to year of the era and day of that year; years begin in March, so that a
      leap day comes last. Century c, four-year cycle k and year t of the cycle name the year. */
  lemma YearOfEra(doe: int) returns (c: int, k: int, t: int, doy: int)
    requires 0 <= doe < 146_097
    ensures 0 <= c < 4 && 0 <= k < 25 && 0 <= t < 4
    ensures 0 <= doy <= 365
    ensures doy == 365 ==> t == 3 && (k == 24 ==> c == 3)
    ensures doe == 36_524 * c + 1461 * k + 365 * t + doy
    ensures (doe - doe / 1460 + doe / 36_524 - doe / 146_096) / 365 == 100 * c + 4 * k + t
  {
    if doe == 146_096 {
      c, k, t, doy := 3, 24, 3, 365;
    } else {
      c := doe / 36_524;
      var r := doe - 36_524 * c;
      k := r / 1461;
      var s := r - 1461 * k;
      t := if s == 1460 then 3 else s / 365;
      doy := s - 365 * t;
      var carry := (24 * c + k + s) / 1460;
      assert doe / 1460 == 25 * c + k + carry;
      assert 0 <= carry <= 1;
      assert carry == 1 ==> t == 3 && s >= 1364;
      assert doe - doe / 1460 + doe / 36_524 == 365 * (100 * c + 4 * k) + s - carry;
      assert 365 * t <= s - carry < 365 * t + 365;
    }
  }

  /** Days before each month of a March-based year. */
  const MARCH_START: seq<int> := [0, 31, 61, 92, 122, 153, 184, 214, 245, 275, 306, 337]

  /** Day of a March-based year to month and day. */
  lemma MonthOfYear(y: int, doy: int) returns (mp: int)
    requires 0 <= doy <= 365
    ensures 0 <= mp <= 11
    ensures MARCH_START[mp] <= doy && (mp < 11 ==> doy < MARCH_START[mp + 1])
    ensures MarchDate(y, doy) == Date(if mp < 10 then y else y + 1,
                                      if mp < 10 then mp + 3 else mp - 9,
                                      doy - MARCH_START[mp] + 1)
  {
    mp := (5 * doy + 2) / 153;
    assert (153 * mp + 2) / 5 == MARCH_START[mp];
  }

  /** Leap years seen from the March-based year y, whose last days are February of y + 1. */
  lemma MarchYear(era: int, c: int, k: int, t: int)
    requires 0 <= c < 4 && 0 <= k < 25 && 0 <= t < 4
    ensures var y := 400 * era + 100 * c + 4 * k + t;
            && LeapsBefore(y + 1) == 97 * era + 24 * c + k
            && (t == 3 && (k == 24 ==> c == 3) ==> LeapYear(y + 1))
  {
    EraQuotients(era, c, k, t);
    if t == 3 && (k == 24 ==> c == 3) {
      EraLeapYear(era, c, k);
    }
  }

  lemma EraQuotients(era: int, c: int, k: int, t: int)
    requires 0 <= c < 4 && 0 <= k < 25 && 0 <= t < 4
    ensures var y := 400 * era + 100 * c + 4 * k + t;
            && y / 4 == 100 * era + 25 * c + k
            && y / 100 == 4 * era + c
            && y / 400 == era
  {
  }

  lemma EraLeapYear(era: int, c: int, k: int)
    requires 0 <= c < 4 && 0 <= k < 25 && (k == 24 ==> c == 3)
    ensures LeapYear(400 * era + 100 * c + 4 * k + 4)
  {
    if k == 24 {
      LastYearOfEraLeaps(era);
    } else {
      FourthYearLeaps(25 * (4 * era + c) + k + 1, 4 * era + c, 4 * k + 4);
    }
  }

  lemma LastYearOfEraLeaps(era: int)
    ensures LeapYear(400 * era + 400)
  {
    hide LeapYear;
    EraRemainders(era);
    FourthCenturyLeaps(400 * era + 400);
  }

  lemma EraRemainders(era: int)
    ensures (400 * era + 400) % 4 == 0
    ensures (400 * era + 400) % 400 == 0
  {
    var year := 400 * era + 400;
    var quarters, eras := 100 * era + 100, era + 1;
    assert year == 4 * quarters && year / 4 == quarters;
    assert year == 400 * eras && year / 400 == eras;
  }

  lemma FourthCenturyLeaps(year: int)
    requires year % 4 == 0 && year % 400 == 0
    ensures LeapYear(year)
  {
  }

  lemma FourthYearLeaps(quarter: int, q: int, r: int)
    requires 0 < r < 100 && 100 * q + r == 4 * quarter
    ensures LeapYear(100 * q + r)
  {
    HundredRemainder(q, r);
    assert (4 * quarter) % 4 == 0;
  }

  lemma HundredRemainder(q: int, r: int)
    requires 0 <= r < 100
    ensures (100 * q + r) % 100 == r
  {
  }

  /** A day counted from the first of March lands on the right month and day. */
  lemma MarchDateCounts(y: int, doy: int)
    requires 0 <= doy <= 365 && (doy == 365 ==> LeapYear(y + 1))
    ensures ValidDate(MarchDate(y, doy))
    ensures DayNumber(MarchDate(y, doy)) == YearStart(y + 1) - 306 + doy
  {
    var mp := MonthOfYear(y, doy);
    var date := MarchDate(y, doy);
    MonthStartClosed(date.year, date.month);
    YearStartClosed(y);
    YearStartClosed(y + 1);
    LeapsBeforeStep(y);
  }

  /** The first of March of a year, counted from the epoch. */
  lemma MarchYearStart(era: int, c: int, k: int, t: int)
    requires 0 <= c < 4 && 0 <= k < 25 && 0 <= t < 4
    ensures YearStart(400 * era + 100 * c + 4 * k + t + 1) - 306
         == 146_097 * era + 36_524 * c + 1461 * k + 365 * t - 719_468
  {
    MarchYear(era, c, k, t);
    YearStartClosed(400 * era + 100 * c + 4 * k + t + 1);
  }

  /** The two signed divisions by the era length agree, for days before the epoch too. */
  lemma EraOfDay(z: int)
    ensures var era := TruncDiv(if z >= 0 then z else z - 146_096, 146_097);
            era == z / 146_097 && 0 <= z - era * 146_097 < 146_097
  {
  }

  /** The conversion is the composition of the stages. */
  lemma StagesCompose(era: int, doe: int) returns (c: int, k: int, t: int, doy: int)
    requires 0 <= doe < 146_097
    ensures 0 <= c < 4 && 0 <= k < 25 && 0 <= t < 4
    ensures 0 <= doy <= 365
    ensures doy == 365 ==> t == 3 && (k == 24 ==> c == 3)
    ensures doe == 36_524 * c + 1461 * k + 365 * t + doy
    ensures CivilInEra(era, doe) == MarchDate(400 * era + 100 * c + 4 * k + t, doy)
  {
    hide MarchDate;
    c, k, t, doy := YearOfEra(doe);
    SplitYear(c, k, t);
    YearPart(doe, c, k, t, doy);
  }

  /** The year of the era, as the conversion works it out. */
  lemma YearPart(doe: int, c: int, k: int, t: int, doy: int)
    requires 0 <= doe < 146_097 && 0 <= c < 4 && 0 <= k < 25 && 0 <= t < 4
    requires doe == 36_524 * c + 1461 * k + 365 * t + doy
    requires (doe - doe / 1460 + doe / 36_524 - doe / 146_096) / 365 == 100 * c + 4 * k + t
    requires (100 * c + 4 * k + t) / 4 == 25 * c + k && (100 * c + 4 * k + t) / 100 == c
    ensures var yoe := (doe - doe / 1460 + doe / 36_524 - doe / 146_096) / 365;
            doe - (365 * yoe + yoe / 4 - yoe / 100) == doy
  {
  }

  lemma SplitYear(c: int, k: int, t: int)
    requires 0 <= c < 4 && 0 <= k < 25 && 0 <= t < 4
    ensures (100 * c + 4 * k + t) / 4 == 25 * c + k && (100 * c + 4 * k + t) / 100 == c
  {
  }

  lemma CivilInEraCounts(era: int, doe: int)
    requires 0 <= doe < 146_097
    ensures ValidDate(CivilInEra(era, doe))
    ensures DayNumber(CivilInEra(era, doe)) == 146_097 * era + doe - 719_468
  {
    var c, k, t, doy := StagesCompose(era, doe);
    MarchYear(era, c, k, t);
    MarchYearStart(era, c, k, t);
    MarchDateCounts(400 * era + 100 * c + 4 * k + t, doy);
  }

  /** The conversion yields a date of the calendar, and counting to it gives the day back. */
  lemma CivilFromDaysCounts(n: int)
    ensures ValidDate(CivilFromDays(n)) && DayNumber(CivilFromDays(n)) == n
  {
    hide CivilInEra, ValidDate, DayNumber;
    var z := n + 719_468;
    var era := TruncDiv(if z >= 0 then z else z - 146_096, 146_097);
    EraOfDay(z);
    CivilInEraCounts(era, z - era * 146_097);
  }

  // ------------------------------------------------ bijection and succession

  lemma NextDayCounts(date: Date)
    requires ValidDate(date)
    ensures ValidDate(NextDay(date)) && DayNumber(NextDay(date)) == DayNumber(date) + 1
  {
    if date.month == 12 && date.day == 31 {
      MonthStartClosed(date.year, 12);
      YearStartClosed(date.year);
      YearStartClosed(date.year + 1);
      LeapsBeforeStep(date.year);
    }
  }

  predicate Earlier(a: Date, b: Date) {
    || a.year < b.year
    || (a.year == b.year && a.month < b.month)
    || (a.year == b.year && a.month == b.month && a.day < b.day)
  }

  lemma {:induction false} YearStartGrows(a: int, b: int)
    requires a < b
    ensures YearStart(a) + (if LeapYear(a) then 366 else 365) <= YearStart(b)
    decreases b - a
  {
    YearStartClosed(b - 1);
    YearStartClosed(b);
    LeapsBeforeStep(b - 1);
    if a < b - 1 {
      YearStartGrows(a, b - 1);
    }
  }

  /** A date lies inside its year. */
  lemma WithinYear(date: Date)
    requires ValidDate(date)
    ensures YearStart(date.year) <= DayNumber(date)
    ensures DayNumber(date) < YearStart(date.year) + (if LeapYear(date.year) then 366 else 365)
  {
    MonthStartClosed(date.year, date.month);
  }

  lemma EarlierCountsLess(a: Date, b: Date)
    requires ValidDate(a) && ValidDate(b) && Earlier(a, b)
    ensures DayNumber(a) < DayNumber(b)
  {
    if a.year < b.year {
      WithinYear(a);
      WithinYear(b);
      YearStartGrows(a.year, b.year);
    } else {
      MonthStartClosed(a.year, a.month);
      MonthStartClosed(b.year, b.month);
    }
  }

  lemma DayNumberInjective(a: Date, b: Date)
    requires ValidDate(a) && ValidDate(b) && DayNumber(a) == DayNumber(b)
    ensures a == b
  {
    if Earlier(a, b) {
      EarlierCountsLess(a, b);
    } else if Earlier(b, a) {
      EarlierCountsLess(b, a);
    }
  }

  /** Counting respects the calendar order, both ways. */
  lemma DayNumberMonotone(a: Date, b: Date)
    requires ValidDate(a) && ValidDate(b)
    ensures Earlier(a, b) <==> DayNumber(a) < DayNumber(b)
  {
    if Earlier(a, b) {
      EarlierCountsLess(a, b);
    } else if Earlier(b, a) {
      EarlierCountsLess(b, a);
    }
  }

  /** The conversion inverts counting: with CivilFromDaysCounts, a bijection between all
      integers and all dates of the calendar. */
  lemma CivilFromDayNumber(date: Date)
    requires ValidDate(date)
    ensures CivilFromDays(DayNumber(date)) == date
  {
    CivilFromDaysCounts(DayNumber(date));
    DayNumberInjective(CivilFromDays(DayNumber(date)), date);
  }

  lemma SuccessorUnique(a: Date, b: Date)
    requires ValidDate(a) && ValidDate(b) && DayNumber(b) == DayNumber(a) + 1
    ensures b == NextDay(a)
  {
    NextDayCounts(a);
    DayNumberInjective(NextDay(a), b);
  }

  /** Each following number is the following calendar day. */
  lemma CivilFromDaysSucceeds(n: int)
    ensures ValidDate(CivilFromDays(n)) && CivilFromDays(n + 1) == NextDay(CivilFromDays(n))
  {
    CivilFromDaysCounts(n);
    CivilFromDaysCounts(n + 1);
    SuccessorUnique(CivilFromDays(n), CivilFromDays(n + 1));
  }

  lemma EpochDay()
    ensures CivilFromDays(0) == Date(1970, 1, 1)
  {
    CivilFromDayNumber(Date(1970, 1, 1));
  }
}
