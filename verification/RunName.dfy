/** Run names: seconds since the epoch printed as YYYYMMDD-HHMMSS. */
module RunName {
  import opened Text
  import opened Calendar

  /** At least `width` digits, with zeros in front. */
  function Padded(n: nat, width: nat): string {
    ZeroFill(Decimal(n), width)
  }

  function ZeroFill(s: string, width: nat): string
    decreases width - |s|
  {
    if |s| < width then ZeroFill("0" + s, width) else s
  }

  /** The same for signed numbers: a minus sign takes one place of the width. */
  function PaddedInt(n: int, width: nat): string
    requires width > 0
  {
    if n >= 0 then Padded(n, width) else "-" + Padded(-n, width - 1)
  }

  function DateText(date: Date): string {
    PaddedInt(date.year, 4) + PaddedInt(date.month, 2) + PaddedInt(date.day, 2)
  }

  function TimeText(secondOfDay: nat): string {
    Padded(secondOfDay / 3600, 2) + Padded(secondOfDay % 3600 / 60, 2) + Padded(secondOfDay % 60, 2)
  }

  /** The run name for a clock at or after the epoch. */
  function Timestamp(secs: nat): string {
    NameOf(CivilFromDays(secs / 86_400), secs % 86_400)
  }

  function NameOf(date: Date, secondOfDay: nat): string {
    DateText(date) + "-" + TimeText(secondOfDay)
  }

  /** Dictionary order on strings. */
  predicate LexLess(a: string, b: string) {
    b != "" && (a == "" || a[0] < b[0] || (a[0] == b[0] && LexLess(a[1..], b[1..])))
  }

  /** The first second of the year 10000. */
  const FIVE_DIGIT_YEARS: nat := 253_402_300_800

  // ------------------------------------------------ fixed-width digits sort as numbers

  lemma {:induction false} LexLessHeads(a: string, b: string, s: string, t: string)
    requires |a| == |b|
    ensures LexLess(a, b) ==> LexLess(a + s, b + t)
    ensures a == b && LexLess(s, t) ==> LexLess(a + s, b + t)
  {
    if a == "" {
      assert a + s == s && b + t == t;
    } else {
      assert (a + s)[1..] == a[1..] + s && (b + t)[1..] == b[1..] + t;
      LexLessHeads(a[1..], b[1..], s, t);
    }
  }

  lemma {:induction false} DigitsSort(a: string, b: string)
    requires |a| == |b| && AllDigits(a) && AllDigits(b) && Value(a) < Value(b)
    ensures LexLess(a, b)
  {
    var n := |a| - 1;
    var x, y := a[..n], b[..n];
    assert a == x + a[n..] && b == y + b[n..];
    if Value(x) < Value(y) {
      DigitsSort(x, y);
      LexLessHeads(x, y, a[n..], b[n..]);
    } else {
      SameValue(x, y);
      assert LexLess(a[n..], b[n..]);
      LexLessHeads(x, y, a[n..], b[n..]);
    }
  }

  lemma {:induction false} SameValue(a: string, b: string)
    requires |a| == |b| && AllDigits(a) && AllDigits(b) && Value(a) == Value(b)
    ensures a == b
  {
    if a != "" {
      var n := |a| - 1;
      SameValue(a[..n], b[..n]);
      assert a == a[..n] + [a[n]] && b == b[..n] + [b[n]];
    }
  }

  lemma {:induction false} ZeroInFront(s: string)
    requires AllDigits(s)
    ensures Value("0" + s) == Value(s)
  {
    var z := "0" + s;
    if s == "" {
      assert z[..0] == "";
    } else {
      assert z[..|z| - 1] == "0" + s[..|s| - 1];
      ZeroInFront(s[..|s| - 1]);
    }
  }

  lemma {:induction false} ZeroFillDigits(s: string, width: nat)
    requires AllDigits(s)
    ensures AllDigits(ZeroFill(s, width)) && Value(ZeroFill(s, width)) == Value(s)
    ensures |ZeroFill(s, width)| == if |s| < width then width else |s|
    decreases width - |s|
  {
    if |s| < width {
      ZeroInFront(s);
      ZeroFillDigits("0" + s, width);
    }
  }

  lemma {:induction false} DecimalLength(n: nat, bound: nat, width: nat)
    requires width >= 1 && n < bound && bound == Power10(width)
    ensures |Decimal(n)| <= width
  {
    if n >= 10 {
      assert width >= 2 && bound == 10 * Power10(width - 1);
      DecimalLength(n / 10, Power10(width - 1), width - 1);
    }
  }

  function Power10(width: nat): nat {
    if width == 0 then 1 else 10 * Power10(width - 1)
  }

  lemma Pad2(n: nat)
    requires n < 100
    ensures |Padded(n, 2)| == 2 && AllDigits(Padded(n, 2)) && Value(Padded(n, 2)) == n
  {
    DecimalLength(n, 100, 2);
    ZeroFillDigits(Decimal(n), 2);
  }

  lemma Pad4(n: nat)
    requires n < 10_000
    ensures |Padded(n, 4)| == 4 && AllDigits(Padded(n, 4)) && Value(Padded(n, 4)) == n
  {
    assert Power10(4) == 10_000 by { assert Power10(3) == 1000; }
    DecimalLength(n, 10_000, 4);
    ZeroFillDigits(Decimal(n), 4);
  }

  lemma ValueThenTwo(a: string, b: string)
    requires AllDigits(a) && AllDigits(b) && |b| == 2
    ensures AllDigits(a + b) && Value(a + b) == 100 * Value(a) + Value(b)
  {
    var s := a + b;
    var r := a + b[..1];
    assert s[..|s| - 1] == r && s[|s| - 1] == b[1];
    assert r[..|r| - 1] == a && r[|r| - 1] == b[0];
    assert b[..1][..0] == "";
    assert b == b[..1] + b[1..];
    assert Value(b[..1]) == b[0] as int - '0' as int;
  }

  lemma DateTextValue(date: Date)
    requires ValidDate(date) && 0 <= date.year < 10_000
    ensures |DateText(date)| == 8 && AllDigits(DateText(date))
    ensures Value(DateText(date)) == 10_000 * date.year + 100 * date.month + date.day
  {
    Pad4(date.year);
    Pad2(date.month);
    Pad2(date.day);
    ValueThenTwo(Padded(date.year, 4), Padded(date.month, 2));
    ValueThenTwo(Padded(date.year, 4) + Padded(date.month, 2), Padded(date.day, 2));
  }

  lemma TimeTextValue(s: nat)
    requires s < 86_400
    ensures |TimeText(s)| == 6 && AllDigits(TimeText(s))
    ensures Value(TimeText(s)) == 10_000 * (s / 3600) + 100 * (s % 3600 / 60) + s % 60
  {
    Pad2(s / 3600);
    Pad2(s % 3600 / 60);
    Pad2(s % 60);
    ValueThenTwo(Padded(s / 3600, 2), Padded(s % 3600 / 60, 2));
    ValueThenTwo(Padded(s / 3600, 2) + Padded(s % 3600 / 60, 2), Padded(s % 60, 2));
  }

  lemma ClockValueMonotone(s: nat, t: nat)
    requires s < t < 86_400
    ensures 10_000 * (s / 3600) + 100 * (s % 3600 / 60) + s % 60
          < 10_000 * (t / 3600) + 100 * (t % 3600 / 60) + t % 60
  {
    ClockParts(s);
    ClockParts(t);
    LaterParts(s / 3600, s % 3600 / 60, s % 60, t / 3600, t % 3600 / 60, t % 60);
  }

  lemma ClockParts(s: nat)
    ensures s == 3600 * (s / 3600) + 60 * (s % 3600 / 60) + s % 60
    ensures s % 3600 / 60 < 60
  {
    assert s % 3600 % 60 == s % 60;
  }

  lemma LaterParts(h: nat, m: nat, s: nat, i: nat, n: nat, t: nat)
    requires m < 60 && n < 60 && s < 60 && t < 60
    requires 3600 * h + 60 * m + s < 3600 * i + 60 * n + t
    ensures 10_000 * h + 100 * m + s < 10_000 * i + 100 * n + t
  {
  }

  // ------------------------------------------------ run names sort as times

  /** Every clock at or after the epoch has a run name, with a four-digit year through 9999. */
  lemma EpochYears(secs: nat)
    ensures ValidDate(CivilFromDays(secs / 86_400))
    ensures CivilFromDays(secs / 86_400).year >= 1970
    ensures CivilFromDays(secs / 86_400).year < 10_000 <==> secs < FIVE_DIGIT_YEARS
  {
    var n := secs / 86_400;
    var date := CivilFromDays(n);
    CivilFromDaysCounts(n);
    DayInYears(date);
  }

  lemma DayInYears(date: Date)
    requires ValidDate(date)
    ensures date.year >= 1970 <==> DayNumber(date) >= 0
    ensures date.year < 10_000 <==> DayNumber(date) < 2_932_897
  {
    WithinYear(date);
    YearStartClosed(10_000);
    if date.year < 1970 { YearStartGrows(date.year, 1970); }
    if date.year > 1970 { YearStartGrows(1970, date.year); }
    if date.year < 10_000 { YearStartGrows(date.year, 10_000); }
    if date.year > 10_000 { YearStartGrows(10_000, date.year); }
  }

  lemma LaterDay(m: int, n: int)
    requires m < n
    ensures ValidDate(CivilFromDays(m)) && ValidDate(CivilFromDays(n))
    ensures Earlier(CivilFromDays(m), CivilFromDays(n))
  {
    CivilFromDaysCounts(m);
    CivilFromDaysCounts(n);
    LaterCount(CivilFromDays(m), CivilFromDays(n));
  }

  lemma LaterCount(a: Date, b: Date)
    requires ValidDate(a) && ValidDate(b) && DayNumber(a) < DayNumber(b)
    ensures Earlier(a, b)
  {
    if Earlier(b, a) { DayNumberMonotone(b, a); }
  }

  /** Through the year 9999 run names are distinct per second and sort chronologically. */
  lemma TimestampsSort(s: nat, t: nat)
    requires s < t < FIVE_DIGIT_YEARS
    ensures LexLess(Timestamp(s), Timestamp(t)) && Timestamp(s) != Timestamp(t)
  {
    EpochYears(s);
    EpochYears(t);
    LaterClock(s, t);
    NamesSort(CivilFromDays(s / 86_400), s % 86_400, CivilFromDays(t / 86_400), t % 86_400);
    LexLessIrreflexive(Timestamp(s));
  }

  /** Through the year 9999 a run name is the date and the time of day in digits, of the date that
      counts back to the clock's day. */
  lemma TimestampReads(secs: nat) returns (h: nat, m: nat, s: nat)
    requires secs < FIVE_DIGIT_YEARS
    ensures var name, date := Timestamp(secs), CivilFromDays(secs / 86_400);
            && ValidDate(date) && DayNumber(date) == secs / 86_400
            && |name| == 15 && AllDigits(name[..8]) && name[8] == '-' && AllDigits(name[9..])
            && Value(name[..8]) == 10_000 * date.year + 100 * date.month + date.day
            && secs % 86_400 == 3600 * h + 60 * m + s && m < 60 && s < 60
            && Value(name[9..]) == 10_000 * h + 100 * m + s
  {
    hide DateText, TimeText, CivilFromDays, Value;
    EpochYears(secs);
    CivilFromDaysCounts(secs / 86_400);
    var date, second := CivilFromDays(secs / 86_400), secs % 86_400;
    DateTextValue(date);
    TimeTextValue(second);
    var name := Timestamp(secs);
    assert name[..8] == DateText(date) && name[9..] == TimeText(second);
    ClockParts(second);
    h, m, s := second / 3600, second % 3600 / 60, second % 60;
  }

  lemma LaterClock(s: nat, t: nat)
    requires s < t
    ensures || Earlier(CivilFromDays(s / 86_400), CivilFromDays(t / 86_400))
            || (s / 86_400 == t / 86_400 && s % 86_400 < t % 86_400)
  {
    if s / 86_400 < t / 86_400 {
      LaterDay(s / 86_400, t / 86_400);
    }
  }

  lemma NamesSort(a: Date, s: nat, b: Date, t: nat)
    requires ValidDate(a) && ValidDate(b) && 0 <= a.year < 10_000 && 0 <= b.year < 10_000
    requires s < 86_400 && t < 86_400
    requires Earlier(a, b) || (a == b && s < t)
    ensures LexLess(NameOf(a, s), NameOf(b, t))
  {
    DateTextValue(a);
    DateTextValue(b);
    if Earlier(a, b) {
      DigitsSort(DateText(a), DateText(b));
      LexLessHeads(DateText(a), DateText(b), "-", "-");
      LexLessHeads(DateText(a) + "-", DateText(b) + "-", TimeText(s), TimeText(t));
    } else {
      TimeTextValue(s);
      TimeTextValue(t);
      ClockValueMonotone(s, t);
      DigitsSort(TimeText(s), TimeText(t));
      LexLessHeads(DateText(a) + "-", DateText(b) + "-", TimeText(s), TimeText(t));
    }
  }

  lemma {:induction false} LexLessIrreflexive(a: string)
    ensures !LexLess(a, a)
  {
    if a != "" { LexLessIrreflexive(a[1..]); }
  }

  /** The bound is sharp: the first name of the year 10000 sorts before the name of the
      second before it. */
  lemma FiveDigitYearSortsFirst(n: nat)
    requires n == FIVE_DIGIT_YEARS
    ensures LexLess(Timestamp(n), Timestamp(n - 1))
  {
    LastDayOf9999();
    CivilFromDayNumber(Date(9999, 12, 31));
    CivilFromDayNumber(Date(10_000, 1, 1));
    assert n / 86_400 == 2_932_897 && (n - 1) / 86_400 == 2_932_896;
    FirstDigitsDecide(n % 86_400, (n - 1) % 86_400);
  }

  lemma FirstDigitsDecide(s: nat, t: nat)
    ensures LexLess(NameOf(Date(10_000, 1, 1), s), NameOf(Date(9999, 12, 31), t))
  {
    FirstDigits();
    var first, last := DateText(Date(10_000, 1, 1)), DateText(Date(9999, 12, 31));
    assert Padded(10_000, 4)[0] == Padded(10_000, 4)[..1][0] == '1';
    assert Padded(9999, 4)[0] == Padded(9999, 4)[..1][0] == '9';
    assert first[0] == '1' && last[0] == '9';
  }

  lemma LastDayOf9999()
    ensures ValidDate(Date(9999, 12, 31)) && DayNumber(Date(9999, 12, 31)) == 2_932_896
    ensures ValidDate(Date(10_000, 1, 1)) && DayNumber(Date(10_000, 1, 1)) == 2_932_897
  {
    assert !LeapYear(9999);
    YearStartClosed(9999);
    YearStartClosed(10_000);
    MonthStartClosed(9999, 12);
  }

  lemma FirstDigits()
    ensures Padded(10_000, 4)[..1] == "1" && Padded(9999, 4)[..1] == "9"
  {
    assert Decimal(10) == Decimal(1) + "0" && Decimal(100) == Decimal(10) + "0";
    assert Decimal(1000) == Decimal(100) + "0" && Decimal(10_000) == Decimal(1000) + "0";
    assert Decimal(99) == Decimal(9) + "9" && Decimal(999) == Decimal(99) + "9";
    assert Decimal(9999) == Decimal(999) + "9";
  }
}
