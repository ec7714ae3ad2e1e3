/**
 * The Gregorian calendar from 1970 on, and UTC seconds of it: days and dates
 * are each other's inverse.
 */
module Calendar {

  const EPOCH_YEAR: nat := 1970
  const DAY_SECONDS: nat := 86400

  datatype Date = Date(year: nat, month: nat, day: nat)

  datatype DateTime = DateTime(date: Date, hour: nat, minute: nat, second: nat)

  predicate IsLeap(y: nat) { y % 4 == 0 && (y % 100 != 0 || y % 400 == 0) }

  function DaysInYear(y: nat): (n: nat)
    ensures n == 365 || n == 366
  {
    if IsLeap(y) then 366 else 365
  }

  function DaysInMonth(y: nat, m: nat): (n: nat)
    ensures 28 <= n <= 31
  {
    if m == 2 then (if IsLeap(y) then 29 else 28)
    else if m == 4 || m == 6 || m == 9 || m == 11 then 30 else 31
  }

  predicate ValidDate(d: Date) {
    EPOCH_YEAR <= d.year && 1 <= d.month <= 12 && 1 <= d.day <= DaysInMonth(d.year, d.month)
  }

  predicate ValidDateTime(t: DateTime) {
    ValidDate(t.date) && t.hour < 24 && t.minute < 60 && t.second < 60
  }

  function DaysBeforeYear(y: nat): nat
    requires EPOCH_YEAR <= y
  {
    if y == EPOCH_YEAR then 0 else DaysBeforeYear(y - 1) + DaysInYear(y - 1)
  }

  function DaysBeforeMonth(y: nat, m: nat): nat
    requires 1 <= m <= 13
  {
    if m == 1 then 0 else DaysBeforeMonth(y, m - 1) + DaysInMonth(y, m - 1)
  }

  function ToDays(d: Date): nat
    requires ValidDate(d)
  {
    DaysBeforeYear(d.year) + DaysBeforeMonth(d.year, d.month) + (d.day - 1)
  }

  /** The year `rest` days after the start of year y falls in, and its day. */
  function YearFrom(y: nat, rest: nat): (nat, nat)
    decreases rest
  {
    if rest < DaysInYear(y) then (y, rest) else YearFrom(y + 1, rest - DaysInYear(y))
  }

  function MonthFrom(y: nat, m: nat, rest: nat): (nat, nat)
    requires 1 <= m <= 12
    decreases 12 - m
  {
    if m == 12 || rest < DaysInMonth(y, m) then (m, rest) else MonthFrom(y, m + 1, rest - DaysInMonth(y, m))
  }

  function FromDays(n: nat): Date {
    var (y, dayOfYear) := YearFrom(EPOCH_YEAR, n);
    var (m, dayOfMonth) := MonthFrom(y, 1, dayOfYear);
    Date(y, m, dayOfMonth + 1)
  }

  function ToSeconds(t: DateTime): nat
    requires ValidDate(t.date)
  {
    DAY_SECONDS * ToDays(t.date) + 3600 * t.hour + 60 * t.minute + t.second
  }

  function FromSeconds(s: nat): DateTime {
    var ofDay := s % DAY_SECONDS;
    DateTime(FromDays(s / DAY_SECONDS), ofDay / 3600, ofDay / 60 % 60, ofDay % 60)
  }

  lemma {:induction false} YearFromStart(y: nat, rest: nat)
    requires EPOCH_YEAR <= y
    ensures var (y', r) := YearFrom(y, rest);
            && y <= y' && r < DaysInYear(y')
            && DaysBeforeYear(y') + r == DaysBeforeYear(y) + rest
    decreases rest
  {
    if rest >= DaysInYear(y) {
      YearFromStart(y + 1, rest - DaysInYear(y));
    }
  }

  lemma {:induction false} MonthFromStart(y: nat, m: nat, rest: nat)
    requires 1 <= m <= 12 && DaysBeforeMonth(y, m) + rest < DaysInYear(y)
    ensures var (m', r) := MonthFrom(y, m, rest);
            && m <= m' <= 12 && r < DaysInMonth(y, m')
            && DaysBeforeMonth(y, m') + r == DaysBeforeMonth(y, m) + rest
    decreases 12 - m
  {
    YearHasTwelveMonths(y);
    if m < 12 && rest >= DaysInMonth(y, m) {
      MonthFromStart(y, m + 1, rest - DaysInMonth(y, m));
    }
  }

  lemma YearHasTwelveMonths(y: nat)
    ensures DaysBeforeMonth(y, 13) == DaysInYear(y)
  {
    assert DaysBeforeMonth(y, 2) == 31;
    assert DaysBeforeMonth(y, 3) == 59 + (if IsLeap(y) then 1 else 0);
    assert DaysBeforeMonth(y, 5) == DaysBeforeMonth(y, 3) + 61;
    assert DaysBeforeMonth(y, 7) == DaysBeforeMonth(y, 5) + 61;
    assert DaysBeforeMonth(y, 9) == DaysBeforeMonth(y, 7) + 62;
    assert DaysBeforeMonth(y, 11) == DaysBeforeMonth(y, 9) + 61;
    assert DaysBeforeMonth(y, 13) == DaysBeforeMonth(y, 11) + 61;
  }

  lemma {:induction false} DaysBeforeMonthGrows(y: nat, m: nat, m': nat)
    requires 1 <= m <= m' <= 13
    ensures DaysBeforeMonth(y, m) <= DaysBeforeMonth(y, m')
    ensures m < m' ==> DaysBeforeMonth(y, m) + DaysInMonth(y, m) <= DaysBeforeMonth(y, m')
    decreases m' - m
  {
    if m < m' {
      DaysBeforeMonthGrows(y, m, m' - 1);
    }
  }

  lemma {:induction false} DaysBeforeYearGrows(y: nat, y': nat)
    requires EPOCH_YEAR <= y <= y'
    ensures DaysBeforeYear(y) <= DaysBeforeYear(y')
    ensures y < y' ==> DaysBeforeYear(y) + DaysInYear(y) <= DaysBeforeYear(y')
    decreases y' - y
  {
    if y < y' {
      DaysBeforeYearGrows(y, y' - 1);
    }
  }

  /** A date fits in its month, and the month in its year. */
  lemma DayInYear(d: Date)
    requires ValidDate(d)
    ensures DaysBeforeMonth(d.year, d.month) + (d.day - 1) < DaysInYear(d.year)
  {
    DaysBeforeMonthGrows(d.year, d.month, 13);
    YearHasTwelveMonths(d.year);
  }

  /** Every day has a valid date, and the date gives the day back. */
  lemma DaysRoundTrip(n: nat)
    ensures ValidDate(FromDays(n)) && ToDays(FromDays(n)) == n
  {
    hide DaysInYear, DaysInMonth, DaysBeforeYear, DaysBeforeMonth;
    NothingBefore(EPOCH_YEAR);
    YearFromStart(EPOCH_YEAR, n);
    var (y, dayOfYear) := YearFrom(EPOCH_YEAR, n);
    MonthRoundTrip(y, dayOfYear);
  }

  lemma MonthRoundTrip(y: nat, dayOfYear: nat)
    requires EPOCH_YEAR <= y && dayOfYear < DaysInYear(y)
    ensures var (m, rest) := MonthFrom(y, 1, dayOfYear);
            ValidDate(Date(y, m, rest + 1)) && DaysBeforeMonth(y, m) + rest == dayOfYear
  {
    hide DaysInYear, DaysInMonth, DaysBeforeMonth;
    NothingBefore(y);
    MonthFromStart(y, 1, dayOfYear);
  }

  lemma NothingBefore(y: nat)
    ensures DaysBeforeYear(EPOCH_YEAR) == 0 && DaysBeforeMonth(y, 1) == 0
  {
  }

  /** Two valid dates of the same day are the same date. */
  lemma ToDaysInjective(a: Date, b: Date)
    requires ValidDate(a) && ValidDate(b) && ToDays(a) == ToDays(b)
    ensures a == b
  {
    DayInYear(a);
    DayInYear(b);
    if a.year < b.year { DaysBeforeYearGrows(a.year, b.year); }
    if b.year < a.year { DaysBeforeYearGrows(b.year, a.year); }
    if a.month < b.month { DaysBeforeMonthGrows(a.year, a.month, b.month); }
    if b.month < a.month { DaysBeforeMonthGrows(a.year, b.month, a.month); }
  }

  /** Every valid date is the date of its day. */
  lemma DateRoundTrip(d: Date)
    requires ValidDate(d)
    ensures FromDays(ToDays(d)) == d
  {
    DaysRoundTrip(ToDays(d));
    ToDaysInjective(FromDays(ToDays(d)), d);
  }

  lemma ClockRoundTrip(s: nat)
    requires s < DAY_SECONDS
    ensures 3600 * (s / 3600) + 60 * (s / 60 % 60) + s % 60 == s
    ensures s / 3600 < 24
  {
    assert s == 60 * (s / 60) + s % 60;
    assert s / 60 == 60 * (s / 60 / 60) + s / 60 % 60;
    assert s / 3600 == s / 60 / 60;
  }

  lemma ClockUnique(h: nat, m: nat, s: nat)
    requires h < 24 && m < 60 && s < 60
    ensures var t := 3600 * h + 60 * m + s;
            t < DAY_SECONDS && t / 3600 == h && t / 60 % 60 == m && t % 60 == s
  {
    var t := 3600 * h + 60 * m + s;
    assert t / 60 == 60 * h + m;
    assert t / 60 % 60 == m;
  }

  /** Every second has a valid date and time, which gives the second back. */
  lemma SecondsRoundTrip(s: nat)
    ensures ValidDateTime(FromSeconds(s)) && ToSeconds(FromSeconds(s)) == s
  {
    DaysRoundTrip(s / DAY_SECONDS);
    ClockRoundTrip(s % DAY_SECONDS);
    assert s == DAY_SECONDS * (s / DAY_SECONDS) + s % DAY_SECONDS;
  }

  /** Every valid date and time is the one of its second. */
  lemma DateTimeRoundTrip(t: DateTime)
    requires ValidDateTime(t)
    ensures FromSeconds(ToSeconds(t)) == t
  {
    var ofDay := 3600 * t.hour + 60 * t.minute + t.second;
    ClockUnique(t.hour, t.minute, t.second);
    var s := ToSeconds(t);
    assert s == DAY_SECONDS * ToDays(t.date) + ofDay;
    assert s / DAY_SECONDS == ToDays(t.date) && s % DAY_SECONDS == ofDay;
    DateRoundTrip(t.date);
  }

  /** The seconds of a year are the half-open interval between its first second
      and the next year's. */
  lemma YearOfSecond(s: nat, y: nat)
    requires EPOCH_YEAR <= y
    ensures FromSeconds(s).date.year >= y <==> s >= DAY_SECONDS * DaysBeforeYear(y)
  {
    var day := s / DAY_SECONDS;
    YearFromStart(EPOCH_YEAR, day);
    var (y', r) := YearFrom(EPOCH_YEAR, day);
    assert s == DAY_SECONDS * day + s % DAY_SECONDS;
    if y' >= y {
      DaysBeforeYearGrows(y, y');
      assert day >= DaysBeforeYear(y);
    } else {
      DaysBeforeYearGrows(y', y);
      assert day < DaysBeforeYear(y);
    }
  }

  /** The day after, by the lengths of the months: the calendar told day by day. */
  function DayAfter(d: Date): Date
    requires 1 <= d.month <= 12
  {
    var leap := d.year % 400 == 0 || (d.year % 4 == 0 && d.year % 100 != 0);
    var lengths := [31, if leap then 29 else 28, 31, 30, 31, 30, 31, 31, 30, 31, 30, 31];
    if d.day < lengths[d.month - 1] then Date(d.year, d.month, d.day + 1)
    else if d.month < 12 then Date(d.year, d.month + 1, 1)
    else Date(d.year + 1, 1, 1)
  }

  /** Day 0 is 1 January 1970, and every day is followed by the day after. */
  lemma DaysFollow(n: nat)
    ensures FromDays(0) == Date(1970, 1, 1)
    ensures 1 <= FromDays(n).month <= 12 && FromDays(n + 1) == DayAfter(FromDays(n))
  {
    hide ToDays, FromDays;
    FirstDay();
    DaysRoundTrip(n);
    DaysRoundTrip(n + 1);
    DayAfterIsNext(FromDays(n));
    ToDaysInjective(FromDays(n + 1), DayAfter(FromDays(n)));
  }

  lemma FirstDay()
    ensures FromDays(0) == Date(1970, 1, 1)
  {
  }

  lemma DayAfterIsNext(d: Date)
    requires ValidDate(d)
    ensures ValidDate(DayAfter(d)) && ToDays(DayAfter(d)) == ToDays(d) + 1
  {
    if d.month == 12 && d.day == 31 {
      YearHasTwelveMonths(d.year);
      assert DaysBeforeMonth(d.year, 13) == DaysBeforeMonth(d.year, 12) + 31;
      NothingBefore(d.year + 1);
    }
  }
}
