/**
 * CET and CEST: summer time from 01:00 UTC on the last Sunday of March to
 * 01:00 UTC on the last Sunday of October (Directive 2000/84/EC, Articles 2
 * and 3), and the conversion both ways.
 */
module LocalTime {
  import opened Calendar

  const CET: nat := 3600
  const CEST: nat := 7200

  /** Days are counted from a Thursday. */
  predicate IsSunday(day: nat) { (day + 4) % 7 == 0 }

  /** The last Sunday of a month that has 31 days. */
  function LastSunday(y: nat, m: nat): (d: Date)
    requires EPOCH_YEAR <= y && (m == 3 || m == 10)
    ensures ValidDate(d) && d.year == y && d.month == m && d.day >= 25
    ensures IsSunday(ToDays(d))
  {
    var last := Date(y, m, 31);
    Date(y, m, 31 - (ToDays(last) + 4) % 7)
  }

  /** It is a Sunday, and the next one is in another month. */
  lemma LastSundayIsLast(y: nat, m: nat)
    requires EPOCH_YEAR <= y && (m == 3 || m == 10)
    ensures forall d: Date :: ValidDate(d) && d.year == y && d.month == m && IsSunday(ToDays(d))
              ==> d.day <= LastSunday(y, m).day
  {
    hide DaysBeforeYear, DaysBeforeMonth;
    forall d: Date | ValidDate(d) && d.year == y && d.month == m && IsSunday(ToDays(d))
      ensures d.day <= LastSunday(y, m).day
    {
      assert ToDays(Date(y, m, 31)) == ToDays(d) + (31 - d.day);
    }
  }

  function SummerStart(y: nat): nat
    requires EPOCH_YEAR <= y
  {
    ToSeconds(DateTime(LastSunday(y, 3), 1, 0, 0))
  }

  function SummerEnd(y: nat): nat
    requires EPOCH_YEAR <= y
  {
    ToSeconds(DateTime(LastSunday(y, 10), 1, 0, 0))
  }

  function YearOf(s: nat): (y: nat)
    ensures EPOCH_YEAR <= y
  {
    SecondsRoundTrip(s);
    FromSeconds(s).date.year
  }

  predicate Summer(utc: nat) {
    var y := YearOf(utc);
    SummerStart(y) <= utc < SummerEnd(y)
  }

  function Offset(utc: nat): (o: nat) { if Summer(utc) then CEST else CET }

  /** The wall clock of an instant, as seconds of its date and time. */
  function LocalOf(utc: nat): nat { utc + Offset(utc) }

  /** clockTimeWriteLocal: CEST when two hours earlier it is summer in UTC. */
  function UtcOf(local: nat): nat
    requires local >= CEST
  {
    if Summer(local - CEST) then local - CEST else local - CET
  }

  /** The hour the wall clock skips in spring. */
  predicate InSpringGap(local: nat) {
    var y := YearOf(local);
    SummerStart(y) + CET <= local < SummerStart(y) + CEST
  }

  /** The hour the wall clock shows twice in autumn. */
  predicate InAutumnHour(local: nat) {
    var y := YearOf(local);
    SummerEnd(y) + CET <= local < SummerEnd(y) + CEST
  }

  /** Summer time lies well inside its year. */
  lemma SummerInsideYear(y: nat)
    requires EPOCH_YEAR <= y
    ensures DAY_SECONDS * (DaysBeforeYear(y) + 59) <= SummerStart(y)
    ensures SummerStart(y) + DAY_SECONDS * 100 <= SummerEnd(y)
    ensures SummerEnd(y) + DAY_SECONDS * 30 <= DAY_SECONDS * DaysBeforeYear(y + 1)
  {
    var march, october := LastSunday(y, 3), LastSunday(y, 10);
    DaysBeforeMonthGrows(y, 1, 3);
    DaysBeforeMonthGrows(y, 4, 10);
    assert DaysBeforeMonth(y, 2) == 31;
    assert DaysBeforeMonth(y, 3) >= 59;
    assert DaysBeforeMonth(y, 4) == DaysBeforeMonth(y, 3) + 31;
    assert DaysBeforeMonth(y, 6) == DaysBeforeMonth(y, 4) + 61;
    assert DaysBeforeMonth(y, 8) == DaysBeforeMonth(y, 6) + 61;
    assert DaysBeforeMonth(y, 10) == DaysBeforeMonth(y, 8) + 61;
    assert DaysBeforeMonth(y, 12) == DaysBeforeMonth(y, 10) + 61;
    assert DaysBeforeMonth(y, 13) == DaysBeforeMonth(y, 12) + 31;
    YearHasTwelveMonths(y);
  }

  lemma YearBounds(s: nat)
    ensures DAY_SECONDS * DaysBeforeYear(YearOf(s)) <= s < DAY_SECONDS * DaysBeforeYear(YearOf(s) + 1)
  {
    YearOfSecond(s, YearOf(s));
    YearOfSecond(s, YearOf(s) + 1);
  }

  /** Summer time can be judged by any year whose seconds are near. */
  lemma SummerByYear(s: nat, y: nat)
    requires EPOCH_YEAR <= y
    requires DAY_SECONDS * DaysBeforeYear(y) <= s + CEST && s < DAY_SECONDS * DaysBeforeYear(y + 1) + CEST
    ensures Summer(s) <==> SummerStart(y) <= s < SummerEnd(y)
  {
    hide ToSeconds, FromSeconds, LastSunday, DaysBeforeYear, SummerStart, SummerEnd;
    YearBounds(s);
    SummerInsideYear(y);
    var y' := YearOf(s);
    SummerInsideYear(y');
    if y' < y {
      DaysBeforeYearGrows(y', y);
      DaysBeforeYearGrows(y' + 1, y);
    } else if y < y' {
      DaysBeforeYearGrows(y, y');
      DaysBeforeYearGrows(y + 1, y');
    }
  }

  /** A wall-clock time converted to UTC shows as itself, except in the spring
      gap, where it shows one hour later. */
  lemma LocalReadsBack(local: nat)
    requires local >= CEST
    ensures LocalOf(UtcOf(local)) == if InSpringGap(local) then local + 3600 else local
  {
    hide ToSeconds, FromSeconds, LastSunday, SummerStart, SummerEnd, YearOf, Summer;
    var y := YearOf(local);
    YearBounds(local);
    SummerInsideYear(y);
    SummerByYear(local - CEST, y);
    SummerByYear(local - CET, y);
  }

  /** The repeated hour is stored as its first, CEST pass; both passes show it. */
  lemma AutumnHourIsFirstPass(local: nat)
    requires local >= CEST && InAutumnHour(local)
    ensures UtcOf(local) == local - CEST
    ensures LocalOf(local - CEST) == local && LocalOf(local - CET) == local
  {
    hide ToSeconds, FromSeconds, LastSunday, SummerStart, SummerEnd, YearOf, Summer;
    var y := YearOf(local);
    YearBounds(local);
    SummerInsideYear(y);
    SummerByYear(local - CEST, y);
    SummerByYear(local - CET, y);
  }

  /** The conversion finds the first instant that shows a wall-clock time; only
      the times of the spring gap are shown by none. */
  lemma UtcOfIsFirst(local: nat, utc: nat)
    requires local >= CEST && LocalOf(utc) == local
    ensures !InSpringGap(local) && UtcOf(local) <= utc && LocalOf(UtcOf(local)) == local
  {
    hide ToSeconds, FromSeconds, LastSunday, SummerStart, SummerEnd, YearOf, Summer;
    var y := YearOf(local);
    YearBounds(local);
    SummerInsideYear(y);
    SummerByYear(local - CEST, y);
    SummerByYear(local - CET, y);
  }
}
