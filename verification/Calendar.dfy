/** UTC calendar dates as ECMAScript computes them (ECMA-262, section 21.4.1). */
module Calendar {
  import opened Outcomes

  const MS_PER_DAY := 86_400_000

  /** A Date object: NaN, or milliseconds since 1970-01-01T00:00Z. */
  datatype Instant = Invalid | At(ms: int)

  /** Months count from 0, days of the month from 1. */
  datatype Civil = Civil(year: int, month: int, day: int)

  /** A moment and how far the process's local time is ahead of UTC then. */
  datatype Moment = Moment(ms: int, zone: int)

  // ----- Years ---------------------------------------------------------------------------------

  predicate Leap(y: int) {
    y % 4 == 0 && (y % 100 != 0 || y % 400 == 0)
  }

  function DaysInYear(y: int): int {
    if Leap(y) then 366 else 365
  }

  /** The epoch day of 1 January; `/` rounds down, as the standard's floor does. */
  function DayFromYear(y: int): int {
    365 * (y - 1970) + (y - 1969) / 4 - (y - 1901) / 100 + (y - 1601) / 400
  }

  lemma FourYearSteps(y: int)
    ensures (y - 1968) / 4 == (y - 1969) / 4 + if y % 4 == 0 then 1 else 0
  {
    var q, r := y / 4, y % 4;
    assert y - 1969 == 4 * (if r == 0 then q - 493 else q - 492) + (if r == 0 then 3 else r - 1);
  }

  lemma CenturySteps(y: int)
    ensures (y - 1900) / 100 == (y - 1901) / 100 + if y % 100 == 0 then 1 else 0
  {
    var q, r := y / 100, y % 100;
    assert y - 1901 == 100 * (if r == 0 then q - 20 else q - 19) + (if r == 0 then 99 else r - 1);
  }

  lemma FourCenturySteps(y: int)
    ensures (y - 1600) / 400 == (y - 1601) / 400 + if y % 400 == 0 then 1 else 0
  {
    var q, r := y / 400, y % 400;
    assert y - 1601 == 400 * (if r == 0 then q - 5 else q - 4) + (if r == 0 then 399 else r - 1);
  }

  lemma HundredsAreFours(y: int)
    requires y % 100 == 0
    ensures y % 4 == 0
  {
    assert y == 4 * (25 * (y / 100));
  }

  lemma FourHundredsAreHundreds(y: int)
    requires y % 400 == 0
    ensures y % 100 == 0
  {
    assert y == 100 * (4 * (y / 400));
  }

  lemma LeapRule(y: int)
    ensures DaysInYear(y) == 365 + (if y % 4 == 0 then 1 else 0) - (if y % 100 == 0 then 1 else 0)
                                 + (if y % 400 == 0 then 1 else 0)
  {
    if y % 100 == 0 { HundredsAreFours(y); }
    if y % 400 == 0 { FourHundredsAreHundreds(y); }
  }

  lemma YearStep(y: int)
    ensures DayFromYear(y + 1) == DayFromYear(y) + DaysInYear(y)
  {
    FourYearSteps(y);
    CenturySteps(y);
    FourCenturySteps(y);
    LeapRule(y);
    assert y + 1 - 1969 == y - 1968 && y + 1 - 1901 == y - 1900 && y + 1 - 1601 == y - 1600;
  }

  lemma {:induction false} YearsGrow(a: int, b: int)
    requires a <= b
    ensures DayFromYear(a) + 365 * (b - a) <= DayFromYear(b)
    decreases b - a
  {
    if a < b {
      YearsGrow(a, b - 1);
      YearStep(b - 1);
    }
  }

  /** The year that holds an epoch day, searched for upwards or downwards from one that is not beyond it. */
  function YearUp(n: int, y: int): int
    requires DayFromYear(y) <= n
    decreases n - DayFromYear(y)
  {
    YearStep(y);
    if n < DayFromYear(y + 1) then y else YearUp(n, y + 1)
  }

  function YearDown(n: int, y: int): int
    requires n < DayFromYear(y + 1)
    decreases DayFromYear(y + 1) - n
  {
    YearStep(y);
    if DayFromYear(y) <= n then y else YearDown(n, y - 1)
  }

  predicate InYear(n: int, y: int) {
    DayFromYear(y) <= n < DayFromYear(y + 1)
  }

  function YearOf(n: int): int {
    if 0 <= n then YearUp(n, 1970) else YearDown(n, 1969)
  }

  lemma {:induction false} YearUpHolds(n: int, y: int)
    requires DayFromYear(y) <= n
    ensures InYear(n, YearUp(n, y))
    decreases n - DayFromYear(y)
  {
    YearStep(y);
    if DayFromYear(y + 1) <= n { YearUpHolds(n, y + 1); }
  }

  lemma {:induction false} YearDownHolds(n: int, y: int)
    requires n < DayFromYear(y + 1)
    ensures InYear(n, YearDown(n, y))
    decreases DayFromYear(y + 1) - n
  {
    YearStep(y);
    if n < DayFromYear(y) {
      assert YearDown(n, y) == YearDown(n, y - 1);
      YearDownHolds(n, y - 1);
    }
  }

  lemma YearHolds(n: int)
    ensures InYear(n, YearOf(n))
  {
    if 0 <= n { YearUpHolds(n, 1970); } else { YearDownHolds(n, 1969); }
  }

  lemma YearIsUnique(n: int, y: int, z: int)
    requires InYear(n, y) && InYear(n, z)
    ensures y == z
  {
    if y < z { YearsGrow(y + 1, z); }
    if z < y { YearsGrow(z + 1, y); }
  }

  // ----- Months --------------------------------------------------------------------------------

  const MONTH_STARTS := [0, 31, 59, 90, 120, 151, 181, 212, 243, 273, 304, 334, 365]

  /** The day of the year, from 0, on which a month starts; month 12 is the next year's start. */
  function MonthStart(leap: bool, m: int): int
    requires 0 <= m <= 12
  {
    MONTH_STARTS[m] + if leap && 2 <= m then 1 else 0
  }

  function DaysInMonth(y: int, m: int): int
    requires 0 <= m < 12
  {
    MonthStart(Leap(y), m + 1) - MonthStart(Leap(y), m)
  }

  /** Thirty days have April, June, September and November; February 28 or 29; all the rest 31. */
  lemma MonthLengths(y: int, m: int)
    requires 0 <= m < 12
    ensures DaysInMonth(y, m) == if m in {3, 5, 8, 10} then 30 else if m == 1 then (if Leap(y) then 29 else 28) else 31
  {
  }

  /** The epoch, the leap day of 2000, and the end of February 2100, which has none. */
  lemma KnownDays()
    ensures DayFromYear(1970) == 0 && Leap(2000) && Leap(2024) && !Leap(2100) && !Leap(2026)
    ensures DayFromYear(2000) == 10957 && DayFromYear(2001) == 11323 && DayFromYear(2101) - DayFromYear(2100) == 365
  {
  }

  predicate RealDate(c: Civil) {
    0 <= c.month < 12 && 1 <= c.day <= DaysInMonth(c.year, c.month)
  }

  /** The month, not before m, that holds the day d days after the start of m. */
  function MonthFrom(leap: bool, m: int, d: int): (r: int)
    requires 0 <= m < 12 && 0 <= d < MonthStart(leap, 12) - MonthStart(leap, m)
    ensures m <= r < 12
    decreases d
  {
    var days := MonthStart(leap, m + 1) - MonthStart(leap, m);
    if d < days then m else MonthFrom(leap, m + 1, d - days)
  }

  lemma {:induction false} MonthHolds(leap: bool, m: int, d: int)
    requires 0 <= m < 12 && 0 <= d < MonthStart(leap, 12) - MonthStart(leap, m)
    ensures var r := MonthFrom(leap, m, d); MonthStart(leap, r) <= MonthStart(leap, m) + d < MonthStart(leap, r + 1)
    decreases d
  {
    var days := MonthStart(leap, m + 1) - MonthStart(leap, m);
    if days <= d { MonthHolds(leap, m + 1, d - days); }
  }

  lemma {:induction false} MonthsGrow(leap: bool, a: int, b: int)
    requires 0 <= a <= b <= 12
    ensures MonthStart(leap, a) + (b - a) <= MonthStart(leap, b)
    decreases b - a
  {
    if a < b { MonthsGrow(leap, a, b - 1); }
  }

  lemma MonthIsUnique(leap: bool, dayOfYear: int, m: int)
    requires 0 <= m < 12 && MonthStart(leap, m) <= dayOfYear < MonthStart(leap, m + 1)
    ensures 0 <= dayOfYear < MonthStart(leap, 12) && MonthFrom(leap, 0, dayOfYear) == m
  {
    MonthsGrow(leap, 0, m);
    MonthsGrow(leap, m + 1, 12);
    MonthHolds(leap, 0, dayOfYear);
    var r := MonthFrom(leap, 0, dayOfYear);
    if r < m { MonthsGrow(leap, r + 1, m); }
    if m < r { MonthsGrow(leap, m + 1, r); }
  }

  // ----- Days and dates ------------------------------------------------------------------------

  /** Floor of a timestamp to its UTC day. */
  function DayOf(ms: int): int {
    ms / MS_PER_DAY
  }

  /** The day a date column takes for a moment: the driver prints moments in local time. */
  function LocalDay(m: Moment): int {
    DayOf(m.ms + m.zone)
  }

  /** The stored day is the UTC day exactly when the zone does not carry the time of day past midnight. */
  lemma LocalDayIsUtcDayIff(m: Moment)
    ensures LocalDay(m) == DayOf(m.ms) <==> 0 <= m.ms % MS_PER_DAY + m.zone < MS_PER_DAY
  {
  }

  /** getUTCFullYear, getUTCMonth and getUTCDate. */
  function CivilFromDay(n: int): (c: Civil)
    ensures 0 <= c.month < 12
  {
    DayOfYear(n);
    var y := YearOf(n);
    var doy := n - DayFromYear(y);
    var m := MonthFrom(Leap(y), 0, doy);
    Civil(y, m, doy - MonthStart(Leap(y), m) + 1)
  }

  lemma DayOfYear(n: int)
    ensures var y := YearOf(n); 0 <= n - DayFromYear(y) < MonthStart(Leap(y), 12)
  {
    YearHolds(n);
    YearStep(YearOf(n));
  }

  lemma CivilIsReal(n: int)
    ensures RealDate(CivilFromDay(n))
  {
    DayOfYear(n);
    var y := YearOf(n);
    MonthHolds(Leap(y), 0, n - DayFromYear(y));
  }

  /** MakeDay, for a month of the year; days beyond the month's end roll over into the following months. */
  function MakeDay(y: int, m: int, d: int): int
    requires 0 <= m < 12
  {
    DayFromYear(y) + MonthStart(Leap(y), m) + d - 1
  }

  /** Building the day of the date that an epoch day falls on gives that epoch day back. */
  lemma DayRoundTrip(n: int)
    ensures var c := CivilFromDay(n); MakeDay(c.year, c.month, c.day) == n
  {
  }

  /** Reading a real date back off its epoch day gives that date. */
  lemma DateRoundTrip(c: Civil)
    requires RealDate(c)
    ensures CivilFromDay(MakeDay(c.year, c.month, c.day)) == c
  {
    var n := MakeDay(c.year, c.month, c.day);
    MonthEnds(c);
    YearOfDate(c);
    MonthIsUnique(Leap(c.year), n - DayFromYear(c.year), c.month);
  }

  lemma YearOfDate(c: Civil)
    requires RealDate(c)
    ensures YearOf(MakeDay(c.year, c.month, c.day)) == c.year
  {
    var n := MakeDay(c.year, c.month, c.day);
    MonthEnds(c);
    YearStep(c.year);
    YearHolds(n);
    YearIsUnique(n, c.year, YearOf(n));
  }

  lemma MonthEnds(c: Civil)
    requires RealDate(c)
    ensures 0 <= MonthStart(Leap(c.year), c.month) <= MonthStart(Leap(c.year), c.month + 1) <= DaysInYear(c.year)
  {
  }

  // ----- daysBetween ---------------------------------------------------------------------------

  /** Date.UTC: a year of 0..99 is taken to mean 1900..1999. */
  function DateUtc(c: Civil): int
    requires 0 <= c.month < 12
  {
    MakeDay(if 0 <= c.year <= 99 then 1900 + c.year else c.year, c.month, c.day) * MS_PER_DAY
  }

  datatype DateError = EndBeforeStart

  /** UTC midnight of a timestamp's day, rebuilt from its year, month and day of the month. */
  function RebuiltMidnight(ms: int): int {
    DateUtc(CivilFromDay(DayOf(ms)))
  }

  function DaysBetween(start: Instant, end: Instant): Result<int, DateError> {
    if start.Invalid? || end.Invalid? || end.ms < start.ms then Err(EndBeforeStart)
    else Ok((RebuiltMidnight(end.ms) - RebuiltMidnight(start.ms)) / MS_PER_DAY)
  }

  /** How far Date.UTC moves a date: not at all, except in the years 0..99. */
  datatype Era = Ordinary | EarlyYearZero | TwoDigitYear

  function EraOf(c: Civil): Era {
    if c.year < 0 || 99 < c.year then Ordinary
    else if c.year == 0 && c.month < 2 then EarlyYearZero
    else TwoDigitYear
  }

  function Shift(e: Era): int {
    match e case Ordinary => 0 case EarlyYearZero => 693_961 case TwoDigitYear => 693_960
  }

  lemma CenturyShift(y: int)
    requires 0 <= y <= 99
    ensures DayFromYear(1900 + y) == DayFromYear(y) + if y == 0 then 693_961 else 693_960
    ensures Leap(1900 + y) == (y != 0 && Leap(y))
  {
    assert 1900 + y - 1969 == y - 69 && 1900 + y - 1901 == y - 1 && 1900 + y - 1601 == y + 299;
    assert (y - 1969) == (y - 69) - 4 * 475;
    assert (y - 1901) == (y - 1) - 100 * 19;
    assert (y + 299) / 400 == 0;
    assert (y - 1601) / 400 == if y == 0 then -5 else -4;
  }

  lemma UtcDay(c: Civil)
    requires 0 <= c.month < 12
    ensures DateUtc(c) == (MakeDay(c.year, c.month, c.day) + Shift(EraOf(c))) * MS_PER_DAY
  {
    if 0 <= c.year <= 99 {
      CenturyShift(c.year);
    }
  }

  /** The day that daysBetween takes an epoch day for. */
  function CountedDay(n: int): int {
    n + Shift(EraOf(CivilFromDay(n)))
  }

  lemma MidnightOfCountedDay(ms: int)
    ensures RebuiltMidnight(ms) == CountedDay(DayOf(ms)) * MS_PER_DAY
  {
    DayRoundTrip(DayOf(ms));
    UtcDay(CivilFromDay(DayOf(ms)));
  }

  /** Rebuilding UTC midnight from year, month and day is the floor to the day, except in the years 0..99. */
  lemma RebuildIsFloor(ms: int)
    ensures RebuiltMidnight(ms) == DayOf(ms) * MS_PER_DAY <==>
            CivilFromDay(DayOf(ms)).year < 0 || 99 < CivilFromDay(DayOf(ms)).year
  {
    MidnightOfCountedDay(ms);
  }

  lemma WholeDays(m: int, n: int)
    ensures (n * MS_PER_DAY - m * MS_PER_DAY) / MS_PER_DAY == n - m
  {
  }

  lemma DaysBetweenCounts(a: int, b: int)
    requires a <= b
    ensures DaysBetween(At(a), At(b)) == Ok(CountedDay(DayOf(b)) - CountedDay(DayOf(a)))
  {
    MidnightOfCountedDay(a);
    MidnightOfCountedDay(b);
    WholeDays(CountedDay(DayOf(a)), CountedDay(DayOf(b)));
  }

  /** The count is the difference of the epoch days exactly when Date.UTC moves both dates alike. */
  lemma DaysBetweenIsExact(a: int, b: int)
    requires a <= b
    ensures DaysBetween(At(a), At(b)) == Ok(DayOf(b) - DayOf(a)) <==>
            EraOf(CivilFromDay(DayOf(a))) == EraOf(CivilFromDay(DayOf(b)))
  {
    DaysBetweenCounts(a, b);
  }

  /** From any moment of the years 1..99 to any later one after them, 693960 days are lost. */
  lemma LeavingTwoDigitYearsLosesDays(a: int, b: int)
    requires a <= b && 1 <= CivilFromDay(DayOf(a)).year <= 99 < CivilFromDay(DayOf(b)).year
    ensures DaysBetween(At(a), At(b)) == Ok(DayOf(b) - DayOf(a) - 693_960)
  {
    DaysBetweenCounts(a, b);
  }

  /** Counts add up over any moment in between, in every era. */
  lemma CountsAddUp(a: int, b: int, c: int)
    requires a <= b <= c
    ensures DaysBetween(At(a), At(c)).value == DaysBetween(At(a), At(b)).value + DaysBetween(At(b), At(c)).value
  {
    DaysBetweenCounts(a, b);
    DaysBetweenCounts(b, c);
    DaysBetweenCounts(a, c);
  }

  /** The time of day at either end is irrelevant. */
  lemma TimeOfDayIsIrrelevant(a: int, b: int, a': int, b': int)
    requires a <= b && a' <= b' && DayOf(a) == DayOf(a') && DayOf(b) == DayOf(b')
    ensures DaysBetween(At(a), At(b)) == DaysBetween(At(a'), At(b'))
  {
    DaysBetweenCounts(a, b);
    DaysBetweenCounts(a', b');
  }
}
