/** The calendar arithmetic of the GeoIP updater and of the top-list curation tool: a day
    count since 1970-01-01 is turned into a year and a month by era and division arithmetic.
    The reference it is proved against walks the proleptic Gregorian calendar (section 3.2.1
    of ISO 8601:2004) one month at a time. */
module Calendar {

  import opened Wrappers

  // ---------- reference: a calendar that is walked month by month ----------

  predicate IsLeapYear(y: int) {
    y % 4 == 0 && (y % 100 != 0 || y % 400 == 0)
  }

  function DaysInMonth(y: int, m: int): int {
    if m == 2 then (if IsLeapYear(y) then 29 else 28)
    else if m == 4 || m == 6 || m == 9 || m == 11 then 30
    else 31
  }

  datatype YearMonth = YearMonth(year: int, month: int)

  /** Months are numbered from January 1970, which has ordinal 0. */
  function MonthOf(ordinal: int): YearMonth {
    YearMonth(1970 + ordinal / 12, ordinal % 12 + 1)
  }

  function OrdinalOf(ym: YearMonth): int {
    (ym.year - 1970) * 12 + ym.month - 1
  }

  function MonthLength(ordinal: int): int {
    DaysInMonth(MonthOf(ordinal).year, MonthOf(ordinal).month)
  }

  /** The day (since 1970-01-01) a month begins, by adding or taking away one month at a time. */
  function FirstDay(ordinal: int): int
    decreases if ordinal < 0 then -ordinal else ordinal
  {
    if ordinal == 0 then 0
    else if ordinal > 0 then FirstDay(ordinal - 1) + MonthLength(ordinal - 1)
    else FirstDay(ordinal + 1) - MonthLength(ordinal)
  }

  ghost predicate MonthHoldsDay(ordinal: int, day: int) {
    FirstDay(ordinal) <= day < FirstDay(ordinal + 1)
  }

  // ---------- the source's arithmetic ----------

  const I32_MAX: int := 0x7fff_ffff
  const I64_MAX: int := 0x7fff_ffff_ffff_ffff

  function YearOfEra(doe: int): int {
    (doe - doe / 1460 + doe / 36_524 - doe / 146_096) / 365
  }

  /** Days to (year, month) before the year is squeezed into an `i32`. */
  function CivilFromDays(daysSinceEpoch: int): YearMonth {
    var z := daysSinceEpoch + 719_468;
    var era := z / 146_097;
    var doe := z % 146_097;
    var yoe := YearOfEra(doe);
    var y := yoe + era * 400;
    var doy := doe - (365 * yoe + yoe / 4 - yoe / 100);
    var mp := (5 * doy + 2) / 153;
    var m := if mp < 10 then mp + 3 else mp - 9;
    YearMonth(if m <= 2 then y + 1 else y, m)
  }

  /** `civil_year_month`: an out-of-range year becomes the largest `i32` (on either side). */
  function CivilYearMonth(daysSinceEpoch: int): YearMonth {
    var ym := CivilFromDays(daysSinceEpoch);
    if -I32_MAX - 1 <= ym.year <= I32_MAX then ym else ym.(year := I32_MAX)
  }

  /** `year_month`: a clock before 1970 counts as 1970; seconds saturate at the largest `i64`. */
  function YearMonthNow(unixSeconds: int): YearMonth {
    var secs := if unixSeconds < 0 then 0 else if unixSeconds <= I64_MAX then unixSeconds else I64_MAX;
    CivilYearMonth(secs / 86_400)
  }

  /** The curation tool's copy: 64-bit years, and seconds past the largest `i64` count as 0. */
  function CurateYearMonthNow(unixSeconds: int): YearMonth {
    var secs := if 0 <= unixSeconds <= I64_MAX then unixSeconds else 0;
    CivilFromDays(secs / 86_400)
  }

  function PreviousMonth(ym: YearMonth): YearMonth {
    if ym.month == 1 then YearMonth(ym.year - 1, 12) else YearMonth(ym.year, ym.month - 1)
  }

  /** The two release months whose download is tried, newest first. */
  function CandidateMonths(unixSeconds: int): (YearMonth, YearMonth) {
    var now := YearMonthNow(unixSeconds);
    (now, PreviousMonth(now))
  }

  // ---------- the month-by-month calendar in closed form ----------

  /** Days before year `n` of a 400-year cycle that begins on a 1st of March. */
  function CycleDays(n: int): int {
    365 * n + n / 4 - n / 100
  }

  /** Days from a 1st of March to the 1st of the month `mp` months later. */
  function MarchDays(mp: int): int {
    (153 * mp + 2) / 5
  }

  /** Closed form of `FirstDay` for the month `mp` months after March of year `400 * era + yoe`. */
  function ClosedFirstDay(era: int, yoe: int, mp: int): int {
    146_097 * era + CycleDays(yoe) + MarchDays(mp) - 719_468
  }

  /** The ordinal of the month `mp` months after March of year `400 * era + yoe`. */
  function MarchOrdinal(era: int, yoe: int, mp: int): int {
    (400 * era + yoe - 1970) * 12 + 2 + mp
  }

  lemma OrdinalOfMonthOf(ordinal: int)
    ensures OrdinalOf(MonthOf(ordinal)) == ordinal
    ensures 1 <= MonthOf(ordinal).month <= 12
  {
  }

  lemma MonthOfOrdinalOf(ym: YearMonth)
    requires 1 <= ym.month <= 12
    ensures MonthOf(OrdinalOf(ym)) == ym
  {
  }

  /** The next month in March-based coordinates. */
  function NextMarch(era: int, yoe: int, mp: int): (int, int, int) {
    if mp < 11 then (era, yoe, mp + 1)
    else if yoe < 399 then (era, yoe + 1, 0)
    else (era + 1, 0, 0)
  }

  /** Shifting a year by whole 400-year cycles does not change whether it is a leap year. */
  lemma LeapYearHasPeriod400(era: int, n: int)
    ensures IsLeapYear(400 * era + n) == IsLeapYear(n)
  {
    assert (400 * era + n) % 4 == n % 4 by { ShiftMod(100 * era, n, 4); }
    assert (400 * era + n) % 100 == n % 100 by { ShiftMod(4 * era, n, 100); }
    assert (400 * era + n) % 400 == n % 400 by { ShiftMod(era, n, 400); }
  }

  lemma ShiftMod(k: int, n: int, d: int)
    requires d == 4 || d == 100 || d == 400
    ensures (d * k + n) % d == n % d
  {
  }

  lemma MarchMonth(era: int, yoe: int, mp: int)
    requires 0 <= mp < 12
    ensures MonthOf(MarchOrdinal(era, yoe, mp))
         == if mp < 10 then YearMonth(400 * era + yoe, mp + 3) else YearMonth(400 * era + yoe + 1, mp - 9)
  {
  }

  /** A March-based year has 366 days exactly when the February that ends it has 29. */
  lemma CycleYearLength(n: int)
    requires 0 <= n < 399
    ensures CycleDays(n + 1) - CycleDays(n) == if IsLeapYear(n + 1) then 366 else 365
  {
    assert (n + 1) / 4 - n / 4 == if (n + 1) % 4 == 0 then 1 else 0;
    assert (n + 1) / 100 - n / 100 == if (n + 1) % 100 == 0 then 1 else 0;
    assert (n + 1) % 100 == 0 ==> (n + 1) % 4 == 0;
    assert (n + 1) % 400 != 0;
  }

  /** From March to January no month is a February, so the leap rule does not matter. */
  lemma MarchDaysStep(era: int, yoe: int, mp: int)
    requires 0 <= mp < 11
    ensures MarchDays(mp + 1) - MarchDays(mp) == MonthLength(MarchOrdinal(era, yoe, mp))
  {
    MarchMonth(era, yoe, mp);
  }

  lemma FebruaryLength(era: int, yoe: int)
    ensures MonthLength(MarchOrdinal(era, yoe, 11)) == if IsLeapYear(yoe + 1) then 29 else 28
  {
    MarchMonth(era, yoe, 11);
    LeapYearHasPeriod400(era, yoe + 1);
    assert 400 * era + yoe + 1 == 400 * era + (yoe + 1);
  }

  lemma ClosedStepWithinCycle(era: int, yoe: int)
    requires 0 <= yoe < 399
    ensures ClosedFirstDay(era, yoe + 1, 0) == ClosedFirstDay(era, yoe, 11) + if IsLeapYear(yoe + 1) then 29 else 28
  {
    CycleYearLength(yoe);
  }

  lemma ClosedStepOverCycleEnd(era: int)
    ensures ClosedFirstDay(era + 1, 0, 0) == ClosedFirstDay(era, 399, 11) + 29
    ensures IsLeapYear(400)
  {
  }

  lemma ClosedStep(era: int, yoe: int, mp: int)
    requires 0 <= yoe < 400 && 0 <= mp < 12
    ensures var (e, y, p) := NextMarch(era, yoe, mp);
            && MarchOrdinal(e, y, p) == MarchOrdinal(era, yoe, mp) + 1
            && ClosedFirstDay(e, y, p) == ClosedFirstDay(era, yoe, mp) + MonthLength(MarchOrdinal(era, yoe, mp))
  {
    if mp < 11 {
      MarchDaysStep(era, yoe, mp);
    } else {
      FebruaryLength(era, yoe);
      if yoe < 399 {
        ClosedStepWithinCycle(era, yoe);
      } else {
        ClosedStepOverCycleEnd(era);
      }
    }
  }

  lemma ClosedFirstDayIsFirstDay(era: int, yoe: int, mp: int)
    requires 0 <= yoe < 400 && 0 <= mp < 12
    ensures FirstDay(MarchOrdinal(era, yoe, mp)) == ClosedFirstDay(era, yoe, mp)
  {
    ClosedForOrdinal(MarchOrdinal(era, yoe, mp));
    MarchCoordinatesUnique(era, yoe, mp);
  }

  /** The March-based coordinates of an ordinal. */
  function Coordinates(ordinal: int): (c: (int, int, int))
    ensures 0 <= c.1 < 400 && 0 <= c.2 < 12
    ensures MarchOrdinal(c.0, c.1, c.2) == ordinal
  {
    var n := ordinal - 2 + 1970 * 12;
    var year := n / 12;
    (year / 400, year % 400, n % 12)
  }

  lemma MarchCoordinatesUnique(era: int, yoe: int, mp: int)
    requires 0 <= yoe < 400 && 0 <= mp < 12
    ensures Coordinates(MarchOrdinal(era, yoe, mp)) == (era, yoe, mp)
  {
    DivMod12(400 * era + yoe, mp);
    DivMod400(era, yoe);
  }

  lemma DivMod12(q: int, r: int)
    requires 0 <= r < 12
    ensures (12 * q + r) / 12 == q && (12 * q + r) % 12 == r
  {
  }

  lemma DivMod400(q: int, r: int)
    requires 0 <= r < 400
    ensures (400 * q + r) / 400 == q && (400 * q + r) % 400 == r
  {
  }

  lemma CoordinatesStep(ordinal: int)
    ensures var (e, y, p) := Coordinates(ordinal);
            Coordinates(ordinal + 1) == NextMarch(e, y, p)
  {
    var (e, y, p) := Coordinates(ordinal);
    ClosedStep(e, y, p);
    var (e', y', p') := NextMarch(e, y, p);
    MarchCoordinatesUnique(e', y', p');
  }

  /** The closed form of an ordinal's first day. */
  function ClosedDay(ordinal: int): int {
    var (e, y, p) := Coordinates(ordinal);
    ClosedFirstDay(e, y, p)
  }

  lemma ClosedDayStep(ordinal: int)
    ensures ClosedDay(ordinal + 1) == ClosedDay(ordinal) + MonthLength(ordinal)
  {
    var (e, y, p) := Coordinates(ordinal);
    CoordinatesStep(ordinal);
    ClosedStep(e, y, p);
  }

  /** Only the month-by-month sum starts at 0 and grows by each month's length. */
  lemma {:induction false} FirstDayIsTheOnlySum(f: int -> int, ordinal: int)
    requires f(0) == 0
    requires forall o :: f(o + 1) == f(o) + MonthLength(o)
    ensures FirstDay(ordinal) == f(ordinal)
    decreases if ordinal < 0 then -ordinal else ordinal
  {
    if ordinal > 0 {
      FirstDayIsTheOnlySum(f, ordinal - 1);
      assert f(ordinal - 1 + 1) == f(ordinal - 1) + MonthLength(ordinal - 1);
    } else if ordinal < 0 {
      FirstDayIsTheOnlySum(f, ordinal + 1);
      assert f(ordinal + 1) == f(ordinal) + MonthLength(ordinal);
    }
  }

  lemma ClosedDayZero()
    ensures ClosedDay(0) == 0
  {
    assert Coordinates(0) == (4, 369, 10);
  }

  lemma ClosedForOrdinal(ordinal: int)
    ensures FirstDay(ordinal) == ClosedDay(ordinal)
  {
    ClosedDayZero();
    forall o ensures ClosedDay(o + 1) == ClosedDay(o) + MonthLength(o) {
      ClosedDayStep(o);
    }
    FirstDayIsTheOnlySum(ClosedDay, ordinal);
  }

  // ---------- the era arithmetic finds the month ----------

  /** Day `r` of year `c` of the four-year group `b` of century `a` of the era. */
  lemma YearOfEraFromParts(a: int, b: int, c: int, r: int, doe: int)
    requires 0 <= a < 4 && 0 <= b < 25 && 0 <= c < 4 && 0 <= r <= 365 && (r == 365 ==> c == 3)
    requires doe == 36_524 * a + 1461 * b + 365 * c + r
    requires doe < 146_097 && (doe == 146_096 || doe < 36_524 * (a + 1))
    ensures YearOfEra(doe) == 100 * a + 4 * b + c
    ensures CycleDays(YearOfEra(doe)) == doe - r
  {
    var t := 24 * a + b + 365 * c + r;
    var carry := if t >= 1460 then 1 else 0;
    assert doe / 1460 == 25 * a + b + carry by {
      assert doe == 1460 * (25 * a + b) + t;
    }
    assert doe / 36_524 - doe / 146_096 == a;
    var year := 100 * a + 4 * b + c;
    assert doe - doe / 1460 + doe / 36_524 - doe / 146_096 == 365 * year + (r - carry);
    assert year / 4 == 25 * a + b;
    assert year / 100 == a;
  }

  /** The year-of-era formula inverts `CycleDays`: it names the last year begun by day `doe`. */
  lemma YearOfEraInvertsCycleDays(doe: int)
    requires 0 <= doe < 146_097
    ensures 0 <= YearOfEra(doe) < 400
    ensures CycleDays(YearOfEra(doe)) <= doe
    ensures if YearOfEra(doe) < 399 then doe < CycleDays(YearOfEra(doe) + 1) else doe - CycleDays(399) <= 365
  {
    var a := if doe == 146_096 then 3 else doe / 36_524;
    var inCentury := doe - 36_524 * a;
    var b := inCentury / 1461;
    var inGroup := inCentury - 1461 * b;
    var c := if inGroup == 1460 then 3 else inGroup / 365;
    YearOfEraFromParts(a, b, c, inGroup - 365 * c, doe);
    if YearOfEra(doe) < 399 {
      NextYearFromParts(a, b, c, inGroup - 365 * c, doe);
    }
  }

  lemma NextYearFromParts(a: int, b: int, c: int, r: int, doe: int)
    requires 0 <= a < 4 && 0 <= b < 25 && 0 <= c < 4 && 0 <= r <= 365 && (r == 365 ==> c == 3)
    requires doe == 36_524 * a + 1461 * b + 365 * c + r
    requires doe < 36_524 * (a + 1) || doe == 146_096
    requires 100 * a + 4 * b + c < 399
    ensures doe < CycleDays(100 * a + 4 * b + c + 1)
  {
    CycleYearLength(100 * a + 4 * b + c);
    var year := 100 * a + 4 * b + c;
    assert year / 4 == 25 * a + b;
    assert year / 100 == a;
    if c == 3 {
      assert year + 1 == 4 * (25 * a + b + 1);
      if b == 24 {
        assert year + 1 == 100 * (a + 1);
      }
    }
  }

  /** The month-of-year formula inverts `MarchDays`. */
  lemma MonthInvertsMarchDays(doy: int)
    requires 0 <= doy <= 365
    ensures var mp := (5 * doy + 2) / 153;
            0 <= mp < 12 && MarchDays(mp) <= doy && (mp < 11 ==> doy < MarchDays(mp + 1))
  {
  }

  lemma CivilFromDaysInMarchCoordinates(day: int, era: int, yoe: int, mp: int)
    requires era == (day + 719_468) / 146_097
    requires yoe == YearOfEra((day + 719_468) % 146_097)
    requires mp == (5 * ((day + 719_468) % 146_097 - CycleDays(yoe)) + 2) / 153
    requires 0 <= yoe < 400 && 0 <= mp < 12
    ensures CivilFromDays(day) == MonthOf(MarchOrdinal(era, yoe, mp))
  {
    MarchMonth(era, yoe, mp);
  }

  /** Day `doy` of a March-based year falls in the month its month-of-year formula names. */
  lemma MarchOrdinalHoldsDay(era: int, yoe: int, doy: int, mp: int)
    requires 0 <= yoe < 400 && 0 <= doy <= 365
    requires yoe < 399 ==> CycleDays(yoe) + doy < CycleDays(yoe + 1)
    requires mp == (5 * doy + 2) / 153 && 0 <= mp < 12
    ensures MonthHoldsDay(MarchOrdinal(era, yoe, mp), 146_097 * era + CycleDays(yoe) + doy - 719_468)
  {
    MonthInvertsMarchDays(doy);
    ClosedFirstDayIsFirstDay(era, yoe, mp);
    var (e, y, p) := NextMarch(era, yoe, mp);
    ClosedStep(era, yoe, mp);
    ClosedFirstDayIsFirstDay(e, y, p);
  }

  /** The computed month is the calendar month that holds the day, for every day. */
  lemma CivilFromDaysHoldsTheDay(day: int)
    ensures 1 <= CivilFromDays(day).month <= 12
    ensures MonthHoldsDay(OrdinalOf(CivilFromDays(day)), day)
  {
    var z := day + 719_468;
    var era, doe := z / 146_097, z % 146_097;
    YearOfEraInvertsCycleDays(doe);
    var yoe := YearOfEra(doe);
    var doy := doe - CycleDays(yoe);
    assert 0 <= doy <= 365 by {
      if yoe < 399 { CycleYearLength(yoe); }
    }
    MonthInvertsMarchDays(doy);
    var mp := (5 * doy + 2) / 153;
    CivilFromDaysInMarchCoordinates(day, era, yoe, mp);
    MarchOrdinalHoldsDay(era, yoe, doy, mp);
    assert 146_097 * era + CycleDays(yoe) + doy - 719_468 == day;
    OrdinalOfMonthOf(MarchOrdinal(era, yoe, mp));
  }

  // ---------- main results ----------

  lemma {:induction false} FirstDayIsStrictlyMonotone(a: int, b: int)
    requires a < b
    ensures FirstDay(a) < FirstDay(b)
    decreases b - a
  {
    assert FirstDay(b) == FirstDay(b - 1) + MonthLength(b - 1) by {
      if b <= 0 {
        assert FirstDay(b - 1) == FirstDay(b) - MonthLength(b - 1);
      }
    }
    if a < b - 1 {
      FirstDayIsStrictlyMonotone(a, b - 1);
    }
  }

  lemma MonthHoldingADayIsUnique(a: int, b: int, day: int)
    requires MonthHoldsDay(a, day) && MonthHoldsDay(b, day)
    ensures a == b
  {
    if a + 1 < b {
      FirstDayIsStrictlyMonotone(a + 1, b);
    } else if b + 1 < a {
      FirstDayIsStrictlyMonotone(b + 1, a);
    }
  }

  /** For every day count, the era arithmetic and the month-by-month calendar agree. */
  lemma CivilFromDaysIsTheUniqueMonth(day: int, ordinal: int)
    ensures CivilFromDays(day) == MonthOf(ordinal) <==> MonthHoldsDay(ordinal, day)
  {
    CivilFromDaysHoldsTheDay(day);
    OrdinalOfMonthOf(ordinal);
    MonthOfOrdinalOf(CivilFromDays(day));
    if MonthHoldsDay(ordinal, day) {
      MonthHoldingADayIsUnique(ordinal, OrdinalOf(CivilFromDays(day)), day);
    }
  }

  /** `civil_year_month` is right exactly for the days whose year fits an `i32`. */
  lemma CivilYearMonthIsRightIffYearFits(day: int, ordinal: int)
    requires MonthHoldsDay(ordinal, day)
    ensures CivilYearMonth(day) == MonthOf(ordinal) <==> -I32_MAX - 1 <= MonthOf(ordinal).year <= I32_MAX
  {
    CivilFromDaysIsTheUniqueMonth(day, ordinal);
  }

  /** Later days never fall in earlier months, so days and month boundaries compare alike. */
  lemma MonthIsBeforeIffDayIsBefore(day: int, ordinal: int)
    ensures OrdinalOf(CivilFromDays(day)) < ordinal <==> day < FirstDay(ordinal)
  {
    CivilFromDaysHoldsTheDay(day);
    var o := OrdinalOf(CivilFromDays(day));
    if o + 1 < ordinal {
      FirstDayIsStrictlyMonotone(o + 1, ordinal);
    } else if ordinal < o {
      FirstDayIsStrictlyMonotone(ordinal, o);
    }
  }

  /** The first day of the year that no longer fits an `i32`. */
  ghost function FirstUnrepresentableDay(): int {
    FirstDay(OrdinalOf(YearMonth(I32_MAX + 1, 1)))
  }

  /** The day the clock shows; before 1970 it counts as the first of 1970. */
  function CurrentDay(unixSeconds: int): int {
    (if unixSeconds < 0 then 0 else unixSeconds) / 86_400
  }

  lemma LargestDayBound()
    ensures ClosedFirstDay(5_368_709, 47, 10) <= I64_MAX / 86_400
  {
  }

  lemma FirstDayOfMarchMonth(era: int, yoe: int, mp: int, ordinal: int)
    requires 0 <= yoe < 400 && 0 <= mp < 12 && MarchOrdinal(era, yoe, mp) == ordinal
    ensures FirstDay(ordinal) == ClosedFirstDay(era, yoe, mp)
  {
    ClosedFirstDayIsFirstDay(era, yoe, mp);
  }

  lemma LargestSecondIsPastTheYears()
    ensures I64_MAX / 86_400 >= FirstUnrepresentableDay()
  {
    LargestDayBound();
    FirstDayOfMarchMonth(5_368_709, 47, 10, OrdinalOf(YearMonth(I32_MAX + 1, 1)));
  }

  lemma YearIsSmallIffDayIsEarly(day: int)
    ensures CivilFromDays(day).year <= I32_MAX <==> day < FirstUnrepresentableDay()
    ensures day >= 0 ==> CivilFromDays(day).year >= 1970
  {
    CivilFromDaysHoldsTheDay(day);
    MonthIsBeforeIffDayIsBefore(day, OrdinalOf(YearMonth(I32_MAX + 1, 1)));
    MonthIsBeforeIffDayIsBefore(day, 0);
  }

  lemma DayZeroIsInJanuary1970()
    ensures CivilFromDays(0) == YearMonth(1970, 1)
  {
    CivilFromDaysHoldsTheDay(0);
    MonthIsBeforeIffDayIsBefore(0, 0);
    MonthIsBeforeIffDayIsBefore(0, 1);
  }

  /** Both tools name the month of the current day; their answers part exactly from the first
      day of year 2^31 on, where one saturates and the other does not. */
  lemma BothClocksNameTheCurrentMonth(unixSeconds: int)
    ensures YearMonthNow(unixSeconds) == CurateYearMonthNow(unixSeconds)
      <==> CurrentDay(unixSeconds) < FirstUnrepresentableDay()
    ensures CurrentDay(unixSeconds) < FirstUnrepresentableDay() ==>
              MonthHoldsDay(OrdinalOf(YearMonthNow(unixSeconds)), CurrentDay(unixSeconds))
  {
    var day := CurrentDay(unixSeconds);
    LargestSecondIsPastTheYears();
    CivilFromDaysHoldsTheDay(day);
    YearIsSmallIffDayIsEarly(day);
    if unixSeconds > I64_MAX {
      assert day >= I64_MAX / 86_400;
      YearIsSmallIffDayIsEarly(I64_MAX / 86_400);
      DayZeroIsInJanuary1970();
    }
  }

  /** `previous_month` names the month that holds the day before the given month begins. */
  lemma PreviousMonthHoldsTheDayBefore(ym: YearMonth)
    requires 1 <= ym.month <= 12
    ensures 1 <= PreviousMonth(ym).month <= 12
    ensures OrdinalOf(PreviousMonth(ym)) == OrdinalOf(ym) - 1
    ensures MonthHoldsDay(OrdinalOf(PreviousMonth(ym)), FirstDay(OrdinalOf(ym)) - 1)
  {
    var o := OrdinalOf(ym);
    FirstDayIsStrictlyMonotone(o - 1, o);
  }

  /** The two download candidates are the current month and the one before it. */
  lemma CandidatesAreTheLastTwoMonths(unixSeconds: int)
    requires CurrentDay(unixSeconds) < FirstUnrepresentableDay()
    ensures var (newest, older) := CandidateMonths(unixSeconds);
            && MonthHoldsDay(OrdinalOf(newest), CurrentDay(unixSeconds))
            && MonthHoldsDay(OrdinalOf(older), FirstDay(OrdinalOf(newest)) - 1)
  {
    BothClocksNameTheCurrentMonth(unixSeconds);
    CurrentMonthIsAMonth(unixSeconds);
    PreviousMonthHoldsTheDayBefore(YearMonthNow(unixSeconds));
  }

  lemma CurrentMonthIsAMonth(unixSeconds: int)
    ensures 1 <= YearMonthNow(unixSeconds).month <= 12
  {
    var secs := if unixSeconds < 0 then 0 else if unixSeconds <= I64_MAX then unixSeconds else I64_MAX;
    CivilFromDaysHoldsTheDay(secs / 86_400);
  }

  // ---------- the month walk-back of the curation tool ----------

  const MONTH_LOOKBACK: nat := 12

  datatype Probe = Available | Missing | TransportError

  datatype WalkBackError = Http | NoFileWithinLookback

  predicate IsMonth(ym: YearMonth) {
    1 <= ym.month <= 12
  }

  /** Every month after ordinal `from` up to ordinal `to` is missing. */
  ghost predicate AllMissing(probe: YearMonth -> Probe, from: int, to: int) {
    forall ym :: IsMonth(ym) && from < OrdinalOf(ym) <= to ==> probe(ym).Missing?
  }

  /** `ym` is the month exactly `k` months before the one with ordinal `now`, and the newest from
      there on that is not missing. */
  ghost predicate FirstAnswer(probe: YearMonth -> Probe, now: int, k: nat, ym: YearMonth) {
    && k <= MONTH_LOOKBACK
    && IsMonth(ym) && OrdinalOf(ym) == now - k
    && !probe(ym).Missing?
    && AllMissing(probe, now - k, now)
  }

  lemma OrdinalIsInjective(a: YearMonth, b: YearMonth)
    requires IsMonth(a) && IsMonth(b) && OrdinalOf(a) == OrdinalOf(b)
    ensures a == b
  {
  }

  lemma OneMoreMissing(probe: YearMonth -> Probe, ym: YearMonth, now: int)
    requires IsMonth(ym) && probe(ym).Missing? && AllMissing(probe, OrdinalOf(ym), now)
    ensures AllMissing(probe, OrdinalOf(ym) - 1, now)
  {
    forall m | IsMonth(m) && OrdinalOf(ym) - 1 < OrdinalOf(m) <= now ensures probe(m).Missing? {
      if OrdinalOf(m) == OrdinalOf(ym) {
        OrdinalIsInjective(m, ym);
      }
    }
  }

  lemma CurateMonthIsAMonth(unixSeconds: int)
    ensures IsMonth(CurateYearMonthNow(unixSeconds))
  {
    CivilFromDaysHoldsTheDay((if 0 <= unixSeconds <= I64_MAX then unixSeconds else 0) / 86_400);
  }

  /** `resolve_latest_month`: tries the current month, then at most twelve earlier ones, and
      returns the newest whose file exists. A transport error ends the walk. */
  method ResolveLatestMonth(probe: YearMonth -> Probe, unixSeconds: int)
    returns (found: Result<YearMonth, WalkBackError>, steps: nat)
    ensures var now := OrdinalOf(CurateYearMonthNow(unixSeconds));
            match found
            case Success(ym) => FirstAnswer(probe, now, steps, ym) && probe(ym).Available?
            case Failure(Http) => exists ym :: FirstAnswer(probe, now, steps, ym) && probe(ym).TransportError?
            case Failure(NoFileWithinLookback) =>
              steps == MONTH_LOOKBACK + 1 && AllMissing(probe, now - steps, now)
  {
    var ym := CurateYearMonthNow(unixSeconds);
    ghost var now := OrdinalOf(ym);
    CurateMonthIsAMonth(unixSeconds);
    var year, month := ym.year, ym.month;
    steps := 0;
    while steps <= MONTH_LOOKBACK
      invariant steps <= MONTH_LOOKBACK + 1
      invariant IsMonth(YearMonth(year, month)) && OrdinalOf(YearMonth(year, month)) == now - steps
      invariant AllMissing(probe, now - steps, now)
    {
      var answer := probe(YearMonth(year, month));
      if answer.TransportError? {
        assert FirstAnswer(probe, now, steps, YearMonth(year, month));
        return Failure(Http), steps;
      }
      if answer.Available? {
        return Success(YearMonth(year, month)), steps;
      }
      OneMoreMissing(probe, YearMonth(year, month), now);
      if month == 1 {
        month := 12;
        year := year - 1;
      } else {
        month := month - 1;
      }
      steps := steps + 1;
    }
    found := Failure(NoFileWithinLookback);
  }

  lemma SameSecondsSameMonth(a: int, b: int)
    requires (if a < 0 then 0 else if a <= I64_MAX then a else I64_MAX)
          == (if b < 0 then 0 else if b <= I64_MAX then b else I64_MAX)
    ensures YearMonthNow(a) == YearMonthNow(b)
  {
  }

  /** Both copies take a clock before 1970 for the first of 1970; past the largest 64-bit second the updater
      stays at that second and the curation tool goes back to 1970. */
  lemma ClockIsHeldIn64Bits(unixSeconds: int)
    ensures unixSeconds < 0 ==> YearMonthNow(unixSeconds) == CurateYearMonthNow(unixSeconds) == YearMonth(1970, 1)
    ensures unixSeconds > I64_MAX ==>
              && YearMonthNow(unixSeconds) == YearMonthNow(I64_MAX)
              && CurateYearMonthNow(unixSeconds) == YearMonth(1970, 1)
  {
    DayZeroIsInJanuary1970();
    if unixSeconds < 0 {
      SameSecondsSameMonth(unixSeconds, 0);
    } else if unixSeconds > I64_MAX {
      SameSecondsSameMonth(unixSeconds, I64_MAX);
    }
  }
}
