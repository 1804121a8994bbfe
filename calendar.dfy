/** Python's `datetime.date` as far as the statistics use it: the proleptic
    Gregorian ordinal (`toordinal`, 0001-01-01 is day 1), day arithmetic
    through that ordinal (`today - timedelta(weeks=n)`), `isocalendar()`
    exactly as CPython computes it, and the week key `f"{year}-W{week:02d}"`. */
module Calendar {
  import opened Common

  datatype Date = Date(year: int, month: int, day: int)

  predicate IsLeapYear(y: int)
  {
    y % 4 == 0 && (y % 100 != 0 || y % 400 == 0)
  }

  function DaysInMonth(y: int, m: int): int
    requires 1 <= m <= 12
  {
    if m == 2 then (if IsLeapYear(y) then 29 else 28)
    else if m == 4 || m == 6 || m == 9 || m == 11 then 30
    else 31
  }

  /** A date `datetime.date` accepts: years 1 to 9999 (MINYEAR, MAXYEAR). */
  predicate ValidDate(d: Date)
  {
    1 <= d.year <= 9999 && 1 <= d.month <= 12 && 1 <= d.day <= DaysInMonth(d.year, d.month)
  }

  type CalendarDate = d: Date | ValidDate(d) witness Date(1, 1, 1)

  /** Days in the years before `y`; Dafny's `/` floors for a positive
      divisor, as Python's `//` does. */
  function DaysBeforeYear(y: int): int
  {
    var p := y - 1;
    p * 365 + p / 4 - p / 100 + p / 400
  }

  /** Days in the months of year `y` before month `m`. */
  function DaysBeforeMonth(y: int, m: int): int
    requires 1 <= m <= 12
  {
    var common :=
      if m == 1 then 0 else if m == 2 then 31 else if m == 3 then 59
      else if m == 4 then 90 else if m == 5 then 120 else if m == 6 then 151
      else if m == 7 then 181 else if m == 8 then 212 else if m == 9 then 243
      else if m == 10 then 273 else if m == 11 then 304 else 334;
    common + (if m > 2 && IsLeapYear(y) then 1 else 0)
  }

  /** `date.toordinal()` */
  function Ordinal(d: CalendarDate): int
  {
    DaysBeforeYear(d.year) + DaysBeforeMonth(d.year, d.month) + d.day
  }

  /** `date.weekday()`: Monday is 0, Sunday is 6. */
  function Weekday(d: CalendarDate): int
  {
    (Ordinal(d) + 6) % 7
  }

  /** A year has 365 days, 366 when it is a leap year. */
  lemma YearLength(y: int)
    ensures DaysBeforeYear(y + 1) - DaysBeforeYear(y) == if IsLeapYear(y) then 366 else 365
  {
    StepOver4(y);
    StepOver100(y);
    StepOver400(y);
  }

  /** Moving from `y - 1` to `y` passes a multiple of 4 exactly when `y`
      is one; likewise for 100 and 400. */
  lemma StepOver4(y: int)
    ensures y / 4 - (y - 1) / 4 == if y % 4 == 0 then 1 else 0
  {
  }

  lemma StepOver100(y: int)
    ensures y / 100 - (y - 1) / 100 == if y % 100 == 0 then 1 else 0
  {
  }

  lemma StepOver400(y: int)
    ensures y / 400 - (y - 1) / 400 == if y % 400 == 0 then 1 else 0
  {
  }

  /** Every day of year `y` lies between its 1 January and its 31 December. */
  lemma OrdinalInYear(d: CalendarDate)
    ensures DaysBeforeYear(d.year) + 1 <= Ordinal(d) <= DaysBeforeYear(d.year + 1)
  {
    YearLength(d.year);
  }

  /** The ordinal follows the calendar: it grows with the year, then the
      month, then the day, so comparing ordinals compares dates. */
  lemma OrdinalMonotone(a: CalendarDate, b: CalendarDate)
    requires a.year < b.year || (a.year == b.year && (a.month < b.month || (a.month == b.month && a.day < b.day)))
    ensures Ordinal(a) < Ordinal(b)
  {
    if a.year < b.year {
      OrdinalInYear(a);
      OrdinalInYear(b);
      YearsBefore(a.year + 1, b.year);
    }
  }

  lemma {:induction false} YearsBefore(x: int, y: int)
    requires x <= y
    ensures DaysBeforeYear(x) <= DaysBeforeYear(y)
    decreases y - x
  {
    if x < y {
      YearLength(x);
      YearsBefore(x + 1, y);
    }
  }

  /** Comparing dates (`date >= other`) is comparing ordinals, and two
      valid dates with the same ordinal are the same date. */
  lemma OrdinalInjective(a: CalendarDate, b: CalendarDate)
    ensures Ordinal(a) == Ordinal(b) <==> a == b
  {
    if a != b {
      if a.year < b.year || (a.year == b.year && (a.month < b.month || (a.month == b.month && a.day < b.day))) {
        OrdinalMonotone(a, b);
      } else {
        OrdinalMonotone(b, a);
      }
    }
  }

  /** The ordinal of 9999-12-31, the last day `date` can hold. */
  const MaxOrdinal := 3652059

  /** Every date's ordinal lies between that of 0001-01-01 (1) and that of
      9999-12-31. */
  lemma OrdinalRange(d: CalendarDate)
    ensures 1 <= Ordinal(d) <= MaxOrdinal
    ensures Ordinal(Date(9999, 12, 31)) == MaxOrdinal
  {
    OrdinalInYear(d);
    YearsBefore(1, d.year);
    YearsBefore(d.year + 1, 10000);
  }

  /** `today - timedelta(days=days)` as a day ordinal. CPython raises
      OverflowError when the result falls before 0001-01-01 or after
      9999-12-31; a timedelta too large to build raises OverflowError as
      well, and would land outside that range anyway. */
  function DaysBefore(today: CalendarDate, days: int): Outcome<int>
  {
    var start := Ordinal(today) - days;
    if 1 <= start <= MaxOrdinal then Ok(start) else Raised(OverflowError)
  }

  /** The value `DaysBefore` computes. */
  lemma DaysBeforeOf(today: CalendarDate, days: int)
    ensures DaysBefore(today, days)
         == if 1 <= Ordinal(today) - days <= MaxOrdinal then Ok(Ordinal(today) - days) else Raised(OverflowError)
  {
  }

  /** Looking back fewer days than have passed since 0001-01-01 always
      succeeds; looking back as far as that day or further always raises,
      as does looking forward past 9999-12-31. */
  lemma DaysBeforeRaises(today: CalendarDate, days: int)
    ensures 0 <= days < Ordinal(today) ==> DaysBefore(today, days) == Ok(Ordinal(today) - days)
    ensures days >= Ordinal(today) ==> DaysBefore(today, days) == Raised(OverflowError)
    ensures days < Ordinal(today) - MaxOrdinal ==> DaysBefore(today, days) == Raised(OverflowError)
    ensures DaysBefore(today, days).Raised? ==> days >= Ordinal(today) || days < 0
  {
    OrdinalRange(today);
  }

  /** CPython's `_isoweek1monday(year)`: the ordinal of the Monday that
      starts ISO week 1, the week holding the year's first Thursday. */
  function IsoWeek1Monday(year: int): int
  {
    Week1MondayFrom(DaysBeforeYear(year) + 1)
  }

  /** The Monday of the week holding the first Thursday on or after the
      ordinal `firstDay` of a 1 January. */
  function Week1MondayFrom(firstDay: int): int
  {
    var firstWeekday := (firstDay + 6) % 7;
    var week1Monday := firstDay - firstWeekday;
    if firstWeekday > 3 then week1Monday + 7 else week1Monday
  }

  lemma Week1MondayFromBounds(firstDay: int)
    ensures (Week1MondayFrom(firstDay) + 6) % 7 == 0
    ensures firstDay - 3 <= Week1MondayFrom(firstDay) <= firstDay + 3
  {
    var w := (firstDay + 6) % 7;
    var q := (firstDay + 6) / 7;
    assert firstDay + 6 == 7 * q + w;
    var m := Week1MondayFrom(firstDay);
    if w > 3 {
      assert m + 6 == 7 * (q + 1);
    } else {
      assert m + 6 == 7 * q;
    }
  }

  /** Week 1 starts on a Monday between 29 December and 4 January. */
  lemma Week1MondayBounds(year: int)
    ensures (IsoWeek1Monday(year) + 6) % 7 == 0
    ensures DaysBeforeYear(year) - 2 <= IsoWeek1Monday(year) <= DaysBeforeYear(year) + 4
  {
    Week1MondayFromBounds(DaysBeforeYear(year) + 1);
  }

  /** Consecutive week-1 Mondays are 52 or 53 weeks apart. */
  lemma Week1MondayGap(year: int)
    ensures IsoWeek1Monday(year + 1) - IsoWeek1Monday(year) == 364
         || IsoWeek1Monday(year + 1) - IsoWeek1Monday(year) == 371
  {
    var a, b := IsoWeek1Monday(year), IsoWeek1Monday(year + 1);
    Week1MondayBounds(year);
    Week1MondayBounds(year + 1);
    YearLength(year);
    var qa, qb := (a + 6) / 7, (b + 6) / 7;
    assert a == 7 * qa - 6 && b == 7 * qb - 6;
    assert 359 <= 7 * (qb - qa) <= 372;
  }

  /** A day `t` at most 371 days after a Monday `m` falls in week
      `(t - m) / 7` counted from `m`, on the weekday `date.weekday()` gives. */
  lemma WeekSplit(t: int, m: int, g: int)
    requires (m + 6) % 7 == 0
    requires 0 <= t - m < g <= 371
    ensures 0 <= (t - m) / 7 <= 52
    ensures (t - m) % 7 == (t + 6) % 7
  {
    var q := (m + 6) / 7;
    assert t - m == (t + 6) - 7 * q;
    var x := t + 6;
    assert x == 7 * (x / 7) + x % 7;
    assert x - 7 * q == 7 * (x / 7 - q) + x % 7;
  }

  datatype IsoDate = IsoDate(year: int, week: int, weekday: int)

  /** CPython's `isocalendar()` on the ordinal `today` of a day of `year`:
      a day before the Monday of week 1 belongs to the last week of the
      previous year, and a day in week 53 or later on or after next year's
      week-1 Monday belongs to week 1 of the next year. */
  function IsoOfOrdinal(today: int, year: int): IsoDate
  {
    var w1 := IsoWeek1Monday(year);
    var week := (today - w1) / 7;
    var day := (today - w1) % 7;
    if week < 0 then
      var w0 := IsoWeek1Monday(year - 1);
      IsoDate(year - 1, (today - w0) / 7 + 1, (today - w0) % 7 + 1)
    else if week >= 52 && today >= IsoWeek1Monday(year + 1) then
      IsoDate(year + 1, 1, day + 1)
    else
      IsoDate(year, week + 1, day + 1)
  }

  /** `r` is a week date naming day `today`: week 1 to 53, weekday 1
      (Monday) to 7 (Sunday), the Monday of that week plus the weekday is
      the day, and the day lies before week 1 of the following ISO year. */
  predicate IsWeekDateOf(r: IsoDate, today: int)
  {
    && 1 <= r.week <= 53 && 1 <= r.weekday <= 7
    && today == IsoWeek1Monday(r.year) + 7 * (r.week - 1) + (r.weekday - 1)
    && today < IsoWeek1Monday(r.year + 1)
    && r.weekday == (today + 6) % 7 + 1
  }

  /** For a day of `year`, the ISO date is a week date naming the same day:
      week 1 to 53 of the previous, same or next year, and the weekday of
      `date.weekday()` counted from 1; the day lies before week 1 of the
      following ISO year, so no other week date names it. */
  lemma IsoOfOrdinalSpec(today: int, year: int)
    requires DaysBeforeYear(year) + 1 <= today <= DaysBeforeYear(year + 1)
    ensures var r := IsoOfOrdinal(today, year);
      IsWeekDateOf(r, today) && year - 1 <= r.year <= year + 1
  {
    var week := (today - IsoWeek1Monday(year)) / 7;
    if week < 0 {
      PreviousYearOf(today, year);
    } else if week >= 52 && today >= IsoWeek1Monday(year + 1) {
      NextYearOf(today, year);
    } else {
      SameYearOf(today, year);
    }
  }

  lemma PreviousYearOf(today: int, year: int)
    requires DaysBeforeYear(year) + 1 <= today
    requires (today - IsoWeek1Monday(year)) / 7 < 0
    ensures IsWeekDateOf(IsoOfOrdinal(today, year), today)
    ensures IsoOfOrdinal(today, year).year == year - 1
  {
    var w0 := IsoWeek1Monday(year - 1);
    PreviousYearDate(today, year);
    assert IsoOfOrdinal(today, year) == IsoDate(year - 1, (today - w0) / 7 + 1, (today - w0) % 7 + 1);
  }

  lemma NextYearOf(today: int, year: int)
    requires today <= DaysBeforeYear(year + 1)
    requires (today - IsoWeek1Monday(year)) / 7 >= 52
    requires today >= IsoWeek1Monday(year + 1)
    ensures IsWeekDateOf(IsoOfOrdinal(today, year), today)
    ensures IsoOfOrdinal(today, year).year == year + 1
  {
    NextYearDate(today, year);
    assert IsoOfOrdinal(today, year) == IsoDate(year + 1, 1, (today - IsoWeek1Monday(year)) % 7 + 1);
  }

  lemma SameYearOf(today: int, year: int)
    requires today <= DaysBeforeYear(year + 1)
    requires (today - IsoWeek1Monday(year)) / 7 >= 0
    requires (today - IsoWeek1Monday(year)) / 7 < 52 || today < IsoWeek1Monday(year + 1)
    ensures IsWeekDateOf(IsoOfOrdinal(today, year), today)
    ensures IsoOfOrdinal(today, year).year == year
  {
    var w1 := IsoWeek1Monday(year);
    SameYearDate(today, year);
    assert IsoOfOrdinal(today, year) == IsoDate(year, (today - w1) / 7 + 1, (today - w1) % 7 + 1);
  }

  /** A day before week 1 is a week date of the previous ISO year. */
  lemma PreviousYearDate(today: int, year: int)
    requires DaysBeforeYear(year) + 1 <= today
    requires (today - IsoWeek1Monday(year)) / 7 < 0
    ensures var w0 := IsoWeek1Monday(year - 1);
      IsWeekDateOf(IsoDate(year - 1, (today - w0) / 7 + 1, (today - w0) % 7 + 1), today)
  {
    PreviousYearWeek(today, year);
  }

  /** A day on or after next year's week-1 Monday is in that week. */
  lemma NextYearDate(today: int, year: int)
    requires today <= DaysBeforeYear(year + 1)
    requires (today - IsoWeek1Monday(year)) / 7 >= 0
    requires today >= IsoWeek1Monday(year + 1)
    ensures IsWeekDateOf(IsoDate(year + 1, 1, (today - IsoWeek1Monday(year)) % 7 + 1), today)
  {
    NextYearWeek(today, year);
    Week1MondayBounds(year + 2);
    YearLength(year + 1);
  }

  /** Any other day is a week date of its own ISO year. */
  lemma SameYearDate(today: int, year: int)
    requires today <= DaysBeforeYear(year + 1)
    requires (today - IsoWeek1Monday(year)) / 7 >= 0
    requires (today - IsoWeek1Monday(year)) / 7 < 52 || today < IsoWeek1Monday(year + 1)
    ensures var w1 := IsoWeek1Monday(year);
      IsWeekDateOf(IsoDate(year, (today - w1) / 7 + 1, (today - w1) % 7 + 1), today)
  {
    SameYearWeek(today, year);
    Week1MondayGap(year);
  }

  lemma PreviousYearWeek(today: int, year: int)
    requires DaysBeforeYear(year) + 1 <= today
    requires (today - IsoWeek1Monday(year)) / 7 < 0
    ensures 0 <= (today - IsoWeek1Monday(year - 1)) / 7 <= 52
    ensures (today - IsoWeek1Monday(year - 1)) % 7 == (today + 6) % 7
  {
    var w0, w1 := IsoWeek1Monday(year - 1), IsoWeek1Monday(year);
    Week1MondayBounds(year);
    Week1MondayBounds(year - 1);
    Week1MondayGap(year - 1);
    YearLength(year - 1);
    WeekSplit(today, w0, w1 - w0);
  }

  lemma NextYearWeek(today: int, year: int)
    requires today <= DaysBeforeYear(year + 1)
    requires (today - IsoWeek1Monday(year)) / 7 >= 0
    requires today >= IsoWeek1Monday(year + 1)
    ensures (today - IsoWeek1Monday(year)) % 7 == (today + 6) % 7
    ensures today - IsoWeek1Monday(year + 1) == (today + 6) % 7
  {
    var w1, w2 := IsoWeek1Monday(year), IsoWeek1Monday(year + 1);
    Week1MondayBounds(year);
    Week1MondayBounds(year + 1);
    Week1MondayGap(year);
    YearLength(year);
    WeekSplit(today, w2, 7);
    WeekSplit(today, w1, 371);
  }

  lemma SameYearWeek(today: int, year: int)
    requires today <= DaysBeforeYear(year + 1)
    requires (today - IsoWeek1Monday(year)) / 7 >= 0
    requires (today - IsoWeek1Monday(year)) / 7 < 52 || today < IsoWeek1Monday(year + 1)
    ensures (today - IsoWeek1Monday(year)) / 7 <= 52
    ensures (today - IsoWeek1Monday(year)) % 7 == (today + 6) % 7
  {
    var w1, w2 := IsoWeek1Monday(year), IsoWeek1Monday(year + 1);
    Week1MondayBounds(year);
    Week1MondayGap(year);
    WeekSplit(today, w1, w2 - w1);
  }

  /** `date.isocalendar()` */
  function IsoCalendar(d: CalendarDate): IsoDate
  {
    IsoOfOrdinal(Ordinal(d), d.year)
  }

  /** `date.isocalendar()` names the same day as a week date: week 1 to 53
      of the previous, same or next year, weekday 1 (Monday) to 7 (Sunday),
      and the day falls before week 1 of the following ISO year. */
  lemma IsoCalendarSpec(d: CalendarDate)
    ensures var r := IsoCalendar(d);
      IsWeekDateOf(r, Ordinal(d)) && d.year - 1 <= r.year <= d.year + 1
  {
    OrdinalInYear(d);
    IsoOfOrdinalSpec(Ordinal(d), d.year);
  }

  lemma IsoOfOrdinalWeekday(today: int, year: int)
    requires DaysBeforeYear(year) + 1 <= today <= DaysBeforeYear(year + 1)
    ensures IsoOfOrdinal(today, year).weekday == (today + 6) % 7 + 1
  {
    IsoOfOrdinalSpec(today, year);
  }

  /** The ISO weekday is `date.weekday()` counted from 1. */
  lemma IsoCalendarWeekday(d: CalendarDate)
    ensures IsoCalendar(d).weekday == Weekday(d) + 1
  {
    OrdinalInYear(d);
    IsoOfOrdinalWeekday(Ordinal(d), d.year);
  }

  /** The digit character of `n`. */
  function DigitChar(n: int): (c: char)
    requires 0 <= n <= 9
    ensures '0' <= c <= '9'
  {
    (('0' as int) + n) as char
  }

  function DigitValue(c: char): int
  {
    (c as int) - ('0' as int)
  }

  predicate AllDigits(s: string)
  {
    forall i :: 0 <= i < |s| ==> '0' <= s[i] <= '9'
  }

  /** `str(n)` for a natural number. */
  function NatToString(n: nat): (s: string)
    ensures |s| >= 1 && AllDigits(s)
  {
    if n < 10 then [DigitChar(n)] else NatToString(n / 10) + [DigitChar(n % 10)]
  }

  /** The value of a string of decimal digits (`int(s)`). */
  function DecimalValue(s: string): int
  {
    if s == [] then 0 else DecimalValue(s[..|s| - 1]) * 10 + DigitValue(s[|s| - 1])
  }

  /** Reading back the digits `str` wrote gives the number. */
  lemma {:induction false} NatToStringRoundTrip(n: nat)
    ensures DecimalValue(NatToString(n)) == n
  {
    if n >= 10 {
      NatToStringRoundTrip(n / 10);
      var s := NatToString(n);
      assert s[..|s| - 1] == NatToString(n / 10);
    }
  }

  /** `str(n)` */
  function IntToString(n: int): string
  {
    if n >= 0 then NatToString(n) else "-" + NatToString(-n)
  }

  /** `f"{n:02d}"`: zero-padded to at least two characters. */
  function Format02(n: int): string
  {
    if 0 <= n < 10 then "0" + NatToString(n) else IntToString(n)
  }

  /** A week number is written with exactly two digits. */
  lemma Format02Week(week: int)
    requires 1 <= week <= 53
    ensures |Format02(week)| == 2 && AllDigits(Format02(week))
    ensures DecimalValue(Format02(week)) == week
  {
    var s := Format02(week);
    if week < 10 {
      assert s == ['0', DigitChar(week)];
      assert s[..1] == ['0'];
      assert DecimalValue(['0']) == 0 by {
        assert ['0'][..0] == [];
      }
    } else {
      assert NatToString(week) == NatToString(week / 10) + [DigitChar(week % 10)];
      NatToStringRoundTrip(week);
    }
  }

  /** `f"{annee}-W{semaine:02d}"` */
  function FormatWeekKey(year: int, week: int): string
  {
    IntToString(year) + "-W" + Format02(week)
  }

  /** The week key of a date, from its ISO year and week. */
  function WeekKey(d: CalendarDate): string
  {
    var iso := IsoCalendar(d);
    FormatWeekKey(iso.year, iso.week)
  }

  /** Reads a week key back: the year before "-W", the two-digit week after. */
  function ParseWeekKey(key: string): (int, int)
  {
    if |key| < 4 then (0, 0)
    else (DecimalValue(key[..|key| - 4]), DecimalValue(key[|key| - 2..]))
  }

  /** The week key determines the ISO year and week it was built from. */
  lemma ParseFormatWeekKey(year: nat, week: int)
    requires 1 <= week <= 53
    ensures ParseWeekKey(FormatWeekKey(year, week)) == (year, week)
  {
    var key := FormatWeekKey(year, week);
    var y, w := NatToString(year), Format02(week);
    Format02Week(week);
    NatToStringRoundTrip(year);
    assert key == y + "-W" + w;
    assert |key| == |y| + 4;
    assert key[..|key| - 4] == y;
    assert key[|key| - 2..] == w;
    assert ParseWeekKey(key) == (DecimalValue(y), DecimalValue(w));
  }

  /** A week key is the ISO year, "-W" and the two-digit ISO week of its
      date. */
  lemma WeekKeyShape(d: CalendarDate)
    ensures var iso := IsoCalendar(d);
      && WeekKey(d) == NatToString(iso.year) + "-W" + Format02(iso.week)
      && 1 <= iso.week <= 53 && |Format02(iso.week)| == 2 && AllDigits(Format02(iso.week))
  {
    IsoCalendarSpec(d);
    Format02Week(IsoCalendar(d).week);
  }

  /** Two dates share a week key exactly when they fall in the same ISO
      week of the same ISO year. */
  lemma WeekKeySameWeek(a: CalendarDate, b: CalendarDate)
    ensures WeekKey(a) == WeekKey(b)
        <==> IsoCalendar(a).year == IsoCalendar(b).year && IsoCalendar(a).week == IsoCalendar(b).week
  {
    var ia, ib := IsoCalendar(a), IsoCalendar(b);
    IsoCalendarSpec(a);
    IsoCalendarSpec(b);
    if WeekKey(a) == WeekKey(b) {
      ParseFormatWeekKey(ia.year, ia.week);
      ParseFormatWeekKey(ib.year, ib.week);
    }
  }

  /** Two dates with the same week key are less than a week apart. */
  lemma WeekKeyWithinAWeek(a: CalendarDate, b: CalendarDate)
    requires WeekKey(a) == WeekKey(b)
    ensures -7 < Ordinal(a) - Ordinal(b) < 7
  {
    WeekKeySameWeek(a, b);
    IsoCalendarSpec(a);
    IsoCalendarSpec(b);
  }

  /** 30 December 2024 is a Monday in week 1 of ISO year 2025. */
  lemma LateDecemberInNextYearsWeek1()
    ensures WeekKey(Date(2024, 12, 30)) == "2025-W01"
  {
    LateDecemberIso();
    Week1Of2025Text();
  }

  lemma Week1Of2025Text()
    ensures FormatWeekKey(2025, 1) == "2025-W01"
  {
    assert Format02(1) == "01";
    assert NatToString(2025) == "2025" by {
      assert NatToString(2) == "2";
      assert NatToString(20) == "20";
      assert NatToString(202) == "202";
    }
  }

  lemma LateDecemberIso()
    ensures IsoCalendar(Date(2024, 12, 30)) == IsoDate(2025, 1, 1)
  {
    var d: CalendarDate := Date(2024, 12, 30);
    assert Ordinal(d) == 739250;
    assert IsoWeek1Monday(2024) == 738886;
    assert IsoWeek1Monday(2025) == 739250;
  }

  /** 1 January 2021 is a Friday in week 53 of ISO year 2020. */
  lemma EarlyJanuaryInPreviousYearsWeek53()
    ensures WeekKey(Date(2021, 1, 1)) == "2020-W53"
  {
    EarlyJanuaryIso();
    Week53Of2020Text();
  }

  lemma EarlyJanuaryIso()
    ensures IsoCalendar(Date(2021, 1, 1)) == IsoDate(2020, 53, 5)
  {
    var d: CalendarDate := Date(2021, 1, 1);
    assert Ordinal(d) == 737791;
    assert IsoWeek1Monday(2021) == 737794;
    assert IsoWeek1Monday(2020) == 737423;
  }

  lemma Week53Of2020Text()
    ensures FormatWeekKey(2020, 53) == "2020-W53"
  {
    assert Format02(53) == "53" by {
      assert NatToString(5) == "5";
    }
    assert NatToString(2020) == "2020" by {
      assert NatToString(2) == "2";
      assert NatToString(20) == "20";
      assert NatToString(202) == "202";
    }
  }
}
