/** time.c and localtime.c: the daylight saving dates, their cache, and local time. */
module Daylight {
  import opened Calendar

  const DAY_MILLISEC := 86400000

  /** A cached transition: its year, day of the year, and millisecond of the day. */
  datatype Transition = Transition(yr: int, yd: int, ms: int)

  const UNSET := Transition(-1, 0, 0)

  /** A long of 32 bits. */
  function Int32(x: int): int
  {
    (x + 0x8000_0000) % 0x1_0000_0000 - 0x8000_0000
  }

  /** C's remainder, which takes the sign of the dividend. */
  function CMod7(a: int): int
  {
    if a >= 0 then a % 7 else -((-a) % 7)
  }

  /** The table for a year. */
  function Table(year: int): seq<int>
  {
    if LeapInt(year) then LPDAYS else DAYS
  }

  /** The part of cvtdate's sum for the weekday of the first of a month that is added up
      in ints: its value in the integers. Months count from 1. */
  function FirstSum(year: int, month: int): int
    requires 1 <= month <= 12
  {
    1 + Table(year)[month - 1] + (year - 70) * 365 + Int16(year - 1) / 4
  }

  /** The weekday cvtdate finds for the first of a month. */
  function MonthDow(year: int, month: int): int
    requires 1 <= month <= 12
  {
    CMod7(Int16(FirstSum(year, month)) - LEAP_YEAR_ADJUST + BASE_DOW)
  }

  /** cvtdate's day of the year for the `week`-th `dayofweek` of a month; week 5 is the
      last. */
  function TransitionDay(year: int, month: int, week: int, dayofweek: int): int
    requires 1 <= month <= 12
  {
    var first := 1 + Table(year)[month - 1];
    var monthdow := MonthDow(year, month);
    var day := first + (dayofweek - monthdow) + (if monthdow <= dayofweek then week - 1 else week) * 7;
    if week == 5 && day > Table(year)[month] then day - 7 else day
  }

  /** The last Sunday of March at 02:00, and the last Sunday of October at 02:00 daylight
      saving time, taken back to standard time. */
  function Start(year: int): Transition
  {
    Transition(year, TransitionDay(year, 3, 5, 0), 7200000)
  }

  function End(year: int): Transition
  {
    Transition(year, TransitionDay(year, 10, 5, 0), 7200000 + DST_BIAS * 1000)
  }

  /** The answer of time_isindst for two transition dates. */
  function Between(start: Transition, end: Transition, yday: int, ms: int): bool
  {
    if start.yd < end.yd && (yday < start.yd || yday > end.yd) then false
    else if start.yd < end.yd && yday > start.yd && yday < end.yd then true
    else if start.yd >= end.yd && (yday < end.yd || yday > start.yd) then true
    else if start.yd >= end.yd && yday > end.yd && yday < start.yd then false
    else if yday == start.yd then ms >= start.ms
    else ms < end.ms
  }

  function Millis(f: Fields): int
  {
    Int32(1000 * (f.sec + 60 * f.min + 3600 * f.hour))
  }

  /** Whether daylight saving is in effect, with the dates of the year of `f`. */
  function InDst(f: Fields): bool
  {
    Between(Start(f.year), End(f.year), f.yday, Millis(f))
  }

  // ----- the dates

  /** Day `yday` of `year` falls on weekday `dow`. */
  predicate FallsOn(year: int, yday: int, dow: int)
  {
    70 <= year && (DaysBefore(year) + yday + BASE_DOW) % 7 == dow
  }

  /** Day `yday` of `year` is the `week`-th `dow` of month `mon` (from 0), or for week 5
      the last. */
  predicate DayOfWeek(year: int, mon: int, week: int, dow: int, yday: int)
    requires 0 <= mon < 12
  {
    var start, end := MonthStart(Leap(year), mon), MonthStart(Leap(year), mon + 1);
    && FallsOn(year, yday, dow)
    && if week == 5 then start <= yday < end <= yday + 7 else start + 7 * (week - 1) <= yday < start + 7 * week
  }

  /** What the tables and the sum are for the years 1970 to 2099. */
  lemma FirstOfMonth(year: int, month: int)
    requires 70 <= year < 200 && 1 <= month <= 12
    ensures var leap := Leap(year);
            var first := MonthStart(leap, month - 1);
            && LeapInt(year) == leap && Table(year)[month - 1] == first - 1
            && Table(year)[month] == first + MonthLength(leap, month - 1) - 1
            && MonthStart(leap, month) == first + MonthLength(leap, month - 1)
            && 0 <= first && 0 <= FirstSum(year, month) < 0x1_0000
            && FirstSum(year, month) - LEAP_YEAR_ADJUST + BASE_DOW == DaysBefore(year) + first + BASE_DOW
  {
    hide DaysBefore, LeapInt;
    LeapIntFits(year);
    var leap := Leap(year);
    TableIsMonths(leap, month - 1);
    TableIsMonths(leap, month);
    StartPositive(leap, month - 1);
    DaysFormula(year);
  }

  /** cvtdate finds the right day exactly when the sum fits an int of 16 bits: when it
      wraps, the day is two weekdays late. */
  lemma WeekExact(year: int, month: int, week: int, dow: int)
    requires 70 <= year < 200 && 1 <= month <= 12 && 1 <= week <= 5 && 0 <= dow < 7
    ensures DayOfWeek(year, month - 1, week, dow, TransitionDay(year, month, week, dow)) <==> FirstSum(year, month) < 0x8000
    ensures FirstSum(year, month) >= 0x8000 ==> FallsOn(year, TransitionDay(year, month, week, dow), (dow + 2) % 7)
  {
    if FirstSum(year, month) < 0x8000 {
      WeekFits(year, month, week, dow);
    } else {
      WeekWraps(year, month, week, dow);
    }
  }

  lemma WeekFits(year: int, month: int, week: int, dow: int)
    requires 70 <= year < 200 && 1 <= month <= 12 && 1 <= week <= 5 && 0 <= dow < 7 && FirstSum(year, month) < 0x8000
    ensures DayOfWeek(year, month - 1, week, dow, TransitionDay(year, month, week, dow))
  {
    FirstOfMonth(year, month);
    Int16Fits(FirstSum(year, month));
    var leap := Leap(year);
    Week(DaysBefore(year) + MonthStart(leap, month - 1) + BASE_DOW, MonthLength(leap, month - 1), week, dow);
  }

  /** When the sum wraps, the weekday found for the first of the month is not positive, so
      the day counted from it is one of two a week apart. */
  lemma WrappedDow(year: int, month: int)
    requires 70 <= year < 200 && 1 <= month <= 12 && FirstSum(year, month) >= 0x8000
    ensures var w := MonthDow(year, month);
            -7 < w <= 0 && (DaysBefore(year) + MonthStart(Leap(year), month - 1) + BASE_DOW - w) % 7 == 2
  {
    FirstOfMonth(year, month);
    hide FirstSum, MonthStart, DaysBefore;
    assert Int16(FirstSum(year, month)) == FirstSum(year, month) - 0x1_0000;
    WrappedWeek(DaysBefore(year) + MonthStart(Leap(year), month - 1) + BASE_DOW, MonthDow(year, month));
  }

  lemma WrappedDay(year: int, month: int, week: int, dow: int)
    requires 70 <= year < 200 && 1 <= month <= 12 && 1 <= week <= 5 && 0 <= dow < 7 && MonthDow(year, month) <= 0
    ensures var day := MonthStart(Leap(year), month - 1) + dow - MonthDow(year, month) + 7 * (week - 1);
            TransitionDay(year, month, week, dow) == day || TransitionDay(year, month, week, dow) == day - 7
  {
    FirstOfMonth(year, month);
  }

  lemma WeekWraps(year: int, month: int, week: int, dow: int)
    requires 70 <= year < 200 && 1 <= month <= 12 && 1 <= week <= 5 && 0 <= dow < 7 && FirstSum(year, month) >= 0x8000
    ensures var yday := TransitionDay(year, month, week, dow);
            FallsOn(year, yday, (dow + 2) % 7) && !FallsOn(year, yday, dow)
  {
    hide FirstSum, TransitionDay, MonthDow, MonthStart, DaysBefore;
    WrappedDow(year, month);
    WrappedDay(year, month, week, dow);
    var n, w := DaysBefore(year) + MonthStart(Leap(year), month - 1) + BASE_DOW, MonthDow(year, month);
    Late(n, w, dow, week - 1);
    Late(n, w, dow, week - 2);
  }

  lemma {:induction false} StartPositive(leap: bool, mon: int)
    requires 0 <= mon <= 12
    ensures 0 <= MonthStart(leap, mon) <= 31 * mon
    decreases mon
  {
    if mon > 0 {
      StartPositive(leap, mon - 1);
    }
  }

  /** The week arithmetic, from the weekday number `n` of the first of the month. */
  lemma Week(n: int, length: int, week: int, dow: int)
    requires 0 <= n && 28 <= length <= 31 && 1 <= week <= 5 && 0 <= dow < 7
    ensures var w := n % 7;
            var day := dow - w + (if w <= dow then week - 1 else week) * 7;
            var last := if week == 5 && day > length - 1 then day - 7 else day;
            && (n + last) % 7 == dow
            && if week == 5 then 0 <= last < length <= last + 7 else 7 * (week - 1) <= last < 7 * week
  {
    var w, weeks := n % 7, n / 7;
    assert n == 7 * weeks + w;
    var k := if w <= dow then week - 1 else week;
    assert n + dow - w + k * 7 == 7 * (weeks + k) + dow;
    assert n + dow - w + (k - 1) * 7 == 7 * (weeks + k - 1) + dow;
  }

  /** The weekday number less 2^16, and its remainder in C. */
  lemma WrappedWeek(n: int, w: int)
    requires 0 <= n < 0x1_0000 && w == CMod7(n - 0x1_0000)
    ensures -7 < w <= 0 && (n - w) % 7 == 2
  {
    var m := 0x1_0000 - n;
    assert w == -(m % 7) && m == 7 * (m / 7) + m % 7;
    assert n - w == 7 * (9362 - m / 7) + 2;
  }

  lemma Late(n: int, w: int, dow: int, weeks: int)
    requires (n - w) % 7 == 2 && 0 <= dow < 7
    ensures (n + dow - w + 7 * weeks) % 7 == (dow + 2) % 7 != dow
  {
    var k := (n - w) / 7;
    assert n + dow - w + 7 * weeks == 7 * (k + weeks) + dow + 2;
  }

  /** In October 2059 the sum first wraps: daylight saving is taken to end on day 300 of
      the year, a Tuesday; the last Sunday is day 298. */
  lemma LateOctober()
    ensures End(159).yd == 300 && FirstSum(159, 10) == 32797 && FirstSum(159, 9) < 0x8000
    ensures FallsOn(159, 300, 2) && DayOfWeek(159, 9, 5, 0, 298)
  {
    hide FirstSum, MonthDow, DaysBefore, MonthStart;
    FirstOf2059();
    DaysFormula(159);
  }

  lemma FirstOf2059()
    ensures FirstSum(159, 10) == 32797 && FirstSum(159, 9) < 0x8000 && MonthDow(159, 10) == -6
    ensures MonthStart(Leap(159), 9) == 273 && MonthStart(Leap(159), 10) == 304 && Table(159)[9] == 272 && Table(159)[10] == 303
  {
    hide DaysBefore;
    FirstOfMonth(159, 10);
    assert Int16(32797) == -32739;
  }

  /** The last week of a month of 31 days. */
  lemma LastDays(year: int, month: int)
    requires 70 <= year < 200 && (month == 3 || month == 10)
    ensures var first := MonthStart(Leap(year), month - 1);
            first + 24 <= TransitionDay(year, month, 5, 0) <= first + 30
  {
    FirstOfMonth(year, month);
  }

  /** Daylight saving is set to start on the last Sunday of March up to the year 2059, and
      to end on the last Sunday of October up to 2058, at 01:00 standard time. */
  lemma DstDates(year: int)
    requires 70 <= year < 200
    ensures Start(year).ms == 2 * 3600 * 1000 && End(year).ms == 3600 * 1000
    ensures DayOfWeek(year, 2, 5, 0, Start(year).yd) <==> year <= 159
    ensures DayOfWeek(year, 9, 5, 0, End(year).yd) <==> year <= 158
    ensures Start(year).yd < End(year).yd - 1
  {
    WeekExact(year, 3, 5, 0);
    WeekExact(year, 10, 5, 0);
    Sums(year);
    LastDays(year, 3);
    LastDays(year, 10);
    Quarters(Leap(year));
  }

  lemma Sums(year: int)
    requires 70 <= year < 200
    ensures FirstSum(year, 3) < 0x8000 <==> year <= 159
    ensures FirstSum(year, 10) < 0x8000 <==> year <= 158
  {
    Quarters(Leap(year));
    FirstOfMonth(year, 3);
    FirstOfMonth(year, 10);
    DaysFormula(year);
  }

  lemma Quarters(leap: bool)
    ensures MonthStart(leap, 2) == (if leap then 60 else 59)
    ensures MonthStart(leap, 9) == (if leap then 274 else 273)
  {
    TableIsMonths(leap, 2);
    TableIsMonths(leap, 9);
  }

  // ----- the season

  /** From 02:00 on day `s` to 01:00 on day `e`, on the clock. */
  predicate Season(s: int, e: int, f: Fields)
  {
    && (f.yday > s || (f.yday == s && f.hour >= 2))
    && (f.yday < e || (f.yday == e && f.hour < 1))
  }

  /** The season time.c means: from the last Sunday of March to the last Sunday of October. */
  ghost predicate Summer(f: Fields)
  {
    exists s, e :: DayOfWeek(f.year, 2, 5, 0, s) && DayOfWeek(f.year, 9, 5, 0, e) && Season(s, e, f)
  }

  /** The same for a time of day in milliseconds, which need not be less than a day. */
  predicate SeasonAt(s: int, e: int, yday: int, ms: int)
  {
    && (yday > s || (yday == s && ms >= 7200000))
    && (yday < e || (yday == e && ms < 3600000))
  }

  ghost predicate SummerAt(year: int, yday: int, ms: int)
  {
    exists s, e :: DayOfWeek(year, 2, 5, 0, s) && DayOfWeek(year, 9, 5, 0, e) && SeasonAt(s, e, yday, ms)
  }

  /** The clock and the milliseconds agree on times of day. */
  lemma ClockTime(s: int, e: int, f: Fields)
    requires TimeOk(f)
    ensures Season(s, e, f) <==> SeasonAt(s, e, f.yday, Millis(f))
  {
  }

  lemma ClockSummer(f: Fields)
    requires TimeOk(f)
    ensures Summer(f) <==> SummerAt(f.year, f.yday, Millis(f))
  {
    hide DayOfWeek, Millis;
    forall s, e
      ensures Season(s, e, f) <==> SeasonAt(s, e, f.yday, Millis(f))
    {
      ClockTime(s, e, f);
    }
  }

  /** The tests of time_isindst select the interval between the two transitions. */
  lemma Interval(f: Fields)
    requires 70 <= f.year < 200
    ensures InDst(f) <==> SeasonAt(Start(f.year).yd, End(f.year).yd, f.yday, Int32(1000 * (f.sec + 60 * f.min + 3600 * f.hour)))
    ensures TimeOk(f) ==> (InDst(f) <==> Season(Start(f.year).yd, End(f.year).yd, f))
  {
    DstDates(f.year);
    if TimeOk(f) {
      ClockTime(Start(f.year).yd, End(f.year).yd, f);
    }
  }

  lemma DaysOf2021()
    ensures Start(121).yd == 86 && End(121).yd == 303
  {
    hide DaysBefore, Leap;
    FirstOfMonth(121, 3);
    FirstOfMonth(121, 10);
    DaysFormula(121);
    Quarters(false);
    assert !Leap(121) by {
      NotLeap2021();
    }
    DstDates(121);
  }

  lemma NotLeap2021()
    ensures !Leap(121)
  {
  }

  /** In 2021 the season is from 28 March, 02:00, to 31 October, 01:00 standard time. */
  lemma SeasonOf2021(f: Fields)
    requires f.year == 121 && TimeOk(f)
    ensures InDst(f) <==> (f.yday > 86 || (f.yday == 86 && f.hour >= 2)) && (f.yday < 303 || (f.yday == 303 && f.hour < 1))
  {
    hide InDst, Start, End;
    DaysOf2021();
    Interval(f);
  }

  lemma OneLast(year: int, mon: int, dow: int, a: int, b: int)
    requires 0 <= mon < 12 && DayOfWeek(year, mon, 5, dow, a) && DayOfWeek(year, mon, 5, dow, b)
    ensures a == b
  {
    var n := DaysBefore(year) + BASE_DOW;
    assert (n + a) % 7 == (n + b) % 7;
  }

  lemma SummerInDst(f: Fields)
    requires 70 <= f.year <= 158
    ensures InDst(f) <==> SummerAt(f.year, f.yday, Millis(f))
    ensures TimeOk(f) ==> (InDst(f) <==> Summer(f))
  {
    DstDates(f.year);
    Interval(f);
    if SummerAt(f.year, f.yday, Millis(f)) {
      var s, e :| DayOfWeek(f.year, 2, 5, 0, s) && DayOfWeek(f.year, 9, 5, 0, e) && SeasonAt(s, e, f.yday, Millis(f));
      OneLast(f.year, 2, 0, s, Start(f.year).yd);
      OneLast(f.year, 9, 0, e, End(f.year).yd);
    }
    if TimeOk(f) {
      ClockSummer(f);
    }
  }

  lemma SummerAnswer(start: Transition, end: Transition, f: Fields)
    requires Cached(start, end)
    ensures 70 <= f.year <= 158 ==> (Answer(start, end, f) <==> SummerAt(f.year, f.yday, Millis(f)))
    ensures 70 <= f.year <= 158 && TimeOk(f) ==> (Answer(start, end, f) <==> Summer(f))
  {
    if 70 <= f.year <= 158 {
      SummerInDst(f);
    }
  }

  /** Noon on a day of October. */
  function Noon(year: int, yday: int): Fields
  {
    Fields(0, 0, 12, yday - MonthStart(Leap(year), 9) + 1, 9, year, 0, yday, 0)
  }

  /** The code's season ends between the two noons. */
  lemma NoonsInDst(year: int)
    requires 70 <= year < 200
    ensures InDst(Noon(year, End(year).yd - 1)) && !InDst(Noon(year, End(year).yd))
  {
    DstDates(year);
    Interval(Noon(year, End(year).yd - 1));
    Interval(Noon(year, End(year).yd));
  }

  /** The season that is meant does not. */
  lemma NoonsInSummer(year: int)
    requires 159 <= year < 200
    ensures var e := End(year).yd; Summer(Noon(year, e - 1)) ==> Summer(Noon(year, e))
  {
    hide DayOfWeek, End;
    var end := End(year).yd;
    var f, g := Noon(year, end), Noon(year, end - 1);
    DstDates(year);
    if Summer(g) {
      var s, e :| DayOfWeek(year, 2, 5, 0, s) && DayOfWeek(year, 9, 5, 0, e) && Season(s, e, g);
      assert e != end && Season(s, e, f);
    }
  }

  lemma NoonsAreDays(year: int)
    requires 70 <= year < 200
    ensures var e := End(year).yd;
            DayOk(Noon(year, e), Leap(year)) && DayOk(Noon(year, e - 1), Leap(year))
  {
    LastDays(year, 10);
    Quarters(Leap(year));
  }

  /** When the end is wrong, noon of that day or of the day before is misjudged. */
  lemma Misjudged(year: int)
    requires 159 <= year < 200
    ensures var e := End(year).yd;
            && (InDst(Noon(year, e)) != Summer(Noon(year, e)) || InDst(Noon(year, e - 1)) != Summer(Noon(year, e - 1)))
            && DayOk(Noon(year, e), Leap(year)) && DayOk(Noon(year, e - 1), Leap(year))
  {
    hide InDst, Summer, End, DayOk, Noon;
    NoonsInDst(year);
    NoonsInSummer(year);
    NoonsAreDays(year);
  }

  predicate InYear(f: Fields, year: int)
  {
    f.year == year && DayOk(f, Leap(year)) && TimeOk(f)
  }

  /** With a fresh cache every date of a year is judged right exactly up to 2058. */
  lemma DstYears(year: int)
    requires 70 <= year < 200
    ensures (forall f :: InYear(f, year) ==> (InDst(f) <==> Summer(f))) <==> year <= 158
  {
    if year <= 158 {
      forall f | InYear(f, year)
        ensures InDst(f) <==> Summer(f)
      {
        SummerInDst(f);
      }
    } else {
      Misjudged(year);
      assert InYear(Noon(year, End(year).yd), year) && InYear(Noon(year, End(year).yd - 1), year);
    }
  }

  // ----- the cache

  /** A cache that was computed for a year, or never. */
  predicate Cached(start: Transition, end: Transition)
  {
    (start == UNSET && end == UNSET) || (start == Start(start.yr) && end == End(start.yr))
  }

  /** Whether a lookup for `year` uses the cache as it is. */
  predicate Hit(start: Transition, end: Transition, year: int)
  {
    year == start.yr && year == end.yr
  }

  /** The answer with a given cache. */
  function Answer(start: Transition, end: Transition, f: Fields): bool
  {
    if Hit(start, end, f.year) then Between(start, end, f.yday, Millis(f)) else InDst(f)
  }

  /** Every date of `year` is answered alike, whatever was asked before. */
  ghost predicate AlwaysAlike(year: int)
  {
    forall start: Transition, end: Transition, f: Fields :: Cached(start, end) && f.year == year ==> Answer(start, end, f) == InDst(f)
  }

  lemma Alike(start: Transition, end: Transition, f: Fields)
    requires Cached(start, end) && f.year != -1
    ensures Answer(start, end, f) == InDst(f)
  {
  }

  /** The answers depend on the date alone exactly when the year is not 1899, the mark -1
      of an unset cache. */
  lemma HistoryMatters(year: int)
    ensures AlwaysAlike(year) <==> year != -1
  {
    if year != -1 {
      forall start: Transition, end: Transition, f: Fields | Cached(start, end) && f.year == year
        ensures Answer(start, end, f) == InDst(f)
      {
        Alike(start, end, f);
      }
    } else {
      FirstAnswerDiffers();
      assert Cached(UNSET, UNSET);
    }
  }

  /** After boot, for 10 January 1899. */
  lemma FirstAnswerDiffers()
    ensures var f := Fields(0, 0, 12, 10, 0, -1, 0, 9, 0);
            Answer(UNSET, UNSET, f) && !InDst(f) && Cached(Start(-1), End(-1)) && !Answer(Start(-1), End(-1), f)
  {
  }

  class Clock {
    var dststart: Transition
    var dstend: Transition
    var daylight: bool

    ghost predicate Valid()
      reads this
    {
      Cached(dststart, dstend)
    }

    constructor ()
      ensures Valid() && daylight && dststart == UNSET && dstend == UNSET
    {
      dststart, dstend, daylight := UNSET, UNSET, true;
    }

    /** cvtdate: `trantype` 1 sets the start of daylight saving, others its end, whose
        time is taken back to standard time; `datetype` 1 is a day in a month, others a
        date. */
    method CvtDate(trantype: int, datetype: int, year: int, month: int, week: int, dayofweek: int, date: int,
                   hour: int, min: int, sec: int, msec: int)
      requires 1 <= month <= 12 && 1 <= week <= 5 && 0 <= dayofweek < 7
      modifies this`dststart, this`dstend
      ensures var yd := if datetype == 1 then TransitionDay(year, month, week, dayofweek) else Int16(Table(year)[month - 1] + date);
              var ms := Int32(msec + 1000 * (sec + 60 * (min + 60 * hour)));
              if trantype == 1 then dststart == Transition(year, yd, ms) && dstend == old(dstend)
              else dststart == old(dststart) && dstend == Standard(year, yd, Int32(ms + DST_BIAS * 1000))
      ensures trantype == 1 && datetype == 1 && 70 <= year < 200 ==>
        (DayOfWeek(year, month - 1, week, dayofweek, dststart.yd) <==> FirstSum(year, month) < 0x8000)
    {
      if 70 <= year < 200 {
        WeekExact(year, month, week, dayofweek);
      }
      var yearday;
      if datetype == 1 {
        yearday := 1 + (if LeapInt(year) then LPDAYS[month - 1] else DAYS[month - 1]);
        var monthdow := CMod7(Int16(yearday + (year - 70) * 365 + Int16(year - 1) / 4) - LEAP_YEAR_ADJUST + BASE_DOW);
        if monthdow <= dayofweek {
          yearday := yearday + (dayofweek - monthdow) + (week - 1) * 7;
        } else {
          yearday := yearday + (dayofweek - monthdow) + week * 7;
        }
        if week == 5 && yearday > (if LeapInt(year) then LPDAYS[month] else DAYS[month]) {
          yearday := yearday - 7;
        }
      } else {
        yearday := if LeapInt(year) then LPDAYS[month - 1] else DAYS[month - 1];
        yearday := Int16(yearday + date);
      }
      var ms := Int32(msec + 1000 * (sec + 60 * (min + 60 * hour)));
      if trantype == 1 {
        dststart := Transition(year, yearday, ms);
      } else {
        ms := Int32(ms + DST_BIAS * 1000);
        if ms < 0 {
          ms := ms + DAY_MILLISEC;
          yearday := yearday - 1;
        } else if ms >= DAY_MILLISEC {
          ms := ms - DAY_MILLISEC;
          yearday := yearday + 1;
        }
        dstend := Transition(year, yearday, ms);
      }
    }

    /** The part of time_isindst that computes the transitions of a year. */
    method SetDates(year: int)
      modifies this`dststart, this`dstend
      ensures dststart == Start(year) && dstend == End(year)
    {
      hide TransitionDay, FirstSum, DayOfWeek;
      CvtDate(1, 1, year, 3, 5, 0, 0, 2, 0, 0, 0);
      CvtDate(0, 1, year, 10, 5, 0, 0, 2, 0, 0, 0);
    }

    /** time_isindst: whether the date is between the last Sundays of March and October. */
    method TimeIsInDst(tb: Tm) returns (r: bool)
      requires Valid()
      modifies this`dststart, this`dstend
      ensures Valid() && r == (daylight && Answer(old(dststart), old(dstend), tb.Value()))
      ensures 70 <= tb.tm_year <= 158 && TimeOk(tb.Value()) ==> (r <==> daylight && Summer(tb.Value()))
      ensures var ms := Int32(1000 * (tb.tm_sec + 60 * tb.tm_min + 3600 * tb.tm_hour));
              70 <= tb.tm_year <= 158 ==> (r <==> daylight && SummerAt(tb.tm_year, tb.tm_yday, ms))
      ensures daylight ==> dststart.yr == tb.tm_year
    {
      SummerAnswer(dststart, dstend, tb.Value());
      if !daylight {
        return false;
      }
      if tb.tm_year != dststart.yr || tb.tm_year != dstend.yr {
        SetDates(tb.tm_year);
      }
      var yday := tb.tm_yday;
      if dststart.yd < dstend.yd {
        if yday < dststart.yd || yday > dstend.yd {
          return false;
        }
        if yday > dststart.yd && yday < dstend.yd {
          return true;
        }
      } else {
        if yday < dstend.yd || yday > dststart.yd {
          return true;
        }
        if yday > dstend.yd && yday < dststart.yd {
          return false;
        }
      }
      var ms := Int32(1000 * (tb.tm_sec + 60 * tb.tm_min + 3600 * tb.tm_hour));
      if yday == dststart.yd {
        r := ms >= dststart.ms;
      } else {
        r := ms < dstend.ms;
      }
    }

    /** The daylight saving test of localtime_r on a date; here history never matters. */
    method TestDate(time: Tm, ghost t: int) returns (dst: bool)
      requires Valid() && IsDate(time.Value(), t)
      modifies this`dststart, this`dstend
      ensures Valid() && dst == (daylight && InDst(time.Value()))
      ensures time.tm_year <= 158 ==> (dst <==> daylight && Summer(time.Value()))
    {
      Alike(dststart, dstend, time.Value());
      dst := daylight;
      if dst {
        dst := TimeIsInDst(time);
      }
    }

    method DaylightDate(timer: int, time: Tm) returns (rc: int)
      requires 0 <= timer < LIMIT
      modifies time
      ensures rc == 0 && IsDate(time.Value(), timer) && time.tm_isdst == 1 && time.tm_year < 200
    {
      rc := GmtimeR(timer, time);
      ghost var g := time.Value();
      time.tm_isdst := 1;
      FlagOnly(g, timer);
    }

    /** localtime_r; `f` is the date in standard time, which is an hour ahead. */
    method LocaltimeR(t: int, time: Tm) returns (rc: int, ghost f: Fields)
      requires Valid() && 0 <= t - TIMEZONE && t - TIMEZONE - DST_BIAS < LIMIT
      modifies this`dststart, this`dstend, time
      ensures Valid() && rc == 0 && IsDate(f, t + 3600)
      ensures f.isdst == 0 && f.year < 200
      ensures if daylight && InDst(f) then IsDate(time.Value(), t + 7200) && time.tm_isdst == 1 && time.tm_year < 200
              else time.Value() == f
      ensures f.year <= 158 ==> (time.tm_isdst == 1 <==> daylight && Summer(f))
    {
      var timer := t - TIMEZONE;
      rc := GmtimeR(timer, time);
      f := time.Value();
      var dst := TestDate(time, timer);
      if dst {
        timer := timer - DST_BIAS;
        rc := DaylightDate(timer, time);
      }
    }

    /** mktime undoes localtime_r, whichever way the daylight saving test decides. */
    method MktimeUndoesLocaltime(t: int) returns (r: int)
      requires Valid() && 0 <= t - TIMEZONE && t - TIMEZONE - DST_BIAS < LIMIT
      modifies this`dststart, this`dstend
      ensures Valid() && r == t
    {
      var time := new Tm();
      var rc, f := LocaltimeR(t, time);
      if time.tm_isdst == 1 {
        r := MktimeOf(time, t, t - TIMEZONE - DST_BIAS);
      } else {
        r := MktimeOf(time, t, t - TIMEZONE);
      }
    }

    /** mktime of a local date gives the second it was made from. */
    method MktimeOf(time: Tm, t: int, ghost s: int) returns (r: int)
      requires IsDate(time.Value(), s) && time.tm_year < 200 && 0 <= s < LIMIT
      requires t == s + TIMEZONE + (if time.tm_isdst > 0 then DST_BIAS else 0)
      modifies time
      ensures r == t
    {
      SecondsOfDate(time.Value(), s);
      r := MkTime(time, true);
      WrapIsIdentity(t);
    }
  }

  lemma FlagOnly(g: Fields, t: int)
    requires IsDate(g, t)
    ensures IsDate(g.(isdst := 1), t)
  {
  }

  /** A transition in daylight saving time taken to the standard day it falls on. */
  function Standard(year: int, yd: int, ms: int): Transition
  {
    if ms < 0 then Transition(year, yd - 1, ms + DAY_MILLISEC)
    else if ms >= DAY_MILLISEC then Transition(year, yd + 1, ms - DAY_MILLISEC)
    else Transition(year, yd, ms)
  }
}
