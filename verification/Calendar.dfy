/** gmtime.c and mktime.c: seconds since 1970 to a calendar date and back, proved against
    counting the days year by year and month by month. */
module Calendar {

  const DAY_SEC := 86400
  const YEAR_SEC := 31536000
  const FOUR_YEAR_SEC := 126230400
  const BASE_DOW := 4
  const LEAP_YEAR_ADJUST := 17

  /** The first second of the year 2100, where the formulas of the code end. */
  const LIMIT := 4102444800

  const EINVAL := 22

  const DAYS: seq<int> := [-1, 30, 58, 89, 119, 150, 180, 211, 242, 272, 303, 333, 364]
  const LPDAYS: seq<int> := [-1, 30, 59, 90, 120, 151, 181, 212, 243, 273, 304, 334, 365]

  // ----- counting days

  /** The Gregorian rule; `year` counts from 1900. */
  predicate Leap(year: int)
  {
    var y := year + 1900;
    (y % 4 == 0 && y % 100 != 0) || y % 400 == 0
  }

  /** An int of 16 bits, as on the AVR, with overflow wrapping around. */
  function Int16(x: int): int
  {
    (x + 0x8000) % 0x1_0000 - 0x8000
  }

  /** is_leap_year, which adds 1900 to an int. */
  predicate LeapInt(year: int)
  {
    var y := Int16(year + 1900);
    (y % 4 == 0 && y % 100 != 0) || y % 400 == 0
  }

  lemma Int16Fits(x: int)
    ensures -0x8000 <= Int16(x) < 0x8000
    ensures Int16(x) == x <==> -0x8000 <= x < 0x8000
  {
  }

  /** It is the Gregorian rule while the sum fits. */
  lemma LeapIntFits(year: int)
    requires -0x8000 <= year + 1900 < 0x8000
    ensures LeapInt(year) == Leap(year)
  {
    Int16Fits(year + 1900);
  }

  /** Past that it is not: the leap year 32836 is taken for the year -32700. */
  lemma LeapIntWraps()
    ensures Leap(30936) && !LeapInt(30936)
  {
    assert Int16(32836) == -32700;
  }

  function YearLength(year: int): int
  {
    if Leap(year) then 366 else 365
  }

  /** Days from 1 January 1970 to 1 January of `year`. */
  function DaysBefore(year: int): (d: int)
    ensures 70 <= year ==> 0 <= d
    decreases if year >= 70 then year - 70 else 70 - year
  {
    if year == 70 then 0
    else if year > 70 then DaysBefore(year - 1) + YearLength(year - 1)
    else DaysBefore(year + 1) - YearLength(year)
  }

  function MonthLength(leap: bool, mon: int): int
    requires 0 <= mon < 12
  {
    if mon == 1 then (if leap then 29 else 28)
    else if mon == 3 || mon == 5 || mon == 8 || mon == 10 then 30
    else 31
  }

  /** Days of the year before month `mon`. */
  function MonthStart(leap: bool, mon: int): int
    requires 0 <= mon <= 12
    decreases mon
  {
    if mon == 0 then 0 else MonthStart(leap, mon - 1) + MonthLength(leap, mon - 1)
  }

  /** The tables hold the month starts, less one. */
  lemma {:induction false} TableIsMonths(leap: bool, mon: int)
    requires 0 <= mon <= 12
    ensures (if leap then LPDAYS else DAYS)[mon] == MonthStart(leap, mon) - 1
    decreases mon
  {
    if mon > 0 {
      TableIsMonths(leap, mon - 1);
    }
  }

  /** The closed form the code uses: every fourth year is a leap year. */
  function ClosedForm(year: int): int
  {
    (year - 70) * 365 + (year - 1) / 4 - LEAP_YEAR_ADJUST
  }

  lemma LeapIsFourth(year: int)
    ensures Leap(year) ==> year % 4 == 0
    ensures 1 <= year < 200 && year % 4 == 0 ==> Leap(year)
    ensures !Leap(0) && !Leap(200)
  {
    if year == 100 {
    } else if 1 <= year < 100 {
      assert (year + 1900) % 100 == year;
    } else if 100 < year < 200 {
      assert (year + 1900) % 100 == year - 100;
    }
  }

  lemma ClosedFormStep(year: int)
    ensures ClosedForm(year + 1) == ClosedForm(year) + (if year % 4 == 0 then 366 else 365)
  {
  }

  lemma {:induction false} DaysFormula(year: int)
    requires 1 <= year <= 200
    ensures DaysBefore(year) == ClosedForm(year)
    decreases if year >= 70 then year - 70 else 70 - year
  {
    if year > 70 {
      DaysFormula(year - 1);
      LeapIsFourth(year - 1);
      ClosedFormStep(year - 1);
    } else if year < 70 {
      DaysFormula(year + 1);
      LeapIsFourth(year);
      ClosedFormStep(year);
    }
  }

  lemma {:induction false} LateYears(year: int)
    requires 200 < year
    ensures DaysBefore(year) < ClosedForm(year)
    decreases year
  {
    LeapIsFourth(year - 1);
    ClosedFormStep(year - 1);
    if year == 201 {
      DaysFormula(200);
    } else {
      LateYears(year - 1);
    }
  }

  lemma {:induction false} EarlyYears(year: int)
    requires year < 1
    ensures ClosedForm(year) < DaysBefore(year)
    decreases -year
  {
    LeapIsFourth(year);
    ClosedFormStep(year);
    if year == 0 {
      DaysFormula(1);
    } else {
      EarlyYears(year + 1);
    }
  }

  /** The closed form counts the days exactly for the years 1901 to 2100. */
  lemma DaysFormulaExact(year: int)
    ensures DaysBefore(year) == ClosedForm(year) <==> 1 <= year <= 200
  {
    if year < 1 {
      EarlyYears(year);
    } else if year <= 200 {
      DaysFormula(year);
    } else {
      LateYears(year);
    }
  }

  lemma {:induction false} DaysGrow(a: int, b: int)
    requires 70 <= a < b
    ensures DaysBefore(a + 1) <= DaysBefore(b)
    decreases b
  {
    if a + 1 < b {
      DaysGrow(a, b - 1);
    }
  }

  lemma {:induction false} MonthsGrow(leap: bool, a: int, b: int)
    requires 0 <= a < b <= 12
    ensures MonthStart(leap, a + 1) <= MonthStart(leap, b)
    decreases b
  {
    if a + 1 < b {
      MonthsGrow(leap, a, b - 1);
    }
  }

  // ----- dates

  datatype Fields = Fields(sec: int, min: int, hour: int, mday: int, mon: int, year: int, wday: int, yday: int, isdst: int)

  predicate TimeOk(f: Fields)
  {
    0 <= f.hour < 24 && 0 <= f.min < 60 && 0 <= f.sec < 60
  }

  /** Month, day of the month and day of the year agree. */
  predicate DayOk(f: Fields, leap: bool)
  {
    && 0 <= f.mon < 12 && 0 <= f.yday < (if leap then 366 else 365)
    && 1 <= f.mday <= MonthLength(leap, f.mon) && MonthStart(leap, f.mon) + f.mday - 1 == f.yday
  }

  /** The date of second `t` in the Gregorian calendar (section 7.23.3.3 of
      ISO/IEC 9899:1999): 1 January 1970 was a Thursday. */
  predicate IsDate(f: Fields, t: int)
  {
    && 70 <= f.year && DayOk(f, Leap(f.year)) && TimeOk(f)
    && t == (DaysBefore(f.year) + f.yday) * DAY_SEC + f.hour * 3600 + f.min * 60 + f.sec
    && f.wday == (DaysBefore(f.year) + f.yday + BASE_DOW) % 7
  }

  lemma YearStarts()
    ensures DaysBefore(70) == 0 && DaysBefore(100) == 10957 && DaysBefore(199) == 47117
    ensures MonthStart(false, 0) == 0 && MonthStart(true, 1) == 31 && MonthStart(false, 11) == 334
  {
    hide Leap;
    DaysFormula(100);
    DaysFormula(199);
    TableIsMonths(true, 1);
    TableIsMonths(false, 11);
  }

  /** The first second there is, a leap day of a century, and the last second before 2100. */
  lemma KnownDates()
    ensures IsDate(Fields(0, 0, 0, 1, 0, 70, 4, 0, 0), 0)
    ensures IsDate(Fields(56, 34, 12, 29, 1, 100, 2, 59, 0), 951827696)
    ensures IsDate(Fields(59, 59, 23, 31, 11, 199, 4, 364, 0), 4102444799)
  {
    YearStarts();
    hide DaysBefore, MonthStart;
    assert Leap(100) && !Leap(199) && !Leap(70);
  }

  /** There is only one such date. */
  lemma DateUnique(f: Fields, g: Fields, t: int)
    requires IsDate(f, t) && IsDate(g, t)
    ensures f == g.(isdst := f.isdst)
  {
    SameTime(f.hour, f.min, f.sec, g.hour, g.min, g.sec, DaysBefore(f.year) + f.yday - DaysBefore(g.year) - g.yday);
    SameDay(f, g);
  }

  lemma SameTime(h: int, m: int, s: int, h2: int, m2: int, s2: int, days: int)
    requires 0 <= h < 24 && 0 <= m < 60 && 0 <= s < 60 && 0 <= h2 < 24 && 0 <= m2 < 60 && 0 <= s2 < 60
    requires days * DAY_SEC + h * 3600 + m * 60 + s == h2 * 3600 + m2 * 60 + s2
    ensures days == 0 && h == h2 && m == m2 && s == s2
  {
  }

  lemma SameDay(f: Fields, g: Fields)
    requires 70 <= f.year && 70 <= g.year && DayOk(f, Leap(f.year)) && DayOk(g, Leap(g.year))
    requires DaysBefore(f.year) + f.yday == DaysBefore(g.year) + g.yday
    ensures f.year == g.year && f.yday == g.yday && f.mon == g.mon && f.mday == g.mday
  {
    if f.year < g.year {
      DaysGrow(f.year, g.year);
    } else if g.year < f.year {
      DaysGrow(g.year, f.year);
    }
    var leap := Leap(f.year);
    if f.mon < g.mon {
      MonthsGrow(leap, f.mon, g.mon);
    } else if g.mon < f.mon {
      MonthsGrow(leap, g.mon, f.mon);
    }
  }

  // ----- gmtime

  class Tm {
    var tm_sec: int
    var tm_min: int
    var tm_hour: int
    var tm_mday: int
    var tm_mon: int
    var tm_year: int
    var tm_wday: int
    var tm_yday: int
    var tm_isdst: int

    ghost function Value(): Fields
      reads this
    {
      Fields(tm_sec, tm_min, tm_hour, tm_mday, tm_mon, tm_year, tm_wday, tm_yday, tm_isdst)
    }

    constructor ()
    {
    }
  }

  /** The `q`-th interval of four years from 1970; its third year is the leap year. */
  lemma FourYears(q: int)
    requires 0 <= q < 33
    ensures var b := 70 + 4 * q;
            && DaysBefore(b) == 1461 * q && DaysBefore(b + 1) == 1461 * q + 365 && DaysBefore(b + 2) == 1461 * q + 730
            && !Leap(b) && !Leap(b + 1)
            && (q < 32 ==> DaysBefore(b + 3) == 1461 * q + 1096 && Leap(b + 2) && !Leap(b + 3))
  {
    var b := 70 + 4 * q;
    DaysFormula(b);
    LeapIsFourth(b);
    LeapIsFourth(b + 1);
    assert DaysBefore(b + 1) == DaysBefore(b) + YearLength(b);
    assert DaysBefore(b + 2) == DaysBefore(b + 1) + YearLength(b + 1);
    if q < 32 {
      LeapIsFourth(b + 2);
      LeapIsFourth(b + 3);
      assert DaysBefore(b + 3) == DaysBefore(b + 2) + YearLength(b + 2);
    }
  }

  /** The year part of gmtime_r: whole four-year intervals, then single years. */
  method SplitYear(timer: int) returns (year: int, ctimer: int, isleapyear: bool)
    requires 0 <= timer < LIMIT
    ensures 70 <= year < 200 && isleapyear == Leap(year)
    ensures DaysBefore(year) * DAY_SEC + ctimer == timer && 0 <= ctimer < YearLength(year) * DAY_SEC
  {
    ctimer, isleapyear := timer, false;
    var tmptimer := ctimer / FOUR_YEAR_SEC;
    ctimer := ctimer - tmptimer * FOUR_YEAR_SEC;
    FourYears(tmptimer);
    tmptimer := tmptimer * 4 + 70;
    if ctimer >= YEAR_SEC {
      tmptimer := tmptimer + 1;
      ctimer := ctimer - YEAR_SEC;
      if ctimer >= YEAR_SEC {
        tmptimer := tmptimer + 1;
        ctimer := ctimer - YEAR_SEC;
        if ctimer >= YEAR_SEC + DAY_SEC {
          tmptimer := tmptimer + 1;
          ctimer := ctimer - (YEAR_SEC + DAY_SEC);
        } else {
          isleapyear := true;
        }
      }
    }
    year := tmptimer;
  }

  /** The search for the month in the table of the year. */
  method SplitMonth(yday: int, isleapyear: bool) returns (mon: int, mday: int)
    requires 0 <= yday < if isleapyear then 366 else 365
    ensures 0 <= mon < 12 && 1 <= mday <= MonthLength(isleapyear, mon)
    ensures MonthStart(isleapyear, mon) + mday - 1 == yday
  {
    var mdays := if isleapyear then LPDAYS else DAYS;
    var tmptimer := 1;
    while mdays[tmptimer] < yday
      invariant 1 <= tmptimer <= 12 && mdays[tmptimer - 1] < yday
      decreases 12 - tmptimer
    {
      tmptimer := tmptimer + 1;
    }
    TableIsMonths(isleapyear, tmptimer);
    tmptimer := tmptimer - 1;
    TableIsMonths(isleapyear, tmptimer);
    mon, mday := tmptimer, yday - mdays[tmptimer];
  }

  /** gmtime_r: the date of a second, for every time before 2100. */
  method GmtimeR(timer: int, ptm: Tm?) returns (rc: int)
    requires 0 <= timer < LIMIT
    modifies ptm
    ensures rc == if ptm == null then -EINVAL else 0
    ensures ptm != null ==> IsDate(ptm.Value(), timer) && ptm.tm_isdst == 0 && ptm.tm_year < 200
  {
    if ptm == null {
      return -EINVAL;
    }
    var year, ctimer, isleapyear := SplitYear(timer);
    ptm.tm_year := year;
    ptm.tm_yday := ctimer / DAY_SEC;
    ctimer := ctimer - ptm.tm_yday * DAY_SEC;
    ptm.tm_mon, ptm.tm_mday := SplitMonth(ptm.tm_yday, isleapyear);
    ptm.tm_wday := (timer / DAY_SEC + BASE_DOW) % 7;
    ptm.tm_hour := ctimer / 3600;
    ctimer := ctimer - ptm.tm_hour * 3600;
    ptm.tm_min := ctimer / 60;
    ptm.tm_sec := ctimer - ptm.tm_min * 60;
    ptm.tm_isdst := 0;
    rc := 0;
  }

  // ----- mktime

  /** The signed value of a 64-bit sum. */
  function Wrap64(x: int): int
  {
    (x + 0x8000_0000_0000_0000) % 0x1_0000_0000_0000_0000 - 0x8000_0000_0000_0000
  }

  /** C's division by 12, which rounds to zero. */
  function TruncatedYears(mon: int): int
  {
    if mon >= 0 then mon / 12 else -((-mon) / 12)
  }

  /** Seconds to a time of day on the `mday`-th day after `days` days, where all of them
      may be out of range. */
  function Seconds(days: int, mday: int, hour: int, min: int, sec: int): int
  {
    (days + mday - 1) * DAY_SEC + hour * 3600 + min * 60 + sec
  }

  const TIMEZONE := -3600
  const DST_BIAS := -3600

  /** Months out of range carry into the year. */
  method CarryMonths(year: int, mon: int) returns (y: int, m: int)
    ensures y == year + mon / 12 && m == mon % 12
  {
    y, m := year, mon;
    if mon < 0 || mon > 11 {
      y := y + TruncatedYears(mon);
      m := mon - 12 * TruncatedYears(mon);
      if m < 0 {
        m := m + 12;
        y := y - 1;
      }
    }
  }

  /** Days from 1 January 1970 to month `mon` of `year`, by the closed form. */
  function MonthDay(year: int, mon: int): int
    requires 0 <= mon < 12
  {
    ClosedForm(year) + MonthStart(LeapInt(year), mon)
  }

  /** `(tmp1 - 1ULL) >> 2`: below the year 1901 the unsigned shift is 2^62 too large. */
  function Shifted(year: int): int
  {
    (year - 1) % 0x1_0000_0000_0000_0000 / 4
  }

  /** The day before month `mon` of `year`, up to the error of the shift. */
  method DaysTo(year: int, mon: int) returns (days: int)
    requires 0 <= mon < 12
    ensures days == MonthDay(year, mon) - 1 + (Shifted(year) - (year - 1) / 4)
  {
    TableIsMonths(false, mon);
    TableIsMonths(true, mon);
    var tmp2 := DAYS[mon];
    if LeapInt(year) && mon > 1 {
      tmp2 := tmp2 + 1;
    }
    assert tmp2 == (if LeapInt(year) then LPDAYS else DAYS)[mon];
    days := (year - 70) * 365 + (Shifted(year) - LEAP_YEAR_ADJUST) + tmp2;
  }

  /** In seconds that error is a multiple of 2^64, so it does not matter. */
  lemma ShiftVanishes(year: int, x: int)
    requires -0x8000_0000_0000_0000 <= year < 0x8000_0000_0000_0000
    ensures Wrap64(x + (Shifted(year) - (year - 1) / 4) * DAY_SEC) == Wrap64(x)
  {
    if year < 1 {
      assert (year - 1) % 0x1_0000_0000_0000_0000 == year - 1 + 0x1_0000_0000_0000_0000;
      assert Shifted(year) == (year - 1) / 4 + 0x4000_0000_0000_0000;
      assert 0x4000_0000_0000_0000 * DAY_SEC == 21600 * 0x1_0000_0000_0000_0000;
    } else {
      assert Shifted(year) == (year - 1) / 4;
    }
  }

  /** __mktime: months carry into the year, the days are counted by the closed form (so
      exactly, for the years 1901 to 2100), and the rest adds up modulo 64 bits. The year
      and the month are ints of 16 bits. */
  method MkTime(t: Tm?, tz: bool) returns (r: int)
    requires t != null ==> -0x8000 <= t.tm_year < 0x8000 && -0x8000 <= t.tm_mon < 0x8000
    modifies t
    ensures t == null ==> r == 0
    ensures t != null ==> t.Value() == old(t.Value()).(mon := old(t.tm_mon) % 12)
    ensures t != null ==>
      r == Wrap64(Seconds(MonthDay(t.tm_year + old(t.tm_mon) / 12, t.tm_mon), t.tm_mday, t.tm_hour, t.tm_min, t.tm_sec)
                  + (if tz then TIMEZONE + (if t.tm_isdst > 0 then DST_BIAS else 0) else 0))
  {
    if t == null {
      return 0;
    }
    var tmp1, tmp2, tmp3: int;
    tmp1, t.tm_mon := CarryMonths(t.tm_year, t.tm_mon);
    ghost var year := tmp1;
    tmp3 := DaysTo(tmp1, t.tm_mon);
    tmp1 := tmp3 + t.tm_mday;
    tmp2 := tmp1 * 24;
    tmp1 := tmp2 + t.tm_hour;
    tmp2 := tmp1 * 60;
    tmp1 := tmp2 + t.tm_min;
    tmp2 := tmp1 * 60;
    tmp1 := tmp2 + t.tm_sec;
    if tz {
      tmp1 := tmp1 + TIMEZONE;
      if t.tm_isdst > 0 {
        tmp1 := tmp1 + DST_BIAS;
      }
    }
    r := Wrap64(tmp1);
    ghost var sum := Seconds(MonthDay(year, t.tm_mon), t.tm_mday, t.tm_hour, t.tm_min, t.tm_sec)
                     + (if tz then TIMEZONE + (if t.tm_isdst > 0 then DST_BIAS else 0) else 0);
    assert tmp1 == sum + (Shifted(year) - (year - 1) / 4) * DAY_SEC;
    ShiftVanishes(year, sum);
  }

  /** Counting the seconds to the date of `t` gives `t`, for the years 1901 to 2100. */
  lemma SecondsOfDate(f: Fields, t: int)
    requires IsDate(f, t) && f.year <= 200
    ensures f.mon / 12 == 0 && f.mon % 12 == f.mon
    ensures Seconds(MonthDay(f.year, f.mon), f.mday, f.hour, f.min, f.sec) == t
  {
    LeapIntFits(f.year);
    DaysFormula(f.year);
  }

  lemma WrapIsIdentity(x: int)
    requires -0x8000_0000_0000_0000 <= x < 0x8000_0000_0000_0000
    ensures Wrap64(x) == x
  {
  }

  /** _mktime undoes gmtime_r. */
  method MktimeUndoesGmtime(t: int) returns (r: int)
    requires 0 <= t < LIMIT
    ensures r == t
  {
    var tm := new Tm();
    var rc := GmtimeR(t, tm);
    SecondsOfDate(tm.Value(), t);
    WrapIsIdentity(t);
    r := MkTime(tm, false);
  }
}
