// The date conversion of kernel/sysutil.c against the Gregorian calendar counted out
// year by year and month by month.

module Calendar {
  datatype Date = Date(year: int, month: int, day: int)

  datatype RtcDate = RtcDate(date: Date, hour: int, minute: int, second: int)

  // ---------------------------------------------------------------- the calendar

  predicate IsLeap(y: nat) { y % 4 == 0 && (y % 100 != 0 || y % 400 == 0) }

  function YearLength(y: nat): (n: nat) { if IsLeap(y) then 366 else 365 }

  function MonthLength(y: nat, m: nat): (n: nat)
    requires 1 <= m <= 12
  {
    if m == 2 then (if IsLeap(y) then 29 else 28)
    else if m == 4 || m == 6 || m == 9 || m == 11 then 30
    else 31
  }

  /** Days in years 0 up to y. */
  function DaysToYear(y: nat): (n: nat) {
    if y == 0 then 0 else DaysToYear(y - 1) + YearLength(y - 1)
  }

  /** Days in months 1 up to m of year y. */
  function DaysToMonth(y: nat, m: nat): (n: nat)
    requires 1 <= m <= 13
  {
    if m == 1 then 0 else DaysToMonth(y, m - 1) + MonthLength(y, m - 1)
  }

  predicate IsDate(d: Date) {
    d.year >= 0 && 1 <= d.month <= 12 && 1 <= d.day <= MonthLength(d.year, d.month)
  }

  /** Days since 1970-01-01. */
  function DayNumber(d: Date): (n: int)
    requires IsDate(d)
  {
    DaysToYear(d.year) + DaysToMonth(d.year, d.month) + d.day - 1 - 719528
  }

  predicate Before(d: Date, e: Date) {
    d.year < e.year || (d.year == e.year && (d.month < e.month || (d.month == e.month && d.day < e.day)))
  }

  // ---------------------------------------------------------------- the conversion

  const DAYS_PER_ERA: nat := 146097

  function Era(days: nat): (e: nat) { (days + 719468) / DAYS_PER_ERA }

  function DayOfEra(days: nat): (d: nat)
    ensures d < DAYS_PER_ERA
  {
    (days + 719468) % DAYS_PER_ERA
  }

  function YearOfEra(doe: nat): (y: int) { (doe - doe / 1460 + doe / 36524 - doe / 146096) / 365 }

  function DayOfYear(doe: nat): (d: int) {
    var yoe := YearOfEra(doe);
    doe - (365 * yoe + yoe / 4 - yoe / 100)
  }

  /** Months counted from March. */
  function MonthIndex(doy: int): (m: int) { (5 * doy + 2) / 153 }

  /** Month and day of day doy of the year that starts in March of `base`. */
  function FromMarch(base: int, doy: int): (d: Date) {
    var mp := MonthIndex(doy);
    var month := if mp < 10 then mp + 3 else mp - 9;
    Date(base + (if month <= 2 then 1 else 0), month, doy - (153 * mp + 2) / 5 + 1)
  }

  /** seconds_to_rtcdate's date before it is stored. */
  function FullDate(days: nat): (d: Date) {
    var doe := DayOfEra(days);
    FromMarch(YearOfEra(doe) + Era(days) * 400, DayOfYear(doe))
  }

  /** Storing into a 32-bit int. */
  function Int32(x: int): (r: int)
    ensures -0x8000_0000 <= r < 0x8000_0000 && (r == x <==> -0x8000_0000 <= x < 0x8000_0000)
  {
    (x + 0x8000_0000) % 0x1_0000_0000 - 0x8000_0000
  }

  function SecondsToRtcdate(secs: nat): (r: RtcDate) {
    var days, rem := secs / 86400, secs % 86400;
    var d := FullDate(days);
    RtcDate(Date(Int32(d.year), d.month, d.day), rem / 3600, rem % 3600 / 60, rem % 3600 % 60)
  }

  predicate IsTime(r: RtcDate) { 0 <= r.hour < 24 && 0 <= r.minute < 60 && 0 <= r.second < 60 }

  function ToSeconds(r: RtcDate): (s: int)
    requires IsDate(r.date)
  {
    DayNumber(r.date) * 86400 + r.hour * 3600 + r.minute * 60 + r.second
  }

  // ---------------------------------------------------------------- years

  /** A day of the era as centuries, four-year groups, years and a rest. */
  ghost predicate Splits(doe: nat, c: nat, f: nat, y: nat, r: nat) {
    && c < 4 && f < 25 && y < 4 && r <= 365 && doe == 36524 * c + 1461 * f + 365 * y + r
    && (r == 365 ==> y == 3 && (f < 24 || c == 3))
  }

  lemma SplitEra(doe: nat) returns (c: nat, f: nat, y: nat, r: nat)
    requires doe < DAYS_PER_ERA
    ensures Splits(doe, c, f, y, r)
  {
    c := if doe == 146096 then 3 else doe / 36524;
    var e := doe - 36524 * c;
    f := if e == 36524 then 24 else e / 1461;
    var g := e - 1461 * f;
    y := if g == 1460 then 3 else g / 365;
    r := g - 365 * y;
  }

  lemma Quotients(doe: nat, c: nat, f: nat, y: nat, r: nat)
    requires Splits(doe, c, f, y, r)
    ensures doe / 1460 == 25 * c + f + (24 * c + f + 365 * y + r) / 1460
    ensures doe / 36524 - doe / 146096 == c
  {
  }

  /** The divisions by 1460, 36524 and 146096 find the year. */
  lemma YearOfEraIs(doe: nat, c: nat, f: nat, y: nat, r: nat)
    requires Splits(doe, c, f, y, r)
    ensures YearOfEra(doe) == 100 * c + 4 * f + y
  {
    Quotients(doe, c, f, y, r);
    var extra := (24 * c + f + 365 * y + r) / 1460;
    assert doe - doe / 1460 + doe / 36524 - doe / 146096 == 365 * (100 * c + 4 * f + y) + (r - extra);
  }

  lemma YearIs(doe: nat, c: nat, f: nat, y: nat, r: nat)
    requires Splits(doe, c, f, y, r)
    ensures YearOfEra(doe) == 100 * c + 4 * f + y && DayOfYear(doe) == r
  {
    YearOfEraIs(doe, c, f, y, r);
    EraYear(c, f, y);
  }

  lemma {:induction false} LeapDays(y: nat)
    ensures DaysToYear(y + 1) == 365 * (y + 1) + y / 4 - y / 100 + y / 400 + 1
  {
    if y > 0 {
      LeapDays(y - 1);
      LeapStep(y);
    } else {
      assert DaysToYear(1) == DaysToYear(0) + YearLength(0);
    }
  }

  lemma DivStep4(y: nat)
    requires y > 0
    ensures y / 4 == (y - 1) / 4 + if y % 4 == 0 then 1 else 0
  {
  }

  lemma Div100(q: int, r: int)
    requires 0 <= r < 100
    ensures (100 * q + r) / 100 == q && (100 * q + r) % 100 == r && (100 * q) % 4 == 0
  {
  }

  lemma DivStep100(y: nat)
    requires y > 0
    ensures y / 100 == (y - 1) / 100 + if y % 100 == 0 then 1 else 0
    ensures y % 100 == 0 ==> y % 4 == 0
  {
    var q, r := y / 100, y % 100;
    assert y == 100 * q + r;
    if r > 0 {
      Div100(q, r - 1);
    } else {
      Div100(q - 1, 99);
      Div100(q, 0);
    }
  }

  lemma Div400(q: int, r: int)
    requires 0 <= r < 400
    ensures (400 * q + r) / 400 == q && (400 * q) % 100 == 0
  {
  }

  lemma DivStep400(y: nat)
    requires y > 0
    ensures y / 400 == (y - 1) / 400 + if y % 400 == 0 then 1 else 0
    ensures y % 400 == 0 ==> y % 100 == 0
  {
    var q, r := y / 400, y % 400;
    assert y == 400 * q + r;
    if r > 0 {
      Div400(q, r - 1);
    } else {
      Div400(q - 1, 399);
      Div400(q, 0);
    }
  }

  lemma LeapStep(y: nat)
    requires y > 0
    ensures y / 4 - y / 100 + y / 400 == (y - 1) / 4 - (y - 1) / 100 + (y - 1) / 400 + if IsLeap(y) then 1 else 0
  {
    DivStep4(y);
    DivStep100(y);
    DivStep400(y);
  }

  /** Years of an era: 400 of them are 146097 days. */
  lemma EraDays(era: nat, yoe: nat)
    requires yoe < 400
    ensures DaysToYear(400 * era + yoe + 1) == DAYS_PER_ERA * era + 365 * yoe + yoe / 4 - yoe / 100 + 366
  {
    var y := 400 * era + yoe;
    LeapDays(y);
    assert y / 4 == 100 * era + yoe / 4;
    assert y / 100 == 4 * era + yoe / 100;
    assert y / 400 == era;
  }

  // ---------------------------------------------------------------- months

  /** The day of the March-based year on which month mp starts. */
  function MonthStart(mp: nat): (n: nat) { (153 * mp + 2) / 5 }

  lemma MonthIs(doy: nat)
    requires doy <= 365
    ensures 0 <= MonthIndex(doy) < 12 && MonthStart(MonthIndex(doy)) <= doy < MonthStart(MonthIndex(doy) + 1)
  {
  }

  /** Before March, days count from New Year; from March on, February lies in between. */
  lemma MonthDays(y: nat, mp: nat)
    requires mp < 12
    ensures mp < 10 ==>
              && DaysToMonth(y, mp + 3) == MonthStart(mp) + 59 + (if IsLeap(y) then 1 else 0)
              && MonthLength(y, mp + 3) == MonthStart(mp + 1) - MonthStart(mp)
    ensures mp >= 10 ==> DaysToMonth(y, mp - 9) == MonthStart(mp) - 306
    ensures mp == 10 ==> MonthLength(y, 1) == MonthStart(11) - MonthStart(10)
  {
    assert DaysToMonth(y, 1) == 0 && DaysToMonth(y, 2) == 31;
    var leap := if IsLeap(y) then 1 else 0;
    assert DaysToMonth(y, 3) == 59 + leap && DaysToMonth(y, 4) == 90 + leap && DaysToMonth(y, 5) == 120 + leap;
    assert DaysToMonth(y, 6) == 151 + leap && DaysToMonth(y, 7) == 181 + leap && DaysToMonth(y, 8) == 212 + leap;
    assert DaysToMonth(y, 9) == 243 + leap && DaysToMonth(y, 10) == 273 + leap && DaysToMonth(y, 11) == 304 + leap;
    assert DaysToMonth(y, 12) == 334 + leap;
  }

  // ---------------------------------------------------------------- the conversion is right

  /** Day 365 of a March-based year is 29 February, and only leap years have it. */
  lemma LastDay(era: nat, c: nat, f: nat, y: nat, r: nat)
    requires c < 4 && f < 25 && y < 4 && r == 365 && y == 3 && (f < 24 || c == 3)
    ensures IsLeap(400 * era + 100 * c + 4 * f + y + 1)
  {
    var n := 400 * era + 100 * c + 4 * f + y + 1;
    assert n == 4 * (100 * era + 25 * c + f + 1);
    assert n % 4 == 0;
    if f == 24 {
      assert n == 400 * (era + 1);
    } else {
      assert n == 100 * (4 * era + c) + (4 * f + 4);
      assert n % 100 == 4 * f + 4;
    }
  }

  /** The conversion's pieces: March-based year `base` and day r of it. */
  lemma DateParts(days: nat) returns (base: nat, r: nat)
    ensures r <= 365 && DaysToYear(base + 1) == days + 719468 - r + 366 && (r == 365 ==> IsLeap(base + 1))
    ensures FullDate(days) == FromMarch(base, r)
  {
    EraSplit(days);
    var c, f, y;
    c, f, y, r := SplitEra(DayOfEra(days));
    YearIs(DayOfEra(days), c, f, y, r);
    base := 400 * Era(days) + (100 * c + 4 * f + y);
    Parts(days, Era(days), DayOfEra(days), c, f, y, r);
    FullDateIs(days, 100 * c + 4 * f + y, r);
  }

  lemma EraSplit(days: nat)
    ensures days + 719468 == DAYS_PER_ERA * Era(days) + DayOfEra(days)
  {
  }

  lemma FullDateIs(days: nat, yoe: int, doy: int)
    requires YearOfEra(DayOfEra(days)) == yoe && DayOfYear(DayOfEra(days)) == doy
    ensures FullDate(days) == FromMarch(400 * Era(days) + yoe, doy)
  {
  }

  lemma Parts(days: nat, era: nat, doe: nat, c: nat, f: nat, y: nat, r: nat)
    requires days + 719468 == DAYS_PER_ERA * era + doe && Splits(doe, c, f, y, r)
    ensures var base := 400 * era + (100 * c + 4 * f + y);
            DaysToYear(base + 1) == days + 719468 - r + 366 && (r == 365 ==> IsLeap(base + 1))
  {
    PartsAdd(days, era, doe, c, f, y, r);
    if r == 365 {
      LastDay(era, c, f, y, r);
    }
  }

  lemma PartsAdd(days: nat, era: nat, doe: nat, c: nat, f: nat, y: nat, r: nat)
    requires days + 719468 == DAYS_PER_ERA * era + doe && Splits(doe, c, f, y, r)
    ensures DaysToYear(400 * era + (100 * c + 4 * f + y) + 1) == days + 719468 - r + 366
  {
    EraDays(era, 100 * c + 4 * f + y);
    EraYear(c, f, y);
  }

  lemma EraYear(c: nat, f: nat, y: nat)
    requires c < 4 && f < 25 && y < 4
    ensures var yoe := 100 * c + 4 * f + y; 365 * yoe + yoe / 4 - yoe / 100 == 36524 * c + 1461 * f + 365 * y
  {
    var yoe := 100 * c + 4 * f + y;
    assert yoe / 4 == 25 * c + f && yoe / 100 == c;
  }

  /** The date is a real one, and counting the days up to it gives the day it came from. */
  lemma DateIsRight(days: nat)
    ensures IsDate(FullDate(days)) && DayNumber(FullDate(days)) == days
  {
    var base, r := DateParts(days);
    MonthIs(r);
    var mp := MonthIndex(r);
    if mp < 10 {
      MonthDays(base, mp);
      assert DaysToYear(base + 1) == DaysToYear(base) + YearLength(base);
    } else {
      MonthDays(base + 1, mp);
    }
  }

  lemma TimeIsRight(secs: nat)
    ensures var r := SecondsToRtcdate(secs);
            IsTime(r) && r.hour * 3600 + r.minute * 60 + r.second == secs % 86400
  {
  }

  // ---------------------------------------------------------------- order

  lemma {:induction false} YearsAdd(y: nat, z: nat)
    requires y < z
    ensures DaysToYear(y) + YearLength(y) <= DaysToYear(z)
  {
    if y + 1 < z {
      YearsAdd(y, z - 1);
    }
  }

  lemma {:induction false} MonthsAdd(y: nat, m: nat, n: nat)
    requires 1 <= m < n <= 13
    ensures DaysToMonth(y, m) + MonthLength(y, m) <= DaysToMonth(y, n)
  {
    if m + 1 < n {
      MonthsAdd(y, m, n - 1);
    }
  }

  lemma MonthsFill(y: nat)
    ensures DaysToMonth(y, 13) == YearLength(y)
  {
    MonthDays(y, 9);
    assert DaysToMonth(y, 13) == DaysToMonth(y, 12) + 31;
  }

  /** Later dates have greater day numbers. */
  lemma OrderKept(d: Date, e: Date)
    requires IsDate(d) && IsDate(e) && Before(d, e)
    ensures DayNumber(d) < DayNumber(e)
  {
    MonthsFill(d.year);
    MonthsAdd(d.year, d.month, 13);
    if d.year < e.year {
      YearsAdd(d.year, e.year);
    } else if d.month < e.month {
      MonthsAdd(d.year, d.month, e.month);
    }
  }

  /** The first second of a year that does not fit an int: 1 January 2147483648. */
  const TOO_LATE: nat := 67767976233532800

  lemma TooLateIs()
    ensures TOO_LATE == (DaysToYear(0x8000_0000) - 719528) * 86400
  {
    LeapDays(0x7fff_ffff);
  }

  /** The years before 2147483648 are the seconds before TOO_LATE. */
  lemma YearFits(secs: nat)
    ensures FullDate(secs / 86400).year < 0x8000_0000 <==> secs < TOO_LATE
  {
    var days := secs / 86400;
    var d := FullDate(days);
    DateIsRight(days);
    TooLateIs();
    var first := Date(0x8000_0000, 1, 1);
    assert DayNumber(first) * 86400 == TOO_LATE;
    if Before(d, first) {
      OrderKept(d, first);
    } else if d != first {
      OrderKept(first, d);
    }
  }

  /** Converting and counting back gives the same seconds exactly when the year fits an int. */
  lemma ConversionExact(secs: nat)
    ensures var r := SecondsToRtcdate(secs);
            (IsDate(r.date) && IsTime(r) && ToSeconds(r) == secs) <==> secs < TOO_LATE
  {
    var days := secs / 86400;
    var r, d := SecondsToRtcdate(secs), FullDate(days);
    YearFits(secs);
    DateIsRight(days);
    TimeIsRight(secs);
    assert secs == days * 86400 + secs % 86400;
    if d.year >= 0x8000_0000 && IsDate(r.date) {
      assert r.date.year != d.year;
      if r.date.year < d.year {
        OrderKept(r.date, d);
      } else {
        OrderKept(d, r.date);
      }
    }
  }

  /** The boundary second itself comes out in a negative year. */
  lemma TooLateFails()
    ensures SecondsToRtcdate(TOO_LATE).date == Date(-0x8000_0000, 1, 1)
  {
    TooLateIs();
    var first := Date(0x8000_0000, 1, 1);
    assert DayNumber(first) == TOO_LATE / 86400;
    EveryDateReached(first);
  }

  /** sys_datetime's argument: BOOT_EPOCH is 1, the timer counts 10 MHz, Cairo is two hours on. */
  function UnixSeconds(mtime: nat): (secs: nat) { 1 + mtime / 10_000_000 + 7200 }

  /** Whatever the 64-bit timer shows, sys_datetime's date and time are right. */
  lemma DatetimeExact(mtime: nat)
    requires mtime < 0x1_0000_0000_0000_0000
    ensures var r := SecondsToRtcdate(UnixSeconds(mtime));
            IsDate(r.date) && IsTime(r) && ToSeconds(r) == UnixSeconds(mtime)
  {
    ConversionExact(UnixSeconds(mtime));
  }

  /** Different seconds give different results, and earlier ones earlier dates or times. */
  lemma ConversionOrdered(s: nat, t: nat)
    requires s < t < TOO_LATE
    ensures var a, b := SecondsToRtcdate(s), SecondsToRtcdate(t);
            || Before(a.date, b.date)
            || (a.date == b.date && a.hour * 3600 + a.minute * 60 + a.second < b.hour * 3600 + b.minute * 60 + b.second)
  {
    ConversionExact(s);
    ConversionExact(t);
    var a, b := SecondsToRtcdate(s), SecondsToRtcdate(t);
    TimeIsRight(s);
    TimeIsRight(t);
    if Before(b.date, a.date) {
      OrderKept(b.date, a.date);
    }
  }

  /** Every date from 1970 on is the conversion of its own day number. */
  lemma EveryDateReached(d: Date)
    requires IsDate(d) && DayNumber(d) >= 0
    ensures FullDate(DayNumber(d)) == d
  {
    var e := FullDate(DayNumber(d));
    DateIsRight(DayNumber(d));
    if Before(d, e) {
      OrderKept(d, e);
    } else if Before(e, d) {
      OrderKept(e, d);
    }
  }
}
