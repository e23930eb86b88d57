/**
 Time values of the JavaScript `Date` object, after sections 15.9.1.2 to 15.9.1.13 and 15.9.4.3 of
 ECMA-262 edition 5.1: milliseconds since 1 January 1970 UTC, in the proleptic Gregorian calendar.
 */
module JsDate {

  const MS_PER_DAY := 86400000

  function Day(t: int): int {
    t / MS_PER_DAY
  }

  function TimeWithinDay(t: int): nat {
    t % MS_PER_DAY
  }

  /** The number of the first day of a year. */
  function DayFromYear(y: int): int {
    365 * (y - 1970) + (y - 1969) / 4 - (y - 1901) / 100 + (y - 1601) / 400
  }

  predicate IsLeap(y: int) {
    (y % 4 == 0 && y % 100 != 0) || y % 400 == 0
  }

  function DaysInYear(y: int): int {
    if IsLeap(y) then 366 else 365
  }

  lemma LeapDay4(y: int)
    ensures (y - 1968) / 4 - (y - 1969) / 4 == if y % 4 == 0 then 1 else 0
  {
    var q, r := y / 4, y % 4;
    assert y - 1968 == 4 * (q - 492) + r;
    assert (y - 1968) / 4 == q - 492;
    assert (y - 1969) / 4 == if r == 0 then q - 493 else q - 492;
  }

  lemma LeapDay100(y: int)
    ensures (y - 1900) / 100 - (y - 1901) / 100 == if y % 100 == 0 then 1 else 0
  {
    var q, r := y / 100, y % 100;
    assert y - 1900 == 100 * (q - 19) + r;
    assert (y - 1900) / 100 == q - 19;
    assert (y - 1901) / 100 == if r == 0 then q - 20 else q - 19;
  }

  lemma LeapDay400(y: int)
    ensures (y - 1600) / 400 - (y - 1601) / 400 == if y % 400 == 0 then 1 else 0
  {
    var q, r := y / 400, y % 400;
    assert y - 1600 == 400 * (q - 4) + r;
    assert (y - 1600) / 400 == q - 4;
    assert (y - 1601) / 400 == if r == 0 then q - 5 else q - 4;
  }

  lemma LeapSum(y: int)
    ensures (if y % 4 == 0 then 1 else 0) - (if y % 100 == 0 then 1 else 0) + (if y % 400 == 0 then 1 else 0) ==
            if IsLeap(y) then 1 else 0
  {
    var c, q := y / 100, y / 400;
    if y % 400 == 0 {
      assert y == 100 * (4 * q) == 4 * (100 * q);
    } else if y % 100 == 0 {
      assert y == 4 * (25 * c);
    }
  }

  lemma YearLength(y: int)
    ensures DayFromYear(y + 1) - DayFromYear(y) == DaysInYear(y)
  {
    LeapDay4(y);
    LeapDay100(y);
    LeapDay400(y);
    LeapSum(y);
    hide IsLeap;
  }

  lemma {:induction false} YearsAscend(y: int, z: int)
    requires y < z
    ensures DayFromYear(y) + 365 * (z - y) <= DayFromYear(z)
    decreases z - y
  {
    YearLength(z - 1);
    if y < z - 1 {
      YearsAscend(y, z - 1);
    }
  }

  /** The year that contains day `d`, searched from year `y`. */
  function YearFrom(d: int, y: int): (r: int)
    ensures DayFromYear(r) <= d < DayFromYear(r + 1)
    decreases if d < DayFromYear(y) then DayFromYear(y) - d
              else if d >= DayFromYear(y + 1) then d - DayFromYear(y + 1) + 1
              else 0
  {
    if d < DayFromYear(y) then
      YearLength(y - 1);
      YearFrom(d, y - 1)
    else if d >= DayFromYear(y + 1) then
      YearLength(y + 1);
      YearFrom(d, y + 1)
    else y
  }

  /** `YearFromTime`, on day numbers: the largest year that starts no later than day `d`. */
  function YearOfDay(d: int): (r: int)
    ensures DayFromYear(r) <= d < DayFromYear(r + 1)
  {
    YearFrom(d, 1970)
  }

  lemma YearUnique(d: int, y: int)
    requires DayFromYear(y) <= d < DayFromYear(y + 1)
    ensures YearOfDay(d) == y
  {
    var r := YearOfDay(d);
    if r < y {
      if r + 1 < y { YearsAscend(r + 1, y); }
    } else if y < r {
      if y + 1 < r { YearsAscend(y + 1, r); }
    }
  }

  /** Days in front of month `m`, January being 0. */
  function DaysBeforeMonth(m: nat, leap: bool): nat
    requires m <= 12
  {
    var base := [0, 31, 59, 90, 120, 151, 181, 212, 243, 273, 304, 334, 365][m];
    if leap && m >= 2 then base + 1 else base
  }

  function DaysInMonth(m: nat, leap: bool): nat
    requires m < 12
  {
    if m == 3 || m == 5 || m == 8 || m == 10 then 30
    else if m == 1 then if leap then 29 else 28
    else 31
  }

  lemma MonthLength(m: nat, leap: bool)
    requires m < 12
    ensures DaysBeforeMonth(m + 1, leap) == DaysBeforeMonth(m, leap) + DaysInMonth(m, leap)
  {
  }

  lemma {:induction false} MonthsAscend(m: nat, n: nat, leap: bool)
    requires m < n <= 12
    ensures DaysBeforeMonth(m, leap) < DaysBeforeMonth(n, leap)
    decreases n - m
  {
    MonthLength(n - 1, leap);
    if m < n - 1 {
      MonthsAscend(m, n - 1, leap);
    }
  }

  /** The month, at most `m`, that contains day `d` of the year. */
  function MonthFrom(d: nat, leap: bool, m: nat): (r: nat)
    requires m < 12 && d < DaysBeforeMonth(m + 1, leap)
    ensures r < 12 && DaysBeforeMonth(r, leap) <= d < DaysBeforeMonth(r + 1, leap)
    decreases m
  {
    if DaysBeforeMonth(m, leap) <= d then m else MonthFrom(d, leap, m - 1)
  }

  function MonthOf(d: nat, leap: bool): (r: nat)
    requires d < if leap then 366 else 365
    ensures r < 12 && DaysBeforeMonth(r, leap) <= d < DaysBeforeMonth(r + 1, leap)
  {
    MonthFrom(d, leap, 11)
  }

  lemma MonthUnique(d: nat, leap: bool, m: nat)
    requires m < 12 && DaysBeforeMonth(m, leap) <= d < DaysBeforeMonth(m + 1, leap)
    ensures d < (if leap then 366 else 365) && MonthOf(d, leap) == m
  {
    if m + 1 < 12 { MonthsAscend(m + 1, 12, leap); }
    var r := MonthOf(d, leap);
    if r < m {
      if r + 1 < m { MonthsAscend(r + 1, m, leap); }
    } else if m < r {
      if m + 1 < r { MonthsAscend(m + 1, r, leap); }
    }
  }

  // ----- fields

  function Year(t: int): int {
    YearOfDay(Day(t))
  }

  function DayWithinYear(t: int): (d: nat)
    ensures d < DaysInYear(Year(t))
  {
    YearLength(Year(t));
    Day(t) - DayFromYear(Year(t))
  }

  /** 0 to 11 */
  function Month(t: int): (m: nat)
    ensures m < 12
  {
    MonthOf(DayWithinYear(t), IsLeap(Year(t)))
  }

  /** 1 to 31 */
  function Date(t: int): (d: nat)
    ensures 1 <= d <= DaysInMonth(Month(t), IsLeap(Year(t)))
  {
    MonthLength(Month(t), IsLeap(Year(t)));
    DayWithinYear(t) - DaysBeforeMonth(Month(t), IsLeap(Year(t))) + 1
  }

  /** Sunday is 0. */
  function WeekDay(t: int): nat {
    (Day(t) + 4) % 7
  }

  function Hours(t: int): nat {
    TimeWithinDay(t) / 3600000
  }

  function Minutes(t: int): nat {
    TimeWithinDay(t) / 60000 % 60
  }

  function Seconds(t: int): nat {
    TimeWithinDay(t) / 1000 % 60
  }

  function Milliseconds(t: int): nat {
    TimeWithinDay(t) % 1000
  }

  // ----- making time values

  function MakeTime(h: int, m: int, s: int, ms: int): int {
    h * 3600000 + m * 60000 + s * 1000 + ms
  }

  /** `month` counts from 0 and may lie outside the year, as may `date` outside the month. */
  function MakeDay(year: int, month: int, date: int): int {
    var y, m := year + month / 12, month % 12;
    DayFromYear(y) + DaysBeforeMonth(m, IsLeap(y)) + date - 1
  }

  function MakeDate(day: int, time: int): int {
    day * MS_PER_DAY + time
  }

  /** Years 0 to 99 mean 1900 to 1999. */
  function FullYear(y: int): int {
    if 0 <= y <= 99 then 1900 + y else y
  }

  /** `Date.UTC` */
  function UTC(year: int, month: int, date: int, h: int, m: int, s: int, ms: int): int {
    MakeDate(MakeDay(FullYear(year), month, date), MakeTime(h, m, s, ms))
  }

  predicate IsTimeOfDay(h: int, m: int, s: int, ms: int) {
    0 <= h < 24 && 0 <= m < 60 && 0 <= s < 60 && 0 <= ms < 1000
  }

  lemma TimeFields(t: int)
    ensures IsTimeOfDay(Hours(t), Minutes(t), Seconds(t), Milliseconds(t))
    ensures MakeTime(Hours(t), Minutes(t), Seconds(t), Milliseconds(t)) == TimeWithinDay(t)
  {
    var u := TimeWithinDay(t);
    assert 0 <= u < MS_PER_DAY;
    hide TimeWithinDay;
    var s, m, h := u / 1000, u / 60000, u / 3600000;
    assert u == 1000 * s + u % 1000;
    assert s == 60 * m + s % 60 by {
      assert u == 60000 * m + u % 60000;
      assert s / 60 == m;
    }
    assert m == 60 * h + m % 60 by {
      assert u == 3600000 * h + u % 3600000;
      assert m / 60 == h;
    }
  }

  lemma ClockFieldsUnique(u: nat, h: int, m: int, s: int, ms: int)
    requires IsTimeOfDay(h, m, s, ms) && u == MakeTime(h, m, s, ms)
    ensures u < MS_PER_DAY && u / 3600000 == h && u / 60000 % 60 == m && u / 1000 % 60 == s && u % 1000 == ms
  {
    assert u == 1000 * (h * 3600 + m * 60 + s) + ms;
    var seconds := h * 3600 + m * 60 + s;
    assert u / 1000 == seconds && u % 1000 == ms;
    assert u == 60000 * (h * 60 + m) + (s * 1000 + ms);
    assert u / 60000 == h * 60 + m;
  }

  lemma TimeFieldsUnique(day: int, h: int, m: int, s: int, ms: int)
    requires IsTimeOfDay(h, m, s, ms)
    ensures var t := MakeDate(day, MakeTime(h, m, s, ms));
            Day(t) == day && Hours(t) == h && Minutes(t) == m && Seconds(t) == s && Milliseconds(t) == ms
  {
    var u := MakeTime(h, m, s, ms);
    ClockFieldsUnique(u, h, m, s, ms);
    hide MakeTime, IsTimeOfDay;
    var t := MakeDate(day, u);
    assert Day(t) == day && TimeWithinDay(t) == u;
  }

  /** Fields and time value determine each other. */
  lemma DayFields(t: int)
    ensures MakeDay(Year(t), Month(t), Date(t)) == Day(t)
  {
    hide DaysBeforeMonth, DayFromYear, IsLeap, DaysInMonth, MonthOf, YearOfDay;
  }

  lemma FieldsMakeTime(t: int)
    ensures MakeDate(MakeDay(Year(t), Month(t), Date(t)),
                     MakeTime(Hours(t), Minutes(t), Seconds(t), Milliseconds(t))) == t
  {
    DayFields(t);
    TimeFields(t);
  }

  lemma YearMonths(y: int)
    ensures DaysBeforeMonth(0, IsLeap(y)) == 0 && DaysBeforeMonth(12, IsLeap(y)) == DaysInYear(y)
  {
  }

  lemma DateFieldsUnique(t: int, y: int, m: nat, d: int)
    requires m < 12 && 1 <= d <= DaysInMonth(m, IsLeap(y)) && Day(t) == MakeDay(y, m, d)
    ensures Year(t) == y && Month(t) == m && Date(t) == d
  {
    hide DayFromYear, DaysInMonth, MonthOf, YearOfDay, DaysBeforeMonth;
    var leap := IsLeap(y);
    assert DaysBeforeMonth(0, leap) == 0 && DaysBeforeMonth(12, leap) == DaysInYear(y) by { YearMonths(y); }
    MonthLength(m, leap);
    if m + 1 < 12 { MonthsAscend(m + 1, 12, leap); }
    if 0 < m { MonthsAscend(0, m, leap); }
    YearLength(y);
    YearUnique(Day(t), y);
    MonthUnique(DayWithinYear(t), leap, m);
  }

  /** 1 January of the year 0 is a Saturday. */
  lemma YearZeroStartsOnSaturday()
    ensures (DayFromYear(0) + 4) % 7 == 6
  {
  }

  // ----- the origin and the units

  lemma DaysStart()
    ensures DayFromYear(1970) == 0 && !IsLeap(1970) && DaysBeforeMonth(0, false) == 0
  {
  }

  lemma ClockStarts()
    ensures Day(0) == 0 && TimeWithinDay(0) == 0 && MakeTime(0, 0, 0, 0) == 0 && MakeDate(0, 0) == 0
  {
  }

  /** Time starts on Thursday, 1 January 1970. */
  lemma Epoch(t: int)
    requires t == 0
    ensures Year(t) == 1970 && Month(t) == 0 && Date(t) == 1 && WeekDay(t) == 4
    ensures Hours(t) == 0 && Minutes(t) == 0 && Seconds(t) == 0 && Milliseconds(t) == 0
  {
    hide DayFromYear, Year, Month, Date, IsLeap, DaysBeforeMonth, Day, TimeWithinDay, MakeTime, MakeDate;
    DaysStart();
    ClockStarts();
    DateFieldsUnique(t, 1970, 0, 1);
  }

  /** `Date.UTC` of that day is 0, and it takes the year 70 for 1970. */
  lemma EpochUTC()
    ensures UTC(1970, 1 - 1, 1, 0, 0, 0, 0) == 0 == UTC(70, 1 - 1, 1, 0, 0, 0, 0)
  {
    hide DayFromYear, IsLeap, DaysBeforeMonth, MakeTime, MakeDate;
    DaysStart();
    ClockStarts();
  }

  /** The year that `Date.UTC` makes of two digits is the one of the 20th century that ends in them. */
  lemma FullYearIs(y: int)
    ensures FullYear(y) % 100 == y % 100 && (0 <= y <= 99 ==> 1900 <= FullYear(y) <= 1999)
    ensures !(0 <= y <= 99) ==> FullYear(y) == y
  {
  }

  /** Twenty-four hours of sixty minutes of sixty seconds of a thousand milliseconds. */
  lemma UnitsNest(d: int, h: int, m: int, s: int, ms: int)
    ensures MakeDate(d, MakeTime(h, m, s, ms)) == (((d * 24 + h) * 60 + m) * 60 + s) * 1000 + ms
  {
  }

  /** A day later the weekday is the next one. */
  lemma DayAfter(t: int)
    ensures WeekDay(t + 24 * 60 * 60 * 1000) == if WeekDay(t) == 6 then 0 else WeekDay(t) + 1
  {
    assert Day(t + MS_PER_DAY) == Day(t) + 1;
    var x := (Day(t) + 4) % 7;
    assert (Day(t) + 5) % 7 == if x == 6 then 0 else x + 1;
  }

  /** The calendar repeats after 400 years of 97 leap days, which are whole weeks. */
  lemma Cycle(y: int)
    ensures IsLeap(y + 400) == IsLeap(y) && DayFromYear(y + 400) == DayFromYear(y) + 400 * 365 + 97
    ensures (400 * 365 + 97) % 7 == 0
  {
    assert (y + 400 - 1969) / 4 == (y - 1969) / 4 + 100;
    assert (y + 400 - 1901) / 100 == (y - 1901) / 100 + 4;
    assert (y + 400) % 4 == y % 4 && (y + 400) % 100 == y % 100 && (y + 400) % 400 == y % 400;
  }
}
