/**
 The calendar arithmetic of `SC.DateTime`, on values: what its conversions and getters compute, and
 for which instants that is the calendar answer.  A time zone is an offset in minutes, positive to
 the west.
 */
module DateTimeMath {
  import opened JsRuntime
  import opened JsDate

  /** A hash of date and time options; a field left out is `None`. */
  datatype Opts = Opts(
    year: Option<int>,
    month: Option<int>,
    day: Option<int>,
    hour: Option<int>,
    minute: Option<int>,
    second: Option<int>,
    millisecond: Option<int>)

  const NO_OPTS := Opts(None, None, None, None, None, None, None)

  function Or(x: Option<int>, y: int): int {
    if x.Some? then x.value else y
  }

  /** The UTC reading of an instant in a time zone. */
  function Local(t: int, tz: int): int {
    t - tz * 60000
  }

  /** Smaller units that are not given are reset to zero. */
  function Cascade(o: Opts): Opts {
    var minute := if o.hour.Some? && o.minute.None? then Some(0) else o.minute;
    var second := if (o.hour.Some? || minute.Some?) && o.second.None? then Some(0) else o.second;
    var ms := if (o.hour.Some? || minute.Some? || second.Some?) && o.millisecond.None? then Some(0) else o.millisecond;
    o.(minute := minute, second := second, millisecond := ms)
  }

  /** `_toMilliseconds`: the fields of `start` in zone `tz`, overridden by the options. */
  function ToMs(o: Opts, start: int, tz: int, reset: bool): int {
    var d := Local(start, tz);
    var p := if reset then Cascade(o) else o;
    UTC(Or(p.year, Year(d)), Or(p.month, Month(d) + 1) - 1, Or(p.day, Date(d)),
        Or(p.hour, Hours(d)), Or(p.minute, Minutes(d)), Or(p.second, Seconds(d)), Or(p.millisecond, Milliseconds(d)))
    + tz * 60000
  }

  /** The years that `Date.UTC` takes for years of the 20th century. */
  predicate TwoDigitYear(y: int) {
    0 <= y <= 99
  }

  lemma ShiftedYear(y: int, m: nat, d: int)
    requires m < 12
    ensures MakeDay(FullYear(y), m, d) == MakeDay(y, m, d) <==> !TwoDigitYear(y)
  {
    if TwoDigitYear(y) {
      YearsAscend(y, 1900 + y);
      LeapShift(m, IsLeap(y), IsLeap(1900 + y));
    }
  }

  lemma LeapShift(m: nat, a: bool, b: bool)
    requires m < 12
    ensures -1 <= DaysBeforeMonth(m, a) - DaysBeforeMonth(m, b) <= 1
  {
  }

  // ----- advancing

  /** The options that `_advance` builds: the current value of every field given, plus the delta. */
  function Advanced(delta: Opts, t: int, tz: int): Opts {
    var d := Local(t, tz);
    Opts(Plus(delta.year, Year(d)), Plus(delta.month, Month(d) + 1), Plus(delta.day, Date(d)),
         Plus(delta.hour, Hours(d)), Plus(delta.minute, Minutes(d)), Plus(delta.second, Seconds(d)),
             Plus(delta.millisecond, Milliseconds(d)))
  }

  function Plus(x: Option<int>, y: int): Option<int> {
    if x.Some? then Some(x.value + y) else None
  }

  /** `advance` without a change of time zone. */
  function Advance(delta: Opts, t: int, tz: int): int {
    ToMs(Advanced(delta, t, tz), t, tz, false)
  }

  /** `advance` by a change of time zone alone. */
  function ToTimezone(t: int, tz: int): int {
    ToMs(NO_OPTS, t, tz, false)
  }

  /** The length of a delta of fixed units. */
  function Span(delta: Opts): int {
    MakeDate(Or(delta.day, 0), MakeTime(Or(delta.hour, 0), Or(delta.minute, 0), Or(delta.second, 0),
                                        Or(delta.millisecond, 0)))
  }

  lemma MakeDateSum(a: int, b: int, c: int, e: int)
    ensures MakeDate(a + b, c + e) == MakeDate(a, c) + MakeDate(b, e)
  {
  }

  lemma MakeTimeSum(h: int, m: int, s: int, ms: int, h': int, m': int, s': int, ms': int)
    ensures MakeTime(h + h', m + m', s + s', ms + ms') == MakeTime(h, m, s, ms) + MakeTime(h', m', s', ms')
  {
  }

  lemma MakeDaySum(y: int, m: int, d: int, n: int)
    ensures MakeDay(y, m, d + n) == MakeDay(y, m, d) + n
  {
  }

  function TimeOf(d: int): int {
    MakeTime(Hours(d), Minutes(d), Seconds(d), Milliseconds(d))
  }

  /** Advancing fixed units, before asking what year it is. */
  lemma AdvanceAs(delta: Opts, t: int, tz: int)
    requires delta.year.None? && delta.month.None?
    ensures var d := Local(t, tz);
            Advance(delta, t, tz) == MakeDate(MakeDay(FullYear(Year(d)), Month(d), Date(d)),
                                              TimeOf(d)) + Span(delta) + tz * 60000
  {
    var d := Local(t, tz);
    var y, m, day := FullYear(Year(d)), Month(d), Date(d);
    var n, time := Or(delta.day, 0), MakeTime(Or(delta.hour, 0), Or(delta.minute, 0), Or(delta.second, 0),
                                              Or(delta.millisecond, 0));
    MakeDaySum(y, m, day, n);
    MakeTimeSum(Hours(d), Minutes(d), Seconds(d), Milliseconds(d),
                Or(delta.hour, 0), Or(delta.minute, 0), Or(delta.second, 0), Or(delta.millisecond, 0));
    MakeDateSum(MakeDay(y, m, day), n, TimeOf(d), time);
    hide Year, Month, Date, Hours, Minutes, Seconds, Milliseconds, FullYear, MakeDay, MakeTime, MakeDate, Local;
  }

  /**
   Advancing by any number of days, hours, minutes, seconds and milliseconds, in any time zone, moves
   the instant by exactly their length if and only if the local year is not one of the years 0 to 99.
   */
  lemma AdvanceExact(delta: Opts, t: int, tz: int)
    requires delta.year.None? && delta.month.None?
    ensures Advance(delta, t, tz) == t + Span(delta) <==> !TwoDigitYear(Year(Local(t, tz)))
  {
    var d := Local(t, tz);
    AdvanceAs(delta, t, tz);
    ShiftedYear(Year(d), Month(d), Date(d));
    FieldsMakeTime(d);
    assert t == MakeDate(MakeDay(Year(d), Month(d), Date(d)), TimeOf(d)) + tz * 60000;
    hide Year, Month, Date, FullYear, MakeDay, MakeTime, TimeOf, Span, Advance;
  }

  lemma AdvanceNothing(t: int, tz: int)
    ensures Advance(NO_OPTS, t, tz) == ToTimezone(t, tz) && Span(NO_OPTS) == 0
  {
    SpanNone();
    hide Year, Month, Date, Hours, Minutes, Seconds, Milliseconds, Local, ToMs, Span;
    assert Advanced(NO_OPTS, t, tz) == NO_OPTS;
  }

  lemma SpanNone()
    ensures Span(NO_OPTS) == 0
  {
  }

  /** Changing the time zone keeps the instant, if and only if the local year there is not one of those. */
  lemma ToTimezoneKeeps(t: int, tz: int)
    ensures ToTimezone(t, tz) == t <==> !TwoDigitYear(Year(Local(t, tz)))
  {
    hide Year, Local, Advance, Span;
    AdvanceNothing(t, tz);
    AdvanceExact(NO_OPTS, t, tz);
  }

  function SpanSum(a: Opts, b: Opts): Opts {
    Opts(None, None, Some(Or(a.day, 0) + Or(b.day, 0)), Some(Or(a.hour, 0) + Or(b.hour, 0)),
         Some(Or(a.minute, 0) + Or(b.minute, 0)),
         Some(Or(a.second, 0) + Or(b.second, 0)), Some(Or(a.millisecond, 0) + Or(b.millisecond, 0)))
  }

  /** However far off the first advance is, a longer one is off by the same amount. */
  lemma AdvanceFurther(a: Opts, b: Opts, t: int, tz: int)
    requires a.year.None? && a.month.None?
    ensures Advance(SpanSum(a, b), t, tz) == Advance(a, t, tz) + Span(b)
  {
    hide Advance, Span, SpanSum, MakeDate, MakeDay, TimeOf, Year, Month, Date, FullYear, Local;
    SpanAdds(a, b);
    AdvanceAs(a, t, tz);
    AdvanceAs(SpanSum(a, b), t, tz);
  }

  /** Two advances add up if and only if the first does not end in one of the local years 0 to 99. */
  lemma AdvanceAdds(a: Opts, b: Opts, t: int, tz: int)
    requires a.year.None? && a.month.None? && b.year.None? && b.month.None?
    ensures Advance(b, Advance(a, t, tz), tz) == Advance(SpanSum(a, b), t, tz) <==>
            !TwoDigitYear(Year(Local(Advance(a, t, tz), tz)))
  {
    hide Advance, Year, Local, Span, SpanSum, TwoDigitYear;
    AdvanceFurther(a, b, t, tz);
    AdvanceExact(b, Advance(a, t, tz), tz);
  }

  lemma SpanAdds(a: Opts, b: Opts)
    ensures Span(SpanSum(a, b)) == Span(a) + Span(b) && SpanSum(a, b).year.None? && SpanSum(a, b).month.None?
  {
  }

  lemma MakeDayInjective(y: int, z: int, m: nat, d: int)
    requires m < 12
    ensures MakeDay(y, m, d) == MakeDay(z, m, d) <==> y == z
  {
    LeapShift(m, IsLeap(y), IsLeap(z));
    if y < z {
      YearsAscend(y, z);
    } else if z < y {
      YearsAscend(z, y);
    }
  }

  lemma WholeYears(y: int, m: nat, k: int, d: int)
    requires m < 12
    ensures MakeDay(y, m + 12 * k, d) == MakeDay(y + k, m, d)
  {
    assert (m + 12 * k) / 12 == k && (m + 12 * k) % 12 == m;
  }

  /**
   Advancing 12k months is the same as advancing k years if and only if the years before and after
   are both among the years 0 to 99, or both outside.
   */
  lemma MonthsAreYears(t: int, tz: int, k: int)
    ensures Advance(NO_OPTS.(month := Some(12 * k)), t, tz) == Advance(NO_OPTS.(year := Some(k)), t, tz) <==>
            (TwoDigitYear(Year(Local(t, tz))) <==> TwoDigitYear(Year(Local(t, tz)) + k))
  {
    hide Year, Month, Date, MakeDay, MakeTime, TimeOf, Advance, Local, DaysInMonth, IsLeap;
    var d := Local(t, tz);
    var y, m := Year(d), Month(d);
    WholeYears(FullYear(y), m, k, Date(d));
    MakeDayInjective(FullYear(y) + k, FullYear(y + k), m, Date(d));
    AdvanceMonths(t, tz, 12 * k);
    AdvanceYears(t, tz, k);
    assert FullYear(y) + k == FullYear(y + k) <==> (TwoDigitYear(y) <==> TwoDigitYear(y + k));
  }

  lemma AdvanceMonths(t: int, tz: int, n: int)
    ensures var d := Local(t, tz);
            Advance(NO_OPTS.(month := Some(n)), t, tz) ==
                MakeDate(MakeDay(FullYear(Year(d)), Month(d) + n, Date(d)), TimeOf(d)) + tz * 60000
  {
    hide Year, Month, Date, Hours, Minutes, Seconds, Milliseconds, FullYear, MakeDay, MakeTime, MakeDate, Local;
  }

  lemma AdvanceYears(t: int, tz: int, n: int)
    ensures var d := Local(t, tz);
            Advance(NO_OPTS.(year := Some(n)), t, tz) ==
                MakeDate(MakeDay(FullYear(Year(d) + n), Month(d), Date(d)), TimeOf(d)) + tz * 60000
  {
    hide Year, Month, Date, Hours, Minutes, Seconds, Milliseconds, FullYear, MakeDay, MakeTime, MakeDate, Local;
  }

  // ----- the day of the year

  /** What the month-walking loop adds up: the months are those of the year that `Date.UTC` makes of `y`. */
  function MonthSum(m: nat, y: int): nat
    requires m <= 12
  {
    if m == 0 then 0 else MonthSum(m - 1, y) + DaysInMonth(m - 1, IsLeap(y))
  }

  function DayOfYear(d: int): int {
    Date(d) + MonthSum(Month(d), FullYear(Year(d)))
  }

  lemma {:induction false} MonthSumIs(m: nat, y: int)
    requires m <= 12
    ensures MonthSum(m, y) == DaysBeforeMonth(m, IsLeap(y))
  {
    if m > 0 {
      MonthSumIs(m - 1, y);
      MonthLength(m - 1, IsLeap(y));
    }
  }

  lemma LeapInCentury(y: int)
    requires TwoDigitYear(y)
    ensures IsLeap(1900 + y) == IsLeap(y) <==> y != 0
  {
    assert (1900 + y) % 4 == y % 4;
  }

  /** The loop counts the days since 1 January, except from March on in the year 0, where it loses the leap day. */
  lemma DayOfYearExact(d: int)
    ensures DayOfYear(d) == DayWithinYear(d) + 1 <==> !(Year(d) == 0 && Month(d) >= 2)
    ensures DayOfYear(d) == DayWithinYear(d) + (if Year(d) == 0 && Month(d) >= 2 then 0 else 1)
  {
    var y, m := Year(d), Month(d);
    MonthSumIs(m, FullYear(y));
    if TwoDigitYear(y) {
      LeapInCentury(y);
    }
    assert Date(d) == DayWithinYear(d) - DaysBeforeMonth(m, IsLeap(y)) + 1;
    hide Year, Month, Date, DayWithinYear, IsLeap;
  }

  // ----- weeks

  /** How many of the days `a` to `b` fall on weekday `w`. */
  function CountWeekDays(w: nat, a: int, b: int): nat
    decreases b - a
  {
    if b < a then 0 else CountWeekDays(w, a, b - 1) + (if (b + 4) % 7 == w then 1 else 0)
  }

  /** Days since the last `w`, on or before a day that falls on weekday `dow`. */
  function DaysSince(w: nat, dow: nat): int {
    (dow - w + 7) % 7
  }

  lemma {:induction false} CountClosed(w: nat, a: int, b: int)
    requires w < 7 && a <= b
    ensures CountWeekDays(w, a, b) == (b - a - DaysSince(w, (b + 4) % 7) + 7) / 7
    decreases b - a
  {
    var k := DaysSince(w, (b + 4) % 7);
    if a < b {
      CountClosed(w, a, b - 1);
      var j := DaysSince(w, (b + 3) % 7);
      NextDay(w, b);
      hide DaysSince;
      if j == 6 {
        assert b - a - k + 7 == (b - 1 - a - j + 7) + 7;
      } else {
        assert b - a - k + 7 == b - 1 - a - j + 7;
      }
    } else {
      NextDay(w, b);
      assert CountWeekDays(w, a, b - 1) == 0;
    }
  }

  /** A day later it is one day more, or none if the weekday has come round. */
  lemma NextDay(w: nat, b: int)
    requires w < 7
    ensures var j, k := DaysSince(w, (b + 3) % 7), DaysSince(w, (b + 4) % 7);
            k == (if j == 6 then 0 else j + 1) && 0 <= k <= 6 && (k == 0 <==> (b + 4) % 7 == w)
  {
    var x := (b + 3) % 7;
    assert (b + 4) % 7 == if x == 6 then 0 else x + 1;
  }

  /** `week0` and `week1`, the first day of the week being Sunday (0) or Monday (1). */
  function WeekOf(firstDay: nat, d: int): int {
    Weeks(firstDay, DayOfYear(d) - 1, WeekDay(d))
  }

  function Weeks(firstDay: nat, dayOfYear: int, dayOfWeek: int): int {
    if firstDay == 0 then (dayOfYear - dayOfWeek + 7) / 7
    else (dayOfYear - (dayOfWeek - 1 + 7) % 7 + 7) / 7
  }

  /** The residue modulo 7 that the closed form divides away is the same on all days of a year. */
  lemma WeekResidue(w: nat, a: int, b: int)
    requires w < 7
    ensures (b - a - DaysSince(w, (b + 4) % 7) + 7) % 7 == (w - a - 4) % 7
  {
    var dow, q := (b + 4) % 7, (b + 4) / 7;
    if dow >= w {
      SevensDropOut(q + 1, w - a - 4);
    } else {
      SevensDropOut(q, w - a - 4);
    }
  }

  lemma SevensDropOut(q: int, r: int)
    ensures (7 * q + r) % 7 == r % 7
  {
  }

  /**
   `week0` counts the Sundays, and `week1` the Mondays, of the year up to and including the day.
   That holds for every instant: in the year 0 the lost leap day never changes the week.
   */
  lemma WeekCounts(firstDay: nat, d: int)
    requires firstDay <= 1
    ensures WeekOf(firstDay, d) == CountWeekDays(firstDay, DayFromYear(Year(d)), Day(d))
  {
    hide DayOfYear, CountWeekDays, Year, Month, DayFromYear, IsLeap;
    var a, b := DayFromYear(Year(d)), Day(d);
    assert DayWithinYear(d) == b - a;
    CountClosed(firstDay, a, b);
    DayOfYearExact(d);
    var n := b - a - DaysSince(firstDay, (b + 4) % 7) + 7;
    assert WeekOf(firstDay, d) == (DayOfYear(d) - 1 - DaysSince(firstDay, (b + 4) % 7) + 7) / 7;
    if Year(d) == 0 && Month(d) >= 2 {
      YearZeroWeeks(firstDay, a, b);
    }
  }

  lemma YearZeroWeeks(w: nat, a: int, b: int)
    requires w <= 1 && a == DayFromYear(0)
    ensures var n := b - a - DaysSince(w, (b + 4) % 7) + 7; (n - 1) / 7 == n / 7
  {
    var n := b - a - DaysSince(w, (b + 4) % 7) + 7;
    WeekResidue(w, a, b);
    YearZeroStartsOnSaturday();
    SevensDropOut(-(a / 7), w - 6);
    assert n % 7 != 0 by {
      assert a % 7 == 2;
      assert w - a - 4 == 7 * -(a / 7) + (w - 6);
    }
    hide DaysSince;
    assert n == 7 * (n / 7) + n % 7;
  }

  // ----- weekdays

  /** How far `lastX` and `nextX` move. */
  function WeekDayDelta(next: bool, target: nat, current: nat): int {
    var delta := target - current;
    if next then (if delta < 0 then delta + 7 else delta)
    else if delta >= 0 then delta - 7 else delta
  }

  function WeekDayGetter(next: bool, target: nat, t: int, tz: int): int {
    Advance(NO_OPTS.(day := Some(WeekDayDelta(next, target, WeekDay(Local(t, tz))))), t, tz)
  }

  /** A whole number of days later, in the given direction, on the given weekday. */
  predicate IsWeekDayStep(next: bool, target: nat, t: int, tz: int, n: int) {
    (if next then 0 <= n <= 6 else -7 <= n <= -1) && WeekDay(Local(t, tz) + n * MS_PER_DAY) == target
  }

  lemma WeekDayAfter(d: int, n: int)
    ensures WeekDay(d + n * MS_PER_DAY) == (WeekDay(d) + n) % 7
  {
    assert Day(d + n * MS_PER_DAY) == Day(d) + n;
  }

  lemma WeekDayStepUnique(next: bool, target: nat, t: int, tz: int, n: int)
    requires target < 7
    ensures IsWeekDayStep(next, target, t, tz, n) <==> n == WeekDayDelta(next, target, WeekDay(Local(t, tz)))
  {
    WeekDayAfter(Local(t, tz), n);
  }

  /**
   `lastX` is the one instant 1 to 7 days earlier, and `nextX` the one instant 0 to 6 days later, whose
   local date falls on X; exactly outside the local years 0 to 99.
   */
  lemma WeekDayGetterExact(next: bool, target: nat, t: int, tz: int)
    requires target < 7
    ensures (exists n ::
               IsWeekDayStep(next, target, t, tz, n) && WeekDayGetter(next, target, t, tz) == t + n * MS_PER_DAY) <==>
            !TwoDigitYear(Year(Local(t, tz)))
    ensures forall m, n :: IsWeekDayStep(next, target, t, tz, m) && IsWeekDayStep(next, target, t, tz, n) ==> m == n
  {
    hide IsWeekDayStep, Advance, WeekDayDelta, Year, WeekDay, Local, Span, WeekDayGetter;
    var delta := WeekDayDelta(next, target, WeekDay(Local(t, tz)));
    WeekDayGetterMoves(next, target, t, tz);
    forall n
      ensures IsWeekDayStep(next, target, t, tz, n) <==> n == delta
    {
      WeekDayStepUnique(next, target, t, tz, n);
    }
    assert IsWeekDayStep(next, target, t, tz, delta);
  }

  lemma WeekDayGetterMoves(next: bool, target: nat, t: int, tz: int)
    requires target < 7
    ensures WeekDayGetter(next, target, t, tz) ==
            t + WeekDayDelta(next, target, WeekDay(Local(t, tz))) * MS_PER_DAY <==>
            !TwoDigitYear(Year(Local(t, tz)))
  {
    hide Advance, WeekDayDelta, Year, WeekDay, Local, TwoDigitYear;
    var delta := WeekDayDelta(next, target, WeekDay(Local(t, tz)));
    AdvanceExact(NO_OPTS.(day := Some(delta)), t, tz);
  }
}
