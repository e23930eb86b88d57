/**
 The calculations of `SC.DateTime` as the class runs them: over one shared `_date` and `_tz`, which
 recursive calls move and have to put back.
 */
module DateTimeEngine {
  import opened JsRuntime
  import opened JsDate
  import opened DateTimeMath

  /** The property names that `_get` understands; `target` is the index of the weekday named, if any. */
  datatype Key =
    | MillisecondsKey
    | TimezoneKey
    | YearKey
    | MonthKey
    | DayKey
    | DayOfWeekKey
    | HourKey
    | MinuteKey
    | SecondKey
    | MillisecondKey
    | IsLeapYearKey
    | DaysInMonthKey
    | DayOfYearKey
    | WeekKey(firstDay: nat)
    | WeekDayKey(next: bool, target: Option<nat>)
    | UnknownKey

  datatype Got =
    | Num(n: int)
    | Flag(b: bool)
    | At(milliseconds: int, timezone: int)

  /** What the loop adds up that moves a date through the months `m` to 1, in zone `tz`. */
  function WalkMonths(d: int, tz: int, m: nat, days: int): int
    requires m <= 12
    decreases m
  {
    if m == 0 then days
    else
      var moved := ToMs(NO_OPTS.(month := Some(m)), d, tz, true);
      WalkMonths(moved, tz, m - 1, days + DaysInMonth(Month(moved), IsLeap(Year(moved))))
  }

  function WalkedDays(d: int, tz: int): int {
    var first := ToMs(NO_OPTS.(day := Some(1)), d, tz, true);
    WalkMonths(first, tz, Month(first), Date(d))
  }

  /** The keys that are read off a date, `tz` being the zone in which the date is moved. */
  function Calendar(key: Key, local: int, tz: int): Option<Got> {
    match key
    case YearKey => Some(Num(Year(local)))
    case MonthKey => Some(Num(Month(local) + 1))
    case DayKey => Some(Num(Date(local)))
    case DayOfWeekKey => Some(Num(WeekDay(local)))
    case HourKey => Some(Num(Hours(local)))
    case MinuteKey => Some(Num(Minutes(local)))
    case SecondKey => Some(Num(Seconds(local)))
    case MillisecondKey => Some(Num(Milliseconds(local)))
    case IsLeapYearKey => Some(Flag(IsLeap(Year(local))))
    case DaysInMonthKey => Some(Num(DaysInMonth(Month(local), IsLeap(Year(local)))))
    case DayOfYearKey => Some(Num(WalkedDays(local, tz)))
    case WeekKey(firstDay) => Some(Num(Weeks(firstDay, WalkedDays(local, tz) - 1, WeekDay(local))))
    case _ => None
  }

  /**
   Where `lastX` and `nextX` move to: the weekday is read in the zone given, the sum in that of the machine if
   none is.
   */
  function WeekDayMove(next: bool, target: nat, ms: int, zone: Option<int>, home: int): int {
    var delta := WeekDayDelta(next, target, WeekDay(Local(ms, Or(zone, 0))));
    ToMs(Advanced(NO_OPTS.(day := Some(delta)), ms, Or(zone, 0)), ms, Or(zone, home), false)
  }

  /**
   What a key means for the instant `ms`: `zone` is the offset asked for, `tz` the one that a result is
   labelled with, and `home` that of the machine.
   */
  function Answer(key: Key, ms: int, tz: int, zone: Option<int>, home: int): Option<Got> {
    match key
    case MillisecondsKey => Some(Num(ms))
    case TimezoneKey => Some(Num(tz))
    case WeekDayKey(next, target) => if target.Some? then Some(At(WeekDayMove(next, target.value, ms, zone, home), tz))
        else None
    case _ => Calendar(key, Local(ms, Or(zone, 0)), if zone.Some? then 0 else tz)
  }

  /** Moved in UTC, as for every date that has been shifted, the loop gives the day of the year. */
  lemma WalkedDaysIs(d: int)
    ensures WalkedDays(d, 0) == DayOfYear(d)
  {
    hide ToMs, Year, Month, Date;
    FirstOfMonth(d);
    var first := ToMs(NO_OPTS.(day := Some(1)), d, 0, true);
    WalkMonthsIs(first, FullYear(Year(d)), Month(first), Date(d));
  }

  lemma {:induction false} WalkMonthsIs(d: int, y: int, m: nat, days: int)
    requires m <= 12 && Year(d) == y && Date(d) == 1 && !TwoDigitYear(y)
    ensures WalkMonths(d, 0, m, days) == days + MonthSum(m, y)
    decreases m
  {
    hide ToMs, Year, Month, Date, DaysInMonth, IsLeap;
    if m > 0 {
      FirstOfOtherMonth(d, m);
      var moved := ToMs(NO_OPTS.(month := Some(m)), d, 0, true);
      WalkMonthsIs(moved, y, m - 1, days + DaysInMonth(Month(moved), IsLeap(Year(moved))));
    }
  }

  /** Asked for in a zone, as an instance asks, the answers are the calendar ones. */
  lemma AnswersInZone(ms: int, tz: int, zone: int, home: int)
    ensures Answer(DayOfYearKey, ms, tz, Some(zone), home) == Some(Num(DayOfYear(Local(ms, zone))))
    ensures forall w: nat :: Answer(WeekKey(w), ms, tz, Some(zone), home) == Some(Num(WeekOf(w, Local(ms, zone))))
    ensures forall next, x: nat ::
              Answer(WeekDayKey(next, Some(x)), ms, tz, Some(zone), home) ==
              Some(At(WeekDayGetter(next, x, ms, zone), tz))
  {
    hide ToMs, WalkedDays, DayOfYear, Advanced, WeekDayDelta, WeekDay, Weeks;
    WalkedDaysIs(Local(ms, zone));
  }

  function Rank(key: Key): nat {
    match key
    case WeekDayKey(_, _) => 6
    case WeekKey(_) => 4
    case DayOfYearKey => 3
    case DaysInMonthKey => 2
    case IsLeapYearKey => 1
    case _ => 0
  }

  /** Setting the day to 1, as the month-walking loop starts. */
  lemma FirstOfMonth(d: int)
    ensures var t := ToMs(NO_OPTS.(day := Some(1)), d, 0, true);
            Year(t) == FullYear(Year(d)) && Month(t) == Month(d) && Date(t) == 1
  {
    hide Year, Month, Date, Hours, Minutes, Seconds, Milliseconds, FullYear, MakeDay, MakeTime, MakeDate, IsTimeOfDay,
         DaysInMonth;
    TimeFields(d);
    FirstDay(FullYear(Year(d)), Month(d), Hours(d), Minutes(d), Seconds(d), Milliseconds(d));
  }

  lemma FirstDay(y: int, m: nat, h: int, min: int, s: int, ms: int)
    requires m < 12 && IsTimeOfDay(h, min, s, ms)
    ensures var t := MakeDate(MakeDay(y, m, 1), MakeTime(h, min, s, ms));
            Year(t) == y && Month(t) == m && Date(t) == 1
  {
    hide MakeDate, MakeTime, MakeDay, Year, Month, Date, IsTimeOfDay;
    TimeFieldsUnique(MakeDay(y, m, 1), h, min, s, ms);
    DateFieldsUnique(MakeDate(MakeDay(y, m, 1), MakeTime(h, min, s, ms)), y, m, 1);
  }

  /** Setting the month, counted from 1, as the loop goes on. */
  lemma FirstOfOtherMonth(d: int, m: nat)
    requires 1 <= m <= 12 && Date(d) == 1 && !TwoDigitYear(Year(d))
    ensures var t := ToMs(NO_OPTS.(month := Some(m)), d, 0, true);
            Year(t) == Year(d) && Month(t) == m - 1 && Date(t) == 1
  {
    hide Year, Month, Date, Hours, Minutes, Seconds, Milliseconds, MakeDay, MakeTime, MakeDate, IsTimeOfDay;
    TimeFields(d);
    FirstDay(Year(d), m - 1, Hours(d), Minutes(d), Seconds(d), Milliseconds(d));
  }

  class DateTimeClass {
    const timezone: int  // the offset of the machine
    var date: int
    var tz: int

    constructor (timezone: int, now: int)
      ensures this.timezone == timezone && date == now && tz == 0
    {
      this.timezone, date, tz := timezone, now, 0;
    }

    /** Moves the shared state where a value is given, and returns what it was. */
    method SetCalcState(ms: Option<int>, timezone: Option<int>) returns (milliseconds: int, zone: int)
      modifies `date, `tz
      ensures milliseconds == old(date) && zone == old(tz)
      ensures date == Or(ms, old(date)) && tz == Or(timezone, old(tz))
    {
      milliseconds, zone := date, tz;
      if ms.Some? { date := ms.value; }
      if timezone.Some? { tz := timezone.value; }
    }

    /** The instant with the given fields, the others taken from `start`, or from the shared date. */
    method ToMilliseconds(options: Opts, start: Option<int>, timezone: Option<int>,
                          resetCascadingly: bool) returns (ms: int)
      modifies `date
      ensures date == old(date)
      ensures ms == ToMs(options, Or(start, date), Or(timezone, this.timezone), resetCascadingly)
    {
      hide Year, Month, Date, Hours, Minutes, Seconds, Milliseconds, UTC;
      var opts := options;
      var previousMilliseconds := date;
      if start.Some? { date := start.value; }
      var zone := if timezone.Some? then timezone.value else this.timezone;
      date := date - zone * 60000;
      if resetCascadingly { opts := ResetSmaller(opts); }
      opts := FillIn(opts);
      ms := UTC(opts.year.value, opts.month.value - 1, opts.day.value,
                opts.hour.value, opts.minute.value, opts.second.value, opts.millisecond.value);
      date := ms + zone * 60000;
      ms := date;
      date := previousMilliseconds;
    }

    method ResetSmaller(options: Opts) returns (opts: Opts)
      ensures opts == Cascade(options)
    {
      opts := options;
      if opts.hour.Some? && opts.minute.None? { opts := opts.(minute := Some(0)); }
      if !(opts.hour.None? && opts.minute.None?) && opts.second.None? { opts := opts.(second := Some(0)); }
      if !(opts.hour.None? && opts.minute.None? && opts.second.None?) &&
          opts.millisecond.None? { opts := opts.(millisecond := Some(0)); }
    }

    /** The fields that are still open get their values in the shared date. */
    method FillIn(options: Opts) returns (opts: Opts)
      ensures opts == Opts(Some(Or(options.year, Year(date))), Some(Or(options.month, Month(date) + 1)),
                           Some(Or(options.day, Date(date))),
                           Some(Or(options.hour, Hours(date))), Some(Or(options.minute, Minutes(date))),
                           Some(Or(options.second, Seconds(date))), Some(Or(options.millisecond, Milliseconds(date))))
    {
      hide Year, Month, Date, Hours, Minutes, Seconds, Milliseconds;
      opts := options;
      if opts.year.None? { opts := opts.(year := Some(Year(date))); }
      if opts.month.None? { opts := opts.(month := Some(Month(date) + 1)); }
      if opts.day.None? { opts := opts.(day := Some(Date(date))); }
      if opts.hour.None? { opts := opts.(hour := Some(Hours(date))); }
      if opts.minute.None? { opts := opts.(minute := Some(Minutes(date))); }
      if opts.second.None? { opts := opts.(second := Some(Seconds(date))); }
      if opts.millisecond.None? { opts := opts.(millisecond := Some(Milliseconds(date))); }
    }

    /** Moves the shared state to the given fields; the class itself has no `_ms`, so the others stay. */
    method SetCalcStateFromHash(hash: Opts, timezone: Option<int>)
      modifies `date, `tz
      ensures tz == Or(timezone, old(tz))
      ensures date == ToMs(hash, old(date), Or(timezone, old(tz)), true)
    {
      hide ToMs;
      var zone := if timezone.Some? then timezone.value else tz;
      var ms := ToMilliseconds(hash, None, Some(zone), true);
      var _, _ := SetCalcState(Some(ms), Some(zone));
    }

    /** Whatever is asked and however deep the recursion, the shared state is back where it was. */
    method Get(key: Key, start: Option<int>, timezone: Option<int>) returns (v: Option<Got>)
      modifies `date, `tz
      ensures date == old(date) && tz == old(tz)
      ensures v == Answer(key, Or(start, date), Or(timezone, tz), timezone, this.timezone)
      decreases Rank(key), 3
    {
      hide WeekDayMove, WalkedDays, Year, Month, Date, WeekDay, Hours, Minutes, Seconds, Milliseconds, IsLeap,
           DaysInMonth, Weeks;
      var milliseconds, zone := SetCalcState(start, timezone);
      v := None;
      if key.MillisecondsKey? {
        v := Some(Num(date));
      } else if key.TimezoneKey? {
        v := Some(Num(tz));
      }
      if v.None? && key.WeekDayKey? {
        v := GetWeekDay(key.next, key.target, start, timezone);
      }
      if v.None? {
        if timezone.Some? {
          var _, _ := SetCalcState(Some(date - timezone.value * 60000), Some(0));
        }
        v := GetCalendar(key);
      }
      var _, _ := SetCalcState(Some(milliseconds), Some(zone));
    }

    /** `lastX` and `nextX`; leaves the shared state at the result. */
    method GetWeekDay(next: bool, target: Option<nat>, start: Option<int>,
                      timezone: Option<int>) returns (v: Option<Got>)
      requires Or(start, date) == date && Or(timezone, tz) == tz
      modifies `date, `tz
      ensures v == Answer(WeekDayKey(next, target), old(date), old(tz), timezone, this.timezone)
      ensures v.None? ==> date == old(date) && tz == old(tz)
      decreases 5, 3
    {
      hide ToMs, Advanced, WeekDay;
      var current := Get(DayOfWeekKey, start, timezone);
      if target.Some? {
        var delta := target.value - current.value.n;
        if !next && delta >= 0 { delta := delta - 7; }
        if next && delta < 0 { delta := delta + 7; }
        AdvanceBy(NO_OPTS.(day := Some(delta)), None, start, timezone);
        v := Some(At(date, tz));
      } else {
        v := None;
      }
    }

    /** Everything that is worked out from the shifted date alone. */
    method GetCalendar(key: Key) returns (v: Option<Got>)
      modifies `date, `tz
      ensures date == old(date) && tz == old(tz)
      ensures v == Calendar(key, date, tz)
      decreases Rank(key), 2
    {
      hide DaysInMonth, IsLeap, Year, Month, Date, WeekDay, Hours, Minutes, Seconds, Milliseconds, WalkedDays;
      match key {
        case YearKey => v := Some(Num(Year(date)));
        case MonthKey => v := Some(Num(Month(date) + 1));
        case DayKey => v := Some(Num(Date(date)));
        case DayOfWeekKey => v := Some(Num(WeekDay(date)));
        case HourKey => v := Some(Num(Hours(date)));
        case MinuteKey => v := Some(Num(Minutes(date)));
        case SecondKey => v := Some(Num(Seconds(date)));
        case MillisecondKey => v := Some(Num(Milliseconds(date)));
        case IsLeapYearKey => v := GetIsLeapYear();
        case DaysInMonthKey => v := GetDaysInMonth();
        case DayOfYearKey => v := GetDayOfYear();
        case WeekKey(firstDay) =>
          var dayOfWeek := Get(DayOfWeekKey, None, None);
          var dayOfYear := Get(DayOfYearKey, None, None);
          v := Some(Num(Weeks(firstDay, dayOfYear.value.n - 1, dayOfWeek.value.n)));
        case _ => v := None;
      }
    }

    method GetIsLeapYear() returns (v: Option<Got>)
      modifies `date, `tz
      ensures date == old(date) && tz == old(tz)
      ensures v == Calendar(IsLeapYearKey, date, tz)
      decreases 1, 1
    {
      hide Year;
      var year := Get(YearKey, None, None);
      var y := year.value.n;
      v := Some(Flag((y % 4 == 0 && y % 100 != 0) || y % 400 == 0));
    }

    method GetDaysInMonth() returns (v: Option<Got>)
      modifies `date, `tz
      ensures date == old(date) && tz == old(tz)
      ensures v == Calendar(DaysInMonthKey, date, tz)
      decreases 2, 1
    {
      hide Year, Month, IsLeap;
      var month := Get(MonthKey, None, None);
      match month.value.n {
        case 4 => v := Some(Num(30));
        case 6 => v := Some(Num(30));
        case 9 => v := Some(Num(30));
        case 11 => v := Some(Num(30));
        case 2 =>
          var leap := Get(IsLeapYearKey, None, None);
          v := Some(Num(if leap.value.b then 29 else 28));
        case _ => v := Some(Num(31));
      }
    }

    /** Adds up the months in front of the current one by moving the shared date through them. */
    method GetDayOfYear() returns (v: Option<Got>)
      modifies `date, `tz
      ensures date == old(date) && tz == old(tz)
      ensures v == Calendar(DayOfYearKey, date, tz)
      decreases 3, 1
    {
      hide ToMs, Year, Month, Date, DaysInMonth, IsLeap;
      var ms := date;
      var doy := Get(DayKey, None, None);
      var days := doy.value.n;
      SetCalcStateFromHash(NO_OPTS.(day := Some(1)), None);
      var month := Get(MonthKey, None, None);
      var m := month.value.n - 1;
      while m > 0
        invariant 0 <= m <= 12 && tz == old(tz)
        invariant WalkMonths(date, tz, m, days) == WalkedDays(ms, tz)
      {
        SetCalcStateFromHash(NO_OPTS.(month := Some(m)), None);
        var length := Get(DaysInMonthKey, None, None);
        days := days + length.value.n;
        m := m - 1;
      }
      date := ms;
      v := Some(Num(days));
    }

    /** Moves the shared state to where the options say. */
    method Adjust(options: Opts, start: Option<int>, timezone: Option<int>, resetCascadingly: bool)
      modifies `date, `tz
      ensures date == ToMs(options, Or(start, old(date)), Or(timezone, this.timezone), resetCascadingly)
      ensures tz == Or(timezone, old(tz))
    {
      hide ToMs;
      var ms := ToMilliseconds(options, start, timezone, resetCascadingly);
      var _, _ := SetCalcState(Some(ms), timezone);
    }

    method AddCurrent(key: Key, delta: Option<int>, start: Option<int>,
                      timezone: Option<int>) returns (sum: Option<int>)
      requires Rank(key) == 0 && Calendar(key, 0, 0).Some?
      modifies `date, `tz
      ensures date == old(date) && tz == old(tz)
      ensures var v := Calendar(key, Local(Or(start, date), Or(timezone, 0)), 0);
              v.Some? && v.value.Num? && sum == Plus(delta, v.value.n)
      decreases 5, 1
    {
      hide Year, Month, Date, Hours, Minutes, Seconds, Milliseconds, WeekDay;
      if delta.Some? {
        var v := Get(key, start, timezone);
        sum := Some(delta.value + v.value.n);
      } else {
        sum := None;
      }
    }

    /**
     Moves the shared state on: each field given is added to its current value in the old zone, and the
     sum is read in the new one.
     */
    method AdvanceBy(options: Opts, timezoneDelta: Option<int>, start: Option<int>, timezone: Option<int>)
      modifies `date, `tz
      ensures tz == Or(timezone, old(tz)) + Or(timezoneDelta, 0)
      ensures var zone := if timezoneDelta.Some? then tz else Or(timezone, this.timezone);
              date == ToMs(Advanced(options, Or(start, old(date)), Or(timezone, 0)), Or(start, old(date)), zone, false)
      decreases 5, 2
    {
      hide ToMs, Year, Month, Date, Hours, Minutes, Seconds, Milliseconds;
      var opts := options;
      var zone := timezone;
      var year := AddCurrent(YearKey, opts.year, start, timezone);
      var month := AddCurrent(MonthKey, opts.month, start, timezone);
      var day := AddCurrent(DayKey, opts.day, start, timezone);
      var hour := AddCurrent(HourKey, opts.hour, start, timezone);
      var minute := AddCurrent(MinuteKey, opts.minute, start, timezone);
      var second := AddCurrent(SecondKey, opts.second, start, timezone);
      var millisecond := AddCurrent(MillisecondKey, opts.millisecond, start, timezone);
      opts := Opts(year, month, day, hour, minute, second, millisecond);
      if timezoneDelta.Some? {
        var v := Get(TimezoneKey, start, timezone);
        zone := Some(timezoneDelta.value + v.value.n);
      }
      Adjust(opts, start, zone, false);
    }
  }
}
