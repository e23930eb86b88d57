/** The date reader of the log-in page, which sets the fields of today's date one after the other. */
module AuthDate {
  import opened JsRuntime
  import opened JsDate
  import opened JsText
  import DateTimeMath
  import opened DateTimeFormat
  import opened DateTimeRoundTrip
  import opened DateTimeParse

  // ----- the setters of JavaScript dates

  function WithYear(t: int, y: int): int {
    MakeDate(MakeDay(y, Month(t), Date(t)), TimeWithinDay(t))
  }

  function WithMonth(t: int, m: int): int {
    MakeDate(MakeDay(Year(t), m, Date(t)), TimeWithinDay(t))
  }

  function WithDate(t: int, d: int): int {
    MakeDate(MakeDay(Year(t), Month(t), d), TimeWithinDay(t))
  }

  function WithHours(t: int, h: int): int {
    MakeDate(Day(t), MakeTime(h, Minutes(t), Seconds(t), Milliseconds(t)))
  }

  function WithMinutes(t: int, m: int): int {
    MakeDate(Day(t), MakeTime(Hours(t), m, Seconds(t), Milliseconds(t)))
  }

  function WithSeconds(t: int, s: int): int {
    MakeDate(Day(t), MakeTime(Hours(t), Minutes(t), s, Milliseconds(t)))
  }

  function WithMilliseconds(t: int, ms: int): int {
    MakeDate(Day(t), MakeTime(Hours(t), Minutes(t), Seconds(t), ms))
  }

  /** `ToInteger` */
  function Truncated(x: real): int {
    if x >= 0.0 then x.Floor else -((-x).Floor)
  }

  /** The whole number next to `x` on the side of zero. */
  lemma TruncatedIs(x: real)
    ensures x >= 0.0 ==> 0.0 <= Truncated(x) as real <= x < Truncated(x) as real + 1.0
    ensures x <= 0.0 ==> Truncated(x) as real - 1.0 < x <= Truncated(x) as real <= 0.0
  {
  }

  /** A setter on a time and a number, either of which may be NaN. */
  function Both(t: Option<int>, x: Option<real>, setter: (int, int) -> int): Option<int> {
    if t.Some? && x.Some? then Some(setter(t.value, Truncated(x.value))) else None
  }

  class DateObject {
    var time: Option<int>  // none in an invalid date

    constructor (now: int)
      ensures time == Some(now)
    {
      time := Some(now);
    }

    /** In an invalid date this one starts from the time 0. */
    method SetUTCFullYear(y: Option<real>)
      modifies this
      ensures time == Both(if old(time).None? then Some(0) else old(time), y, WithYear)
    {
      if time.None? { time := Some(0); }
      time := Both(time, y, WithYear);
    }

    method SetUTCMonth(m: Option<real>)
      modifies this
      ensures time == Both(old(time), m, WithMonth)
    {
      time := Both(time, m, WithMonth);
    }

    method SetUTCDate(d: Option<real>)
      modifies this
      ensures time == Both(old(time), d, WithDate)
    {
      time := Both(time, d, WithDate);
    }

    method SetUTCHours(h: Option<real>)
      modifies this
      ensures time == Both(old(time), h, WithHours)
    {
      time := Both(time, h, WithHours);
    }

    method SetUTCMinutes(m: Option<real>)
      modifies this
      ensures time == Both(old(time), m, WithMinutes)
    {
      time := Both(time, m, WithMinutes);
    }

    method SetUTCSeconds(s: Option<real>)
      modifies this
      ensures time == Both(old(time), s, WithSeconds)
    {
      time := Both(time, s, WithSeconds);
    }

    method SetUTCMilliseconds(ms: Option<real>)
      modifies this
      ensures time == Both(old(time), ms, WithMilliseconds)
    {
      time := Both(time, ms, WithMilliseconds);
    }
  }

  // ----- the date

  function DateSet(now: int, y: int, m: int, d: int): int {
    WithDate(WithMonth(WithYear(now, y), m), d)
  }

  /** The day of the month once the year is set: a leap day moves on to 1 March. */
  function KeptDate(now: int, y: int): int {
    if Month(now) == 1 && Date(now) == 29 && !IsLeap(y) then 1 else Date(now)
  }

  lemma MakeDateParts(day: int, time: nat)
    requires time < MS_PER_DAY
    ensures Day(MakeDate(day, time)) == day && TimeWithinDay(MakeDate(day, time)) == time
  {
  }

  /** A day past the end of a month is a day of the next one. */
  lemma PastTheMonth(y: int, m: nat, d: int)
    requires m < 12
    ensures MakeDay(y, m, d) == MakeDay(y, m + 1, d - DaysInMonth(m, IsLeap(y)))
  {
    hide DaysBeforeMonth, IsLeap, DayFromYear, DaysInMonth;
    MonthLength(m, IsLeap(y));
    assert m / 12 == 0 && m % 12 == m;
    if m == 11 {
      YearLength(y);
      YearMonths(y);
      YearMonths(y + 1);
      assert (m + 1) / 12 == 1 && (m + 1) % 12 == 0;
    }
  }

  lemma YearSet(now: int, y: int)
    ensures var t := WithYear(now, y);
            Year(t) == y && Date(t) == KeptDate(now, y) && TimeWithinDay(t) == TimeWithinDay(now)
  {
    hide Year, Month, Date, TimeWithinDay, Day, MakeDate, MakeDay, IsLeap;
    assert TimeWithinDay(now) < MS_PER_DAY by { InDay(now); }
    MakeDateParts(MakeDay(y, Month(now), Date(now)), TimeWithinDay(now));
    var m, d := Month(now), Date(now);
    if d <= DaysInMonth(m, IsLeap(y)) {
      DateFieldsUnique(WithYear(now, y), y, m, d);
    } else {
      PastTheMonth(y, m, d);
      DateFieldsUnique(WithYear(now, y), y, 2, 1);
    }
  }

  lemma InDay(t: int)
    ensures TimeWithinDay(t) < MS_PER_DAY
  {
  }

  lemma MonthSet(t: int, m: nat)
    requires m < 12
    ensures var u := WithMonth(t, m); var fits := Date(t) <= DaysInMonth(m, IsLeap(Year(t)));
            && Year(u) == Year(t) && TimeWithinDay(u) == TimeWithinDay(t)
            && Month(u) == if fits then m else m + 1
  {
    hide Year, Month, Date, TimeWithinDay, Day, MakeDate, MakeDay, IsLeap;
    InDay(t);
    MakeDateParts(MakeDay(Year(t), m, Date(t)), TimeWithinDay(t));
    var length := DaysInMonth(m, IsLeap(Year(t)));
    if Date(t) <= length {
      DateFieldsUnique(WithMonth(t, m), Year(t), m, Date(t));
    } else {
      PastTheMonth(Year(t), m, Date(t));
      DateFieldsUnique(WithMonth(t, m), Year(t), m + 1, Date(t) - length);
    }
  }

  lemma DaySet(t: int, d: int)
    ensures Day(WithDate(t, d)) == MakeDay(Year(t), Month(t), d) && TimeWithinDay(WithDate(t, d)) == TimeWithinDay(t)
  {
    hide Year, Month, Date, TimeWithinDay, Day, MakeDate, MakeDay;
    InDay(t);
    MakeDateParts(MakeDay(Year(t), Month(t), d), TimeWithinDay(t));
  }

  lemma MonthsApart(y: int, m: nat, d: int)
    requires m < 11
    ensures MakeDay(y, m, d) < MakeDay(y, m + 1, d)
  {
    hide DaysBeforeMonth, IsLeap, DayFromYear;
    MonthLength(m, IsLeap(y));
    assert m / 12 == 0 && m % 12 == m && (m + 1) / 12 == 0 && (m + 1) % 12 == m + 1;
  }

  /**
   Setting year, month and day in turn gives the date asked for exactly when the day that is there when
   the month is set exists in that month; otherwise the month is one too late.
   */
  lemma DateSetExactly(now: int, y: int, m: nat, d: int)
    requires m < 12
    ensures Day(DateSet(now, y, m, d)) == MakeDay(y, m, d) <==> KeptDate(now, y) <= DaysInMonth(m, IsLeap(y))
    ensures TimeWithinDay(DateSet(now, y, m, d)) == TimeWithinDay(now)
    ensures KeptDate(now, y) > DaysInMonth(m, IsLeap(y)) ==> Day(DateSet(now, y, m, d)) == MakeDay(y, m + 1, d)
  {
    hide Year, Month, Date, TimeWithinDay, Day, MakeDate, MakeDay, IsLeap, WithYear, WithMonth, WithDate, DaysInMonth;
    var t := WithYear(now, y);
    YearSet(now, y);
    MonthSet(t, m);
    DaySet(WithMonth(t, m), d);
    if KeptDate(now, y) > DaysInMonth(m, IsLeap(y)) {
      assert m < 11 by { KeptShort(now, y, m); }
      MonthsApart(y, m, d);
    }
  }

  lemma KeptShort(now: int, y: int, m: nat)
    requires m < 12 && KeptDate(now, y) > DaysInMonth(m, IsLeap(y))
    ensures m < 11
  {
    hide Date, Month;
  }

  // ----- the time of day

  function TimeSet(t: int, h: int, m: int, s: int, ms: Option<int>): int {
    var u := WithSeconds(WithMinutes(WithHours(t, h), m), s);
    if ms.Some? then WithMilliseconds(u, ms.value) else u
  }

  /** The milliseconds stay those of the current time if the text has no fraction. */
  lemma TimeSetTo(t: int, h: int, m: int, s: int, ms: Option<int>)
    requires IsTimeOfDay(h, m, s, DateTimeMath.Or(ms, Milliseconds(t)))
    ensures TimeSet(t, h, m, s, ms) == MakeDate(Day(t), MakeTime(h, m, s, DateTimeMath.Or(ms, Milliseconds(t))))
  {
    hide Hours, Minutes, Seconds, Milliseconds, Day, MakeDate, MakeTime;
    TimeFields(t);
    TimeFieldsUnique(Day(t), h, Minutes(t), Seconds(t), Milliseconds(t));
    TimeFieldsUnique(Day(t), h, m, Seconds(t), Milliseconds(t));
    TimeFieldsUnique(Day(t), h, m, s, Milliseconds(t));
  }

  function Read(now: int, y: int, m: int, d: int, h: int, min: int, s: int, ms: Option<int>): int {
    TimeSet(DateSet(now, y, m - 1, d), h, min, s, ms)
  }

  lemma SameTime(a: int, b: int)
    requires TimeWithinDay(a) == TimeWithinDay(b)
    ensures Milliseconds(a) == Milliseconds(b)
  {
  }

  /** Whether today's day of the month lets the reader get the month of `t` right. */
  predicate DayFits(now: int, t: int) {
    KeptDate(now, Year(t)) <= DaysInMonth(Month(t), IsLeap(Year(t)))
  }

  /**
   The fields of any instant give back that instant, up to the milliseconds where there are none, exactly on
   the days that fit.
   */
  lemma ReadExactly(now: int, t: int, fraction: bool)
    ensures Read(now, Year(t), Month(t) + 1, Date(t), Hours(t), Minutes(t), Seconds(t),
                 if fraction then Some(Milliseconds(t)) else None) ==
              (if fraction then t else t - t % 1000 + Milliseconds(now)) <==>
            DayFits(now, t)
  {
    hide Year, Month, Date, TimeWithinDay, Day, Hours, Minutes, Seconds, Milliseconds, MakeDay, IsLeap, DateSet,
         TimeSet, KeptDate, DaysInMonth;
    var u := DateSet(now, Year(t), Month(t), Date(t));
    var ms := if fraction then Some(Milliseconds(t)) else None;
    DateSetExactly(now, Year(t), Month(t), Date(t));
    SameTime(u, now);
    TimeFields(t);
    TimeFields(now);
    TimeSetTo(u, Hours(t), Minutes(t), Seconds(t), ms);
    DayFields(t);
    TimeSplit(t);
  }

  /** Up to the 28th, every month fits. */
  lemma EarlyDaysFit(now: int, t: int)
    requires Date(now) <= 28
    ensures DayFits(now, t)
  {
    hide Date, Month, Year;
  }

  // ----- the text

  predicate IsNumber(s: string) {
    s != "" && AllDigits(s)
  }

  /** The pieces of a timestamp, where it has them all. */
  datatype Pieces = Pieces(year: string, month: string, day: string, hour: string, minute: string, second: string,
                           fraction: Option<string>)

  function PiecesOf(str: string): Option<Pieces> {
    var parts := Split(str, 'T');
    if |parts| < 2 then None
    else
      var date, time := Split(parts[0], '-'), Split(Split(parts[1], 'Z')[0], ':');
      if |date| < 3 || |time| < 3 then None
      else
        var sec := Split(time[2], '.');
        Some(Pieces(date[0], date[1], date[2], time[0], time[1], sec[0], if |sec| > 1 && sec[1] != "" then Some(sec[1])
                    else None))
  }

  /** A timestamp of numbers, as the page assumes. */
  predicate IsTimestamp(str: string) {
    var p := PiecesOf(str);
    && p.Some? && IsNumber(p.value.year) && IsNumber(p.value.month) && IsNumber(p.value.day)
    && IsNumber(p.value.hour) && IsNumber(p.value.minute) && IsNumber(p.value.second)
    && (p.value.fraction.Some? ==> IsNumber(p.value.fraction.value))
  }

  function ReadPieces(now: int, p: Pieces): int
    requires IsNumber(p.year) && IsNumber(p.month) && IsNumber(p.day) && IsNumber(p.hour) && IsNumber(p.minute) &&
             IsNumber(p.second)
    requires p.fraction.Some? ==> IsNumber(p.fraction.value)
  {
    Read(now, ParseNat(p.year), ParseNat(p.month), ParseNat(p.day), ParseNat(p.hour), ParseNat(p.minute),
         ParseNat(p.second),
         if p.fraction.Some? then Some(ParseNat(p.fraction.value)) else None)
  }

  /** What `Number` gives for a text, if that is finite. */
  type Numbers = string -> Option<real>

  ghost predicate ReadsDigits(number: Numbers) {
    forall s :: IsNumber(s) ==> number(s) == Some(ParseNat(s) as real)
  }

  /** `Number` of an entry of an array, which may not be there. */
  function NumberAt(number: Numbers, list: seq<string>, i: nat): Option<real> {
    if i < |list| then number(list[i]) else None
  }

  function Less(x: Option<real>, y: real): Option<real> {
    if x.Some? then Some(x.value - y) else None
  }

  /** Texts on which the page throws: without a `T`, or without a second. */
  predicate Unreadable(str: string) {
    var parts := Split(str, 'T');
    |parts| < 2 || |Split(Split(parts[1], 'Z')[0], ':')| < 3
  }

  predicate AllFinite(number: Numbers, p: Pieces) {
    && number(p.year).Some? && number(p.month).Some? && number(p.day).Some?
    && number(p.hour).Some? && number(p.minute).Some? && number(p.second).Some?
    && (p.fraction.Some? ==> number(p.fraction.value).Some?)
  }

  /** The time that is read: none if a piece is missing or is no number. */
  function TimeRead(number: Numbers, now: int, p: Option<Pieces>): Option<int> {
    if p.None? || !AllFinite(number, p.value) then None
    else
      var q := p.value;
      var whole := (s: string) => if number(s).Some? then Truncated(number(s).value) else 0;
      Some(Read(now, whole(q.year), Truncated(number(q.month).value - 1.0) + 1, whole(q.day), whole(q.hour),
                whole(q.minute), whole(q.second),
                if q.fraction.Some? then Some(whole(q.fraction.value)) else None))
  }

  lemma TimestampRead(number: Numbers, now: int, str: string)
    requires ReadsDigits(number) && IsTimestamp(str)
    ensures !Unreadable(str) && TimeRead(number, now, PiecesOf(str)) == Some(ReadPieces(now, PiecesOf(str).value))
  {
    hide Split, ParseNat, AllDigits, Read;
  }

  /** One setter after the other. */
  function Setters(number: Numbers, now: int, date: seq<string>, time: seq<string>, sec: seq<string>): Option<int> {
    var t1 := Both(Some(now), NumberAt(number, date, 0), WithYear);
    var t2 := Both(t1, Less(NumberAt(number, date, 1), 1.0), WithMonth);
    var t3 := Both(t2, NumberAt(number, date, 2), WithDate);
    var t4 := Both(t3, NumberAt(number, time, 0), WithHours);
    var t5 := Both(t4, NumberAt(number, time, 1), WithMinutes);
    var t6 := Both(t5, NumberAt(number, sec, 0), WithSeconds);
    if |sec| > 1 && sec[1] != "" then Both(t6, NumberAt(number, sec, 1), WithMilliseconds) else t6
  }

  lemma SettersRead(number: Numbers, now: int, str: string)
    requires !Unreadable(str)
    ensures var parts := Split(str, 'T');
            var time := Split(Split(parts[1], 'Z')[0], ':');
            Setters(number, now, Split(parts[0], '-'), time, Split(time[2], '.')) ==
            TimeRead(number, now, PiecesOf(str))
  {
    hide WithYear, WithMonth, WithDate, WithHours, WithMinutes, WithSeconds, WithMilliseconds, Split, Truncated;
  }

  /**
   `Auth.parseISO8601`: null where it throws.  The date is invalid if a piece is missing or is no number, and
   otherwise has the fields that were read; for a timestamp of digits these are its own.
   */
  method ParseISO8601(str: string, now: int, number: Numbers) returns (date: DateObject?)
    ensures date == null <==> Unreadable(str)
    ensures date != null ==> fresh(date) && date.time == TimeRead(number, now, PiecesOf(str))
    ensures ReadsDigits(number) && IsTimestamp(str) ==>
            date != null && date.time == Some(ReadPieces(now, PiecesOf(str).value))
  {
    hide WithYear, WithMonth, WithDate, WithHours, WithMinutes, WithSeconds, WithMilliseconds, Split, Both, NumberAt,
         Less, TimeRead, PiecesOf, IsTimestamp, ReadsDigits, ReadPieces;
    if ReadsDigits(number) && IsTimestamp(str) {
      TimestampRead(number, now, str);
    }
    var parts := Split(str, 'T');
    var dateParts := Split(parts[0], '-');
    if |parts| < 2 { return null; }
    var timeParts := Split(parts[1], 'Z');
    var timeSubParts := Split(timeParts[0], ':');
    if |timeSubParts| < 3 { return null; }
    var timeSecParts := Split(timeSubParts[2], '.');
    SettersRead(number, now, str);
    date := new DateObject(now);
    date.SetUTCFullYear(NumberAt(number, dateParts, 0));
    date.SetUTCMonth(Less(NumberAt(number, dateParts, 1), 1.0));
    date.SetUTCDate(NumberAt(number, dateParts, 2));
    date.SetUTCHours(NumberAt(number, timeSubParts, 0));
    date.SetUTCMinutes(NumberAt(number, timeSubParts, 1));
    date.SetUTCSeconds(NumberAt(number, timeSecParts, 0));
    if |timeSecParts| > 1 && timeSecParts[1] != "" {
      date.SetUTCMilliseconds(NumberAt(number, timeSecParts, 1));
    }
  }

  // ----- both readers on the same text

  lemma NoSeparators(s: string)
    requires AllDigits(s)
    ensures 'T' !in s && 'Z' !in s && '-' !in s && ':' !in s && '.' !in s
  {
  }

  /** The seconds, with or without a fraction. */
  function SecondText(s: string, f: Option<string>): string {
    if f.Some? then s + "." + f.value else s
  }

  function Timestamp(p: Pieces): string {
    p.year + "-" + p.month + "-" + p.day + "T" +
    (p.hour + ":" + p.minute + ":" + SecondText(p.second, p.fraction) + "Z")
  }

  predicate AllNumbers(p: Pieces) {
    && IsNumber(p.year) && IsNumber(p.month) && IsNumber(p.day) && IsNumber(p.hour) && IsNumber(p.minute) &&
        IsNumber(p.second)
    && (p.fraction.Some? ==> IsNumber(p.fraction.value))
  }

  lemma ThreePieces(a: string, b: string, d: string, c: char)
    requires c !in a && c !in b && c !in d
    ensures Split(a + [c] + b + [c] + d, c) == [a, b, d]
  {
    assert a + [c] + b + [c] + d == a + [c] + (b + [c] + d);
    SplitFirst(a, c, b + [c] + d);
    SplitFirst(b, c, d);
    SplitNone(d, c);
  }

  lemma SecondPieces(s: string, f: Option<string>)
    requires IsNumber(s) && (f.Some? ==> IsNumber(f.value))
    ensures Split(SecondText(s, f), '.') == if f.Some? then [s, f.value] else [s]
    ensures 'T' !in SecondText(s, f) && 'Z' !in SecondText(s, f) && ':' !in SecondText(s, f)
  {
    NoSeparators(s);
    if f.Some? {
      NoSeparators(f.value);
      SplitFirst(s, '.', f.value);
      SplitNone(f.value, '.');
    } else {
      SplitNone(s, '.');
    }
  }

  /** Taking a timestamp apart. */
  lemma PiecesOfTimestamp(p: Pieces)
    requires AllNumbers(p)
    ensures PiecesOf(Timestamp(p)) == Some(p)
  {
    hide Split, AllDigits, SecondText;
    NoSeparators(p.year);
    NoSeparators(p.month);
    NoSeparators(p.day);
    NoSeparators(p.hour);
    NoSeparators(p.minute);
    SecondPieces(p.second, p.fraction);
    var date := p.year + "-" + p.month + "-" + p.day;
    var clock := p.hour + ":" + p.minute + ":" + SecondText(p.second, p.fraction);
    ThreePieces(p.year, p.month, p.day, '-');
    ThreePieces(p.hour, p.minute, SecondText(p.second, p.fraction), ':');
    assert Timestamp(p) == date + "T" + (clock + "Z" + "");
    SplitFirst(date, 'T', clock + "Z" + "");
    SplitNone(clock + "Z" + "", 'T');
    SplitFirst(clock, 'Z', "");
  }

  function UtcPieces(names: Names, t: int, fraction: bool): Pieces
    requires names.Complete()
  {
    Pieces(DirectiveText(names, 'Y', t, 0), DirectiveText(names, 'm', t, 0), DirectiveText(names, 'd', t, 0),
           DirectiveText(names, 'H', t, 0), DirectiveText(names, 'M', t, 0), DirectiveText(names, 'S', t, 0),
           if fraction then Some(DirectiveText(names, 's', t, 0)) else None)
  }

  lemma UtcNumbers(names: Names, t: int, fraction: bool)
    requires names.Complete() && 1000 <= Year(t) <= 9999
    ensures var p := UtcPieces(names, t, fraction);
            && AllNumbers(p)
            && ParseNat(p.year) == Year(t) && ParseNat(p.month) == Month(t) + 1 && ParseNat(p.day) == Date(t)
            && ParseNat(p.hour) == Hours(t) && ParseNat(p.minute) == Minutes(t) && ParseNat(p.second) == Seconds(t)
            && (fraction ==> ParseNat(p.fraction.value) == Milliseconds(t))
  {
    hide DirectiveText, ParseNat, AllDigits, Year, Month, Date, Hours, Minutes, Seconds, Milliseconds;
    DigitsFor(names, 'Y', t, 0);
    DigitsFor(names, 'm', t, 0);
    DigitsFor(names, 'd', t, 0);
    DigitsFor(names, 'H', t, 0);
    DigitsFor(names, 'M', t, 0);
    DigitsFor(names, 'S', t, 0);
    DigitsFor(names, 's', t, 0);
  }

  const UTC_SECOND_FORMAT := "%Y-%m-%dT%H:%M:%SZ"

  lemma TextOfParts(names: Names, t: int, fraction: bool)
    requires names.Complete()
    ensures AllText(names, ClientParts('T', if fraction then [Literal('.'), Directive('s'), Literal('Z')]
                                       else [Literal('Z')]), t, 0) ==
            Timestamp(UtcPieces(names, t, fraction))
  {
    hide DirectiveText, AllText;
    var p := UtcPieces(names, t, fraction);
    var ending := if fraction then [Literal('.'), Directive('s'), Literal('Z')] else [Literal('Z')];
    FiveParts(names, Directive('Y'), Literal('-'), Directive('m'), Literal('-'), Directive('d'), t, 0);
    FiveParts(names, Directive('H'), Literal(':'), Directive('M'), Literal(':'), Directive('S'), t, 0);
    EndingText(names, t);
    AllTextAppend(names, DateParts() + [Literal('T')] + ClockParts(), ending, t, 0);
    AllTextAppend(names, DateParts() + [Literal('T')], ClockParts(), t, 0);
    AllTextAppend(names, DateParts(), [Literal('T')], t, 0);
    if fraction {
      assert p.hour + ":" + p.minute + ":" + p.second + ("." + p.fraction.value + "Z") ==
             p.hour + ":" + p.minute + ":" + (p.second + "." + p.fraction.value) + "Z";
    }
  }

  lemma EndingText(names: Names, t: int)
    requires names.Complete()
    ensures AllText(names, [Literal('T')], t, 0) == "T" && AllText(names, [Literal('Z')], t, 0) == "Z"
    ensures AllText(names, [Literal('.'), Directive('s'), Literal('Z')], t, 0) ==
            "." + DirectiveText(names, 's', t, 0) + "Z"
  {
    hide DirectiveText;
  }

  lemma UtcText(names: Names, t: int)
    requires names.Complete()
    ensures Format(names, UTC_SERVER_FORMAT, t, 0) == Timestamp(UtcPieces(names, t, true))
    ensures Format(names, UTC_SECOND_FORMAT, t, 0) == Timestamp(UtcPieces(names, t, false))
  {
    hide Parts, AllText, Timestamp, UtcPieces;
    ClientFormats();
    ClientFormat('T', "Z");
    ZoneEnding();
    assert "%Y-%m-%d" + "T" + "%H:%M:%S" + "Z" == UTC_SECOND_FORMAT;
    TextOfParts(names, t, true);
    TextOfParts(names, t, false);
  }

  /**
   On a UTC timestamp the log-in page's reader agrees with `SC.DateTime.parse`, to the millisecond if
   there is a fraction and to the second if there is none, exactly on the days whose number the month
   of the timestamp has too.
   */
  lemma TwoReadersAgree(names: Names, t: int, fraction: bool, now: int, home: int)
    requires names.Complete() && 1000 <= Year(t) <= 9999
    ensures var text := Format(names, if fraction then UTC_SERVER_FORMAT else UTC_SECOND_FORMAT, t, 0);
            && IsTimestamp(text)
            && Parse(names, text, if fraction then SERVER_FORMAT else ISO8601, now, home) ==
                Some(Moment(if fraction then t else t - t % 1000, 0))
            && var wanted := if fraction then t else t - t % 1000 + Milliseconds(now);
               ReadPieces(now, PiecesOf(text).value) == wanted <==> DayFits(now, t)
  {
    hide Parse, Format, Parts, Year, Month, Date, Hours, Minutes, Seconds, Milliseconds, Read, DayFits, Timestamp,
         UtcPieces, ParseNat, PiecesOf, AllDigits;
    UtcText(names, t);
    UtcNumbers(names, t, fraction);
    var p := UtcPieces(names, t, fraction);
    PiecesOfTimestamp(p);
    assert p.fraction.Some? <==> fraction by { FractionKept(names, t, fraction); }
    ReadExactly(now, t, fraction);
    UtcParses(names, t, fraction, now, home);
  }

  lemma FractionKept(names: Names, t: int, fraction: bool)
    requires names.Complete()
    ensures UtcPieces(names, t, fraction).fraction.Some? <==> fraction
  {
  }

  lemma UtcParses(names: Names, t: int, fraction: bool, now: int, home: int)
    requires names.Complete() && 1000 <= Year(t) <= 9999
    ensures Parse(names, Format(names, if fraction then UTC_SERVER_FORMAT else UTC_SECOND_FORMAT, t, 0),
                  if fraction then SERVER_FORMAT else ISO8601, now, home) ==
            Some(Moment(if fraction then t else t - t % 1000, 0))
  {
    hide Parse, Format, Parts, Year, Mentions;
    assert DateTimeMath.Local(t, 0) == t;
    if fraction {
      ClientRoundTrips(names, t, 0, now, home);
    } else {
      ClientFormats();
      ClientFormat('T', "Z");
      ZoneEnding();
      assert "%Y-%m-%d" + "T" + "%H:%M:%S" + "Z" == UTC_SECOND_FORMAT;
      assert Mentions([Directive('Z')], "Z") && !Mentions([Directive('Z')], "p") &&
             !Mentions([Directive('Z')], "s") by { ZoneMentions(); }
      ClientRoundTrip(names, UTC_SECOND_FORMAT, ISO8601, 'T', [Literal('Z')], [Directive('Z')], t, 0, now, home);
    }
  }

  lemma ZoneMentions()
    ensures Mentions([Directive('Z')], "Z") && !Mentions([Directive('Z')], "p") && !Mentions([Directive('Z')], "s")
  {
  }
}
