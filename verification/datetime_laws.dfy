/**
 What dates and their texts are, told by other means than they are computed: where the clock of a zone stands, which
 fields an instant has once they are set, what the week directives count, and the texts of one instant in full.
 */
module DateTimeLaws {
  import opened JsRuntime
  import opened JsDate
  import opened JsText
  import opened DateTimeMath
  import opened DateTimeFormat
  import opened DateTimeRoundTrip
  import DateTimeParse

  // ----- zones and fields

  /** UTC shows the instant itself, and a zone `n` minutes further east shows a clock that is `n` minutes ahead. */
  lemma EastIsAhead(t: int, tz: int, n: int)
    ensures Local(t, 0) == t && Local(t, tz - n) == Local(t, tz) + n * 60 * 1000
  {
  }

  /** Of the time units not given, those smaller than one that is given are zero, and the others stay open. */
  lemma SmallerAreZero(o: Opts)
    ensures var p := Cascade(o);
            && p.year == o.year && p.month == o.month && p.day == o.day && p.hour == o.hour
            && p.minute == (if o.minute.None? && o.hour.Some? then Some(0) else o.minute)
            && p.second == (if o.second.None? && (o.hour.Some? || o.minute.Some?) then Some(0) else o.second)
            && p.millisecond == if o.millisecond.None? && (o.hour.Some? || o.minute.Some? || o.second.Some?) then
                Some(0)
                                else o.millisecond
  {
  }

  /** The fields that an instant is to have: those given, and for the others its own. */
  function Wanted(o: Opts, d: int): Opts {
    Opts(Some(Or(o.year, Year(d))), Some(Or(o.month, Month(d) + 1)), Some(Or(o.day, Date(d))),
         Some(Or(o.hour, Hours(d))), Some(Or(o.minute, Minutes(d))), Some(Or(o.second, Seconds(d))),
         Some(Or(o.millisecond, Milliseconds(d))))
  }

  predicate IsDate(x: Opts) {
    && x.year.Some? && x.month.Some? && x.day.Some? && x.hour.Some? && x.minute.Some? && x.second.Some?
    && x.millisecond.Some?
    && 1 <= x.month.value <= 12 && 1 <= x.day.value <= DaysInMonth(x.month.value - 1, IsLeap(x.year.value))
    && IsTimeOfDay(x.hour.value, x.minute.value, x.second.value, x.millisecond.value)
  }

  /**
   Setting fields of an instant gives, in the zone asked for, the clock and calendar with exactly these fields,
       as long as
   there is such a date and its year is none of the years 0 to 99.
   */
  lemma FieldsSet(o: Opts, start: int, tz: int)
    requires var x := Wanted(o, Local(start, tz)); IsDate(x) && !TwoDigitYear(x.year.value)
    ensures var x, d := Wanted(o, Local(start, tz)), Local(ToMs(o, start, tz, false), tz);
            && Year(d) == x.year.value && Month(d) == x.month.value - 1 && Date(d) == x.day.value
            && Hours(d) == x.hour.value && Minutes(d) == x.minute.value && Seconds(d) == x.second.value
            && Milliseconds(d) == x.millisecond.value
  {
    hide Year, Month, Date, Hours, Minutes, Seconds, Milliseconds, MakeDay, MakeTime, MakeDate, IsTimeOfDay,
         DaysInMonth,
         IsLeap, Day;
    var x, d := Wanted(o, Local(start, tz)), Local(ToMs(o, start, tz, false), tz);
    var y, m, day := x.year.value, x.month.value - 1, x.day.value;
    assert d == MakeDate(MakeDay(y, m, day),
                         MakeTime(x.hour.value, x.minute.value, x.second.value, x.millisecond.value));
    TimeFieldsUnique(MakeDay(y, m, day), x.hour.value, x.minute.value, x.second.value, x.millisecond.value);
    DateFieldsUnique(d, y, m, day);
  }

  // ----- numbers shown

  /** A 12-hour clock shows 1 to 12, and the same position of the hand. */
  lemma TwelveHourIs(h: nat)
    requires h < 24
    ensures 1 <= TwelveHour(h) <= 12 && (TwelveHour(h) - h) % 12 == 0
  {
  }

  /** The year without its centuries, on the same side of zero. */
  lemma Rem100Is(y: int)
    ensures -100 < Rem100(y) < 100 && (y - Rem100(y)) % 100 == 0 && (Rem100(y) < 0 ==> y < 0) &&
            (Rem100(y) > 0 ==> y > 0)
  {
    if y < 0 {
      assert -y == 100 * (-y / 100) + -y % 100;
      assert y - Rem100(y) == 100 * -(-y / 100);
    }
  }

  /**
   `%j` shows the day of the year, `%U` the number of Sundays and `%W` that of Mondays so far in the year, each in
   digits that read back as that number, and `%w` the weekday from Sunday, 0.
   */
  lemma CountsShown(names: Names, local: int, tz: int)
    requires names.Complete()
    ensures var first, today := DayFromYear(Year(local)), Day(local);
            && DirectiveText(names, 'w', local, tz) == [DigitChar(WeekDay(local))]
            && Shows(DirectiveText(names, 'U', local, tz), 2, CountWeekDays(0, first, today))
            && Shows(DirectiveText(names, 'W', local, tz), 2, CountWeekDays(1, first, today))
            && (!(Year(local) == 0 && Month(local) >= 2) ==>
                  Shows(DirectiveText(names, 'j', local, tz), 3, today - first + 1))
  {
    hide Year, Month, DayOfYear, WeekOf, CountWeekDays, DayFromYear, Padded, IntText, AllDigits, ParseNat, WeekDay;
    var first, today := DayFromYear(Year(local)), Day(local);
    WeekCounts(0, local);
    WeekCounts(1, local);
    DayOfYearExact(local);
    assert DayWithinYear(local) == today - first < DaysInYear(Year(local)) <= 366;
    FewWeeks(0, first, today);
    FewWeeks(1, first, today);
    PaddedNumber(CountWeekDays(0, first, today), 2);
    PaddedNumber(CountWeekDays(1, first, today), 2);
    if !(Year(local) == 0 && Month(local) >= 2) {
      PaddedNumber(today - first + 1, 3);
    }
    OneDigit(WeekDay(local));
    assert WeekDay(local) < 7 by { Ranges(local); }
  }

  predicate Shows(text: string, width: nat, n: nat) {
    |text| == width && AllDigits(text) && ParseNat(text) == n
  }

  lemma FewWeeks(w: nat, a: int, b: int)
    requires w < 7 && a <= b < a + 366
    ensures CountWeekDays(w, a, b) <= 53
  {
    CountClosed(w, a, b);
    assert 0 <= DaysSince(w, (b + 4) % 7) <= 6;
  }

  lemma OneDigit(n: nat)
    ensures n < 10 ==> IntText(n) == [DigitChar(n)]
  {
  }

  // ----- what is read

  /** The text has `str` at a location. */
  predicate StandsAt(s: string, loc: nat, str: string) {
    loc + |str| <= |s| && s[loc..loc + |str|] == str
  }

  /** A literal is skipped exactly where it stands. */
  lemma SkipExactly(s: string, loc: nat, str: string)
    requires str != ""
    ensures SkipString(s, loc, str) == if StandsAt(s, loc, str) then Some(loc + |str|) else None
  {
  }

  /** A number is read exactly if there are enough digits, and then as far as they go, but no further than allowed. */
  lemma NumberExactly(s: string, loc: nat, minLen: nat, maxLen: nat)
    requires 0 < minLen <= maxLen
    ensures var r := ScanInt(s, loc, minLen, maxLen);
            && (r.Some? <==> loc + minLen <= |s| && AllDigits(s[loc..loc + minLen]))
            && (r.Some? ==>
                  && loc + minLen <= r.value.loc <= loc + maxLen && r.value.loc <= |s|
                  && AllDigits(s[loc..r.value.loc]) && r.value.value == ParseNat(s[loc..r.value.loc])
                  && (r.value.loc == loc + maxLen || r.value.loc == |s| || !IsDigit(s[r.value.loc])))
  {
    hide ParseNat, IsDigit;
    var str := Substr(s, loc, maxLen);
    var k := DigitRun(str);
    if loc < |s| {
      assert str == s[loc..loc + |str|];
      assert str[..k] == s[loc..loc + k];
      if minLen <= |str| {
        assert str[..minLen] == s[loc..loc + minLen];
        if k < minLen {
          assert s[loc..loc + minLen][k] == str[k];
        }
      }
    }
  }

  /** Of some names the first one that stands there is read. */
  lemma {:induction false} NameExactly(s: string, loc: nat, ary: seq<string>, i: nat)
    requires i <= |ary| && forall j :: 0 <= j < |ary| ==> ary[j] != ""
    ensures var r := ScanArray(s, loc, ary, i);
            && (r.Some? ==> i <= r.value.value < |ary| && StandsAt(s, loc, ary[r.value.value]) &&
                            r.value.loc == loc + |ary[r.value.value]|)
            && forall j :: i <= j < (if r.Some? then r.value.value else |ary|) ==> !StandsAt(s, loc, ary[j])
    decreases |ary| - i
  {
    hide StandsAt;
    if i < |ary| {
      assert Substr(s, loc, |ary[i]|) == ary[i] <==> StandsAt(s, loc, ary[i]) by { Standing(s, loc, ary[i]); }
      NameExactly(s, loc, ary, i + 1);
    }
  }

  lemma Standing(s: string, loc: nat, str: string)
    requires str != ""
    ensures Substr(s, loc, |str|) == str <==> StandsAt(s, loc, str)
  {
  }

  /** The hours and minutes of an offset may stand without a colon between them. */
  lemma ColonOptional(pre: string, size: nat, rest: string)
    requires size < 6000
    ensures var text := Padded(IntText(size / 60), 2) + Padded(IntText(size % 60), 2);
            ScanOffset(pre + text + rest, |pre|) == Some(Scan(size, |pre| + 4))
  {
    hide Padded, IntText, ScanInt, ParseNat, IsDigit;
    var h, m := Padded(IntText(size / 60), 2), Padded(IntText(size % 60), 2);
    PaddedNumber(size / 60, 2);
    PaddedNumber(size % 60, 2);
    var s := pre + (h + m) + rest;
    assert s == pre + h + (m + rest) && s == (pre + h) + m + rest;
    ScanIntReads(pre, h, m + rest, 2, 2);
    SubstrMiddle(pre + h, m, rest, 1);
    assert !IsDigit(':') by { ColonIsNoDigit(); }
    assert m[..1][0] == m[0] && IsDigit(m[0]);
    ScanIntReads(pre + h, m, rest, 2, 2);
    assert size / 60 * 60 + size % 60 == size;
  }

  lemma ColonIsNoDigit()
    ensures !IsDigit(':')
  {
  }

  /** Two digits stand for a year of 1971 to 2070. */
  lemma CenturyIs(y: nat)
    requires y < 100
    ensures 1971 <= Century(y) <= 2070 && Century(y) % 100 == y
  {
  }

  /** A line end in a format is matched with nothing, and everything else is matched. */
  lemma {:induction false} LineEndsSkipped(a: seq<Part>, part: Part, b: seq<Part>)
    ensures ParserParts(a + [part] + b) ==
            if part in [Literal('\n'), Literal('\r'), Literal('\U{2028}'), Literal('\U{2029}')] then ParserParts(a + b)
            else ParserParts(a) + [part] + ParserParts(b)
    decreases |a|
  {
    var ps := a + [part] + b;
    if a == [] {
      assert ps[1..] == b && a + b == b;
    } else {
      assert ps[1..] == a[1..] + [part] + b && (a + b)[1..] == a[1..] + b;
      LineEndsSkipped(a[1..], part, b);
    }
  }

  // ----- one instant in full

  /** 3:05:09.042 UTC on 7 August 2011, a Sunday, ten hours further east. */
  const KNOWN := 1312686309042
  const KNOWN_ZONE := -600

  lemma KnownDay()
    ensures !IsLeap(2011) && MakeDay(2011, 7, 7) == 15193 && DayFromYear(2011) == 14975
    ensures Local(KNOWN, KNOWN_ZONE) == MakeDate(15193, MakeTime(13, 5, 9, 42)) && IsTimeOfDay(13, 5, 9, 42)
  {
  }

  lemma KnownFields()
    ensures var d := Local(KNOWN, KNOWN_ZONE);
            && Year(d) == 2011 && Month(d) == 7 && Date(d) == 7 && WeekDay(d) == 0
            && Hours(d) == 13 && Minutes(d) == 5 && Seconds(d) == 9 && Milliseconds(d) == 42
            && DayWithinYear(d) == 218
  {
    hide MakeDay, MakeTime, MakeDate, DayFromYear, IsLeap, Year, Month, Date, Hours, Minutes, Seconds, Milliseconds,
         Day,
         IsTimeOfDay, Local;
    KnownDay();
    TimeFieldsUnique(15193, 13, 5, 9, 42);
    DateFieldsUnique(Local(KNOWN, KNOWN_ZONE), 2011, 7, 7);
  }

  lemma SmallTexts(n: nat)
    requires n < 1000
    ensures n < 10 ==> Padded(IntText(n), 2) == ['0', DigitChar(n)] && Padded(IntText(n), 3) == ['0', '0', DigitChar(n)]
    ensures 10 <= n < 100 ==>
              Padded(IntText(n), 2) == [DigitChar(n / 10), DigitChar(n % 10)] &&
              Padded(IntText(n), 3) == ['0', DigitChar(n / 10), DigitChar(n % 10)]
    ensures 100 <= n ==> Padded(IntText(n), 3) == [DigitChar(n / 100), DigitChar(n / 10 % 10), DigitChar(n % 10)]
  {
    assert Zeros(0) == "" && Zeros(1) == "0" && Zeros(2) == "00";
    if n >= 100 {
      assert NatText(n / 10) == NatText(n / 100) + [DigitChar(n / 10 % 10)];
    }
  }

  lemma DateTexts(names: Names, d: int, tz: int)
    requires names.Complete()
    ensures DirectiveText(names, 'Y', d, tz) == IntText(Year(d)) &&
            DirectiveText(names, 'm', d, tz) == Padded(IntText(Month(d) + 1), 2) &&
            DirectiveText(names, 'd', d, tz) == Padded(IntText(Date(d)), 2)
  {
    hide Year, Month, Date, IntText, Padded;
  }

  lemma TimeTexts(names: Names, d: int, tz: int)
    requires names.Complete()
    ensures DirectiveText(names, 'h', d, tz) == IntText(Hours(d)) &&
            DirectiveText(names, 'H', d, tz) == Padded(IntText(Hours(d)), 2) &&
            DirectiveText(names, 'i', d, tz) == IntText(TwelveHour(Hours(d))) &&
            DirectiveText(names, 'I', d, tz) == Padded(IntText(TwelveHour(Hours(d))), 2) &&
            DirectiveText(names, 'p', d, tz) == if Hours(d) < 12 then "AM" else "PM"
    ensures DirectiveText(names, 'M', d, tz) == Padded(IntText(Minutes(d)), 2) &&
            DirectiveText(names, 'S', d, tz) == Padded(IntText(Seconds(d)), 2) &&
            DirectiveText(names, 's', d, tz) == Padded(IntText(Milliseconds(d)), 3) &&
            DirectiveText(names, 'Z', d, tz) == OffsetText(tz) && DirectiveText(names, '%', d, tz) == "%"
  {
    hide Hours, Minutes, Seconds, Milliseconds, IntText, Padded, TwelveHour, OffsetText;
  }

  /** The date directives, for this instant in this zone. */
  lemma KnownDateTexts(names: Names)
    requires names.Complete()
    ensures var d := Local(KNOWN, KNOWN_ZONE);
            && DirectiveText(names, 'a', d, KNOWN_ZONE) == names.abbreviatedDays[0]
            && DirectiveText(names, 'A', d, KNOWN_ZONE) == names.days[0]
            && DirectiveText(names, 'b', d, KNOWN_ZONE) == names.abbreviatedMonths[7]
            && DirectiveText(names, 'B', d, KNOWN_ZONE) == names.months[7]
            && DirectiveText(names, 'd', d, KNOWN_ZONE) == "07" && DirectiveText(names, 'D', d, KNOWN_ZONE) == "7"
            && DirectiveText(names, 'm', d, KNOWN_ZONE) == "08" && DirectiveText(names, 'y', d, KNOWN_ZONE) == "11"
            && DirectiveText(names, 'Y', d, KNOWN_ZONE) == "2011"
  {
    hide Year, Month, Date, WeekDay, IntText, Padded, Local;
    KnownFields();
    KnownNumbers();
  }

  /** The time directives. */
  lemma KnownTimeTexts(names: Names)
    requires names.Complete()
    ensures var d := Local(KNOWN, KNOWN_ZONE);
            && DirectiveText(names, 'h', d, KNOWN_ZONE) == "13" && DirectiveText(names, 'H', d, KNOWN_ZONE) == "13"
            && DirectiveText(names, 'i', d, KNOWN_ZONE) == "1" && DirectiveText(names, 'I', d, KNOWN_ZONE) == "01"
            && DirectiveText(names, 'p', d, KNOWN_ZONE) == "PM" && DirectiveText(names, 'M', d, KNOWN_ZONE) == "05"
            && DirectiveText(names, 'S', d, KNOWN_ZONE) == "09" && DirectiveText(names, 's', d, KNOWN_ZONE) == "042"
            && DirectiveText(names, 'Z', d, KNOWN_ZONE) == "+10:00" && DirectiveText(names, '%', d, KNOWN_ZONE) == "%"
  {
    hide Hours, Minutes, Seconds, Milliseconds, IntText, Padded, Local, OffsetText, DirectiveText;
    TimeTexts(names, Local(KNOWN, KNOWN_ZONE), KNOWN_ZONE);
    KnownFields();
    KnownNumbers();
    KnownOffset();
  }

  /** The directives that count. */
  lemma KnownCounts(names: Names)
    requires names.Complete()
    ensures var d := Local(KNOWN, KNOWN_ZONE);
            && DirectiveText(names, 'j', d, KNOWN_ZONE) == "219" && DirectiveText(names, 'U', d, KNOWN_ZONE) == "32"
            && DirectiveText(names, 'W', d, KNOWN_ZONE) == "31" && DirectiveText(names, 'w', d, KNOWN_ZONE) == "0"
  {
    hide Year, Month, WeekDay, DayWithinYear, DayOfYear, IntText, Padded, Local;
    KnownFields();
    KnownNumbers();
    DayOfYearExact(Local(KNOWN, KNOWN_ZONE));
  }

  lemma KnownNumbers()
    ensures Padded(IntText(7), 2) == "07" && Padded(IntText(13), 2) == "13" && Padded(IntText(1), 2) == "01"
    ensures Padded(IntText(5), 2) == "05" && Padded(IntText(9), 2) == "09" && Padded(IntText(42), 3) == "042"
    ensures Padded(IntText(8), 2) == "08" && Padded(IntText(219), 3) == "219" && Padded(IntText(32), 2) == "32"
    ensures Padded(IntText(31), 2) == "31" && Padded(IntText(11), 2) == "11"
    ensures IntText(7) == "7" && IntText(13) == "13" && IntText(1) == "1" && IntText(0) == "0" &&
            IntText(2011) == "2011"
  {
    hide Padded, NatText;
    SmallTexts(7);
    SmallTexts(13);
    SmallTexts(1);
    SmallTexts(5);
    SmallTexts(9);
    SmallTexts(42);
    SmallTexts(8);
    SmallTexts(219);
    SmallTexts(32);
    SmallTexts(31);
    SmallTexts(11);
    PlainTexts();
  }

  lemma PlainTexts()
    ensures NatText(7) == "7" && NatText(13) == "13" && NatText(1) == "1" && NatText(0) == "0" &&
            NatText(2011) == "2011"
  {
    assert NatText(13) == NatText(1) + "3";
    assert NatText(20) == NatText(2) + "0" && NatText(201) == NatText(20) + "1" && NatText(2011) == NatText(201) + "1";
  }

  lemma KnownOffset()
    ensures OffsetText(KNOWN_ZONE) == "+10:00"
  {
    SmallTexts(10);
    SmallTexts(0);
  }

  // ----- timestamps in full

  /** What the client's formats write, part by part. */
  lemma ClientTexts(names: Names, t: int, tz: int)
    requires names.Complete()
    ensures var text := (c: char) requires names.Complete() => DirectiveText(names, c, Local(t, tz), tz);
            var date, clock := text('Y') + "-" + text('m') + "-" + text('d'),
                               text('H') + ":" + text('M') + ":" + text('S');
            && Format(names, DateTimeParse.SERVER_FORMAT, t, tz) == date + "T" + clock + ("." + text('s') + text('Z'))
            && Format(names, DateTimeParse.UTC_SERVER_FORMAT, t, tz) == date + "T" + clock + ("." + text('s') + "Z")
  {
    hide DirectiveText, AllText, Parts, Local;
    var d := Local(t, tz);
    DateTimeParse.ClientFormats();
    FiveParts(names, Directive('Y'), Literal('-'), Directive('m'), Literal('-'), Directive('d'), d, tz);
    FiveParts(names, Directive('H'), Literal(':'), Directive('M'), Literal(':'), Directive('S'), d, tz);
    Joined(names, [Literal('.'), Directive('s'), Directive('Z')], d, tz);
    Joined(names, [Literal('.'), Directive('s'), Literal('Z')], d, tz);
    Endings(names, d, tz);
  }

  lemma Joined(names: Names, ending: seq<Part>, d: int, tz: int)
    requires names.Complete()
    ensures AllText(names, DateTimeParse.DateParts() + [Literal('T')] + DateTimeParse.ClockParts() + ending, d, tz) ==
            AllText(names, DateTimeParse.DateParts(), d, tz) + "T" + AllText(names, DateTimeParse.ClockParts(), d, tz) +
            AllText(names, ending, d, tz)
  {
    hide AllText, DateTimeParse.DateParts, DateTimeParse.ClockParts;
    var date, clock := DateTimeParse.DateParts(), DateTimeParse.ClockParts();
    AllTextAppend(names, date + [Literal('T')] + clock, ending, d, tz);
    AllTextAppend(names, date + [Literal('T')], clock, d, tz);
    AllTextAppend(names, date, [Literal('T')], d, tz);
    assert AllText(names, [Literal('T')], d, tz) == "T" by { OnePart(names, Literal('T'), d, tz); }
  }

  lemma OnePart(names: Names, part: Part, d: int, tz: int)
    requires names.Complete()
    ensures AllText(names, [part], d, tz) == PartText(names, part, d, tz)
  {
    hide PartText;
    TextStep(names, part, [], d, tz);
    assert [part] + [] == [part] && AllText(names, [], d, tz) == "";
  }

  lemma Endings(names: Names, d: int, tz: int)
    requires names.Complete()
    ensures AllText(names, [Literal('.'), Directive('s'), Directive('Z')], d, tz) ==
            "." + DirectiveText(names, 's', d, tz) + DirectiveText(names, 'Z', d, tz)
    ensures AllText(names, [Literal('.'), Directive('s'), Literal('Z')], d, tz) ==
            "." + DirectiveText(names, 's', d, tz) + "Z"
  {
    hide DirectiveText, AllText;
    OnePart(names, Literal('Z'), d, tz);
    OnePart(names, Directive('Z'), d, tz);
    TextStep(names, Directive('s'), [Literal('Z')], d, tz);
    TextStep(names, Directive('s'), [Directive('Z')], d, tz);
    TextStep(names, Literal('.'), [Directive('s'), Literal('Z')], d, tz);
    TextStep(names, Literal('.'), [Directive('s'), Directive('Z')], d, tz);
    assert forall a: Part, b: Part, c: Part :: [a] + [b, c] == [a, b, c] && [b] + [c] == [b, c];
  }

  /** That instant as the server writes it, and as it is read. */
  lemma KnownTimestamp(names: Names, now: int, home: int)
    requires names.Complete()
    ensures Format(names, DateTimeParse.SERVER_FORMAT, KNOWN, KNOWN_ZONE) == "2011-08-07T13:05:09.042+10:00"
    ensures Parse(names, "2011-08-07T13:05:09.042+10:00", DateTimeParse.SERVER_FORMAT, now, home) ==
            Some(Moment(1312686309042, -600))
  {
    hide Format, Parse, DirectiveText, Local, Year;
    KnownFields();
    KnownDateTexts(names);
    KnownTimeTexts(names);
    ClientTexts(names, KNOWN, KNOWN_ZONE);
    DateTimeParse.ClientRoundTrips(names, KNOWN, KNOWN_ZONE, now, home);
    assert "2011" + "-" + "08" + "-" + "07" + "T" + ("13" + ":" + "05" + ":" + "09") + ("." + "042" + "+10:00") ==
           "2011-08-07T13:05:09.042+10:00";
  }

  lemma EpochTexts(names: Names, t: int)
    requires names.Complete() && Year(t) == 1970 && Month(t) == 0 && Date(t) == 1
    requires Hours(t) == 0 && Minutes(t) == 0 && Seconds(t) == 0 && Milliseconds(t) == 0
    ensures DirectiveText(names, 'Y', t, 0) == "1970" && DirectiveText(names, 'm', t, 0) == "01" &&
            DirectiveText(names, 'd', t, 0) == "01" && DirectiveText(names, 'H', t, 0) == "00" &&
            DirectiveText(names, 'M', t, 0) == "00" && DirectiveText(names, 'S', t, 0) == "00" &&
            DirectiveText(names, 's', t, 0) == "000"
  {
    hide Year, Month, Date, Hours, Minutes, Seconds, Milliseconds, Padded, DirectiveText, NatText;
    DateTexts(names, t, 0);
    TimeTexts(names, t, 0);
    SmallTexts(0);
    SmallTexts(1);
    Text1970();
  }

  /** The origin of time as the client writes it for the server, and as it is read. */
  lemma EpochTimestamp(names: Names, t: int, now: int, home: int)
    requires names.Complete() && t == 0
    ensures Format(names, DateTimeParse.UTC_SERVER_FORMAT, t, 0) == "1970-01-01T00:00:00.000Z"
    ensures Parse(names, "1970-01-01T00:00:00.000Z", DateTimeParse.SERVER_FORMAT, now, home) == Some(Moment(t, 0))
  {
    hide Format, Parse, DirectiveText, Year, Local, Month, Date, Hours, Minutes, Seconds, Milliseconds, WeekDay;
    assert Local(t, 0) == t by { EastIsAhead(t, 0, 0); }
    Epoch(t);
    EpochTexts(names, t);
    ClientTexts(names, t, 0);
    DateTimeParse.ClientRoundTrips(names, t, 0, now, home);
    assert "1970" + "-" + "01" + "-" + "01" + "T" + ("00" + ":" + "00" + ":" + "00") + ("." + "000" + "Z") ==
           "1970-01-01T00:00:00.000Z";
  }

  lemma Text1970()
    ensures NatText(1970) == "1970"
  {
    assert NatText(19) == "19" && NatText(197) == NatText(19) + "7" && NatText(1970) == NatText(197) + "0";
  }
}
