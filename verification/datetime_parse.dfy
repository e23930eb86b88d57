/** Round trips of `SC.DateTime`: which instants come back from their own text, for any format. */
module DateTimeParse {
  import opened JsRuntime
  import opened JsDate
  import Collections
  import opened DateTimeMath
  import opened DateTimeFormat
  import opened DateTimeRoundTrip

  lemma {:induction false} NothingSkipped(names: Names, ps: seq<Part>, local: int, tz: int)
    requires AllReadable(names, ps, local, tz)
    ensures ParserParts(ps) == ps
    decreases |ps|
  {
    hide Fits;
    if ps != [] {
      NothingSkipped(names, ps[1..], local, tz);
    }
  }

  /** A format that can be written as `ws` and read as `rs` for the instant, on one clock. */
  predicate Fitting(names: Names, ws: seq<Part>, rs: seq<Part>, twelve: bool, local: int, tz: int) {
    && names.Complete() && Delimited(ws) && AllReadAs(ws, rs, tz) && AllReadable(names, rs, local, tz) &&
        Clock(rs, twelve)
  }

  /** The parser sees exactly the fields the format mentions, with the instant's values. */
  lemma ParsedFields(names: Names, wfmt: string, rfmt: string, twelve: bool, t: int, tz: int, now: int, home: int)
    requires Fitting(names, Parts(wfmt), Parts(rfmt), twelve, Local(t, tz), tz)
    ensures Parse(names, Format(names, wfmt, t, tz), rfmt, now, home) ==
            Completed(FormatNotes(Parts(rfmt), twelve, Local(t, tz), tz, NO_FIELDS), now, home)
  {
    hide Delimited, AllReadAs, AllReadable, Clock, Parts, AllText, ScanAll, Completed, Local, FormatNotes, NotedAll,
         ParserParts;
    var local, text := Local(t, tz), Format(names, wfmt, t, tz);
    var ws, rs := Parts(wfmt), Parts(rfmt);
    NothingSkipped(names, rs, local, tz);
    AllReadsBack(names, ws, rs, "", local, tz, NO_FIELDS);
    assert "" + text == text;
    AllNoted(names, rs, twelve, local, tz, NO_FIELDS);
  }

  /** The hour that `create` is given. */
  function HourRead(ps: seq<Part>, twelve: bool, local: int): int {
    if Mentions(ps, "p") && Hours(local) > 11 then (HourNoted(twelve, local) + 12) % 24 else HourNoted(twelve, local)
  }

  predicate HourReadable(ps: seq<Part>, twelve: bool, local: int) {
    var h := Hours(local);
    if twelve then if Mentions(ps, "p") then h % 12 != 0 else 1 <= h <= 12
    else !Mentions(ps, "p") || h <= 11
  }

  /**
   The hour comes back right on a 24-hour clock unless `%p` shifts an afternoon once more; on a 12-hour
   clock with `%p`, at all hours but noon and midnight.
   */
  lemma HourReadExactly(ps: seq<Part>, twelve: bool, local: int)
    ensures HourRead(ps, twelve, local) == Hours(local) <==> HourReadable(ps, twelve, local)
    ensures 0 <= HourRead(ps, twelve, local) < 24
  {
    hide Hours, Mentions, TwelveHour;
    assert 0 <= Hours(local) < 24 by { Ranges(local); }
    HourOfDay(Mentions(ps, "p"), twelve, Hours(local));
  }

  /** The same of an hour alone. */
  lemma HourOfDay(p: bool, twelve: bool, h: nat)
    requires h < 24
    ensures var noted := if twelve then TwelveHour(h) else h;
            var read := if p && h > 11 then (noted + 12) % 24 else noted;
            && 0 <= read < 24
            && (read == h <==> if twelve then if p then h % 12 != 0 else 1 <= h <= 12 else !p || h <= 11)
  {
    hide TwelveHour;
    if twelve { TwelveHours(h); } else { AfternoonShift(h); }
  }

  lemma AfternoonShift(h: nat)
    requires h < 24
    ensures h > 11 ==> 0 <= (h + 12) % 24 < 24 && (h + 12) % 24 != h
  {
  }

  lemma TwelveHours(h: nat)
    requires h < 24
    ensures TwelveHour(h) == h <==> 1 <= h <= 12
    ensures h > 11 ==> ((TwelveHour(h) + 12) % 24 == h <==> h % 12 != 0)
    ensures h <= 11 ==> (TwelveHour(h) == h <==> h % 12 != 0)
    ensures 1 <= TwelveHour(h) <= 12 && 0 <= (TwelveHour(h) + 12) % 24 < 24
  {
    if 0 < h < 12 {
      assert (h + 12) % 12 == h;
    } else if h > 12 {
      assert (h + 12) % 12 == h - 12;
    }
  }

  predicate DateAndHour(ps: seq<Part>) {
    Mentions(ps, "yY") && Mentions(ps, "bBm") && Mentions(ps, "dD") && Mentions(ps, "hHiI")
  }

  function If(b: bool, v: int): int {
    if b then v else 0
  }

  /** The local date with the hour that was read, and the smaller units that the format mentions. */
  function Kept(ps: seq<Part>, twelve: bool, local: int): int {
    MakeDate(Day(local), MakeTime(HourRead(ps, twelve, local), If(Mentions(ps, "M"), Minutes(local)),
                                  If(Mentions(ps, "S"), Seconds(local)), If(Mentions(ps, "s"), Milliseconds(local))))
  }

  lemma {:induction false} YearFits(names: Names, ps: seq<Part>, local: int, tz: int)
    requires AllReadable(names, ps, local, tz) && Mentions(ps, "yY")
    ensures FullYear(Year(local)) == Year(local)
    decreases |ps|
  {
    if Says(ps[0], "yY") {
      assert Fits(names, ps[0].c, local, tz);
    } else {
      YearFits(names, ps[1..], local, tz);
    }
    hide Year;
  }

  /** What `create` makes of a whole date and at least an hour. */
  lemma Completes(ps: seq<Part>, twelve: bool, local: int, tz: int, now: int, home: int)
    requires DateAndHour(ps) && FullYear(Year(local)) == Year(local)
    ensures var zone := if Mentions(ps, "Z") then tz else home;
            Completed(FormatNotes(ps, twelve, local, tz, NO_FIELDS), now, home) ==
                Some(Moment(Kept(ps, twelve, local) + zone * 60000, zone))
  {
    hide Completed, FormatNotes, Kept, Mentions, FullYear, Year, Month, Date, MakeTime, MakeDay;
    var f, zone := FormatNotes(ps, twelve, local, tz, NO_FIELDS), if Mentions(ps, "Z") then tz else home;
    GivenFields(ps, twelve, local, tz);
    GivenTime(ps, twelve, local, tz, now, zone);
    KeptDay(ps, twelve, local);
    CompletedIs(f, now, home);
    assert Local(Kept(ps, twelve, local) + zone * 60000, zone) == Kept(ps, twelve, local);
  }

  lemma CompletedIs(f: Fields, now: int, home: int)
    ensures var zone := Or(f.timezone, home);
            var ms := ToMs(WithMeridian(f), now, zone, true);
            Completed(f, now, home) == if f.dayOfWeek.Some? && WeekDay(Local(ms, zone)) != f.dayOfWeek.value then None
                else Some(Moment(ms, zone))
  {
  }

  /** The options after the meridian is folded in. */
  function GivenOpts(ps: seq<Part>, twelve: bool, local: int): Opts {
    Opts(Some(Year(local)), Some(Month(local) + 1), Some(Date(local)), Some(HourRead(ps, twelve, local)),
         Merge(Mentions(ps, "M"), Minutes(local), None), Merge(Mentions(ps, "S"), Seconds(local), None),
         Merge(Mentions(ps, "s"), Milliseconds(local), None))
  }

  lemma GivenFields(ps: seq<Part>, twelve: bool, local: int, tz: int)
    requires DateAndHour(ps)
    ensures var f := FormatNotes(ps, twelve, local, tz, NO_FIELDS);
            && WithMeridian(f) == GivenOpts(ps, twelve, local)
            && f.timezone == (if Mentions(ps, "Z") then Some(tz) else None)
            && (f.dayOfWeek.Some? ==> f.dayOfWeek.value == WeekDay(local))
  {
    hide Mentions, Year, Month, Date, WeekDay, Hours, Minutes, Seconds, Milliseconds;
  }

  lemma GivenTime(ps: seq<Part>, twelve: bool, local: int, tz: int, now: int, zone: int)
    requires FullYear(Year(local)) == Year(local)
    ensures ToMs(GivenOpts(ps, twelve, local), now, zone, true) == Kept(ps, twelve, local) + zone * 60000
  {
    hide Mentions, Year, Month, Date, Hours, Minutes, Seconds, Milliseconds, HourRead, FullYear, MakeDay, MakeTime,
         MakeDate, Day, Local;
    DayFields(local);
  }

  lemma KeptDay(ps: seq<Part>, twelve: bool, local: int)
    ensures Day(Kept(ps, twelve, local)) == Day(local) && WeekDay(Kept(ps, twelve, local)) == WeekDay(local)
  {
    hide Mentions, Hours, Minutes, Seconds, Milliseconds, HourRead, MakeTime, MakeDate, Day;
    HourReadExactly(ps, twelve, local);
    TimeFields(local);
    TimeFieldsUnique(Day(local), HourRead(ps, twelve, local), If(Mentions(ps, "M"), Minutes(local)),
                     If(Mentions(ps, "S"), Seconds(local)), If(Mentions(ps, "s"), Milliseconds(local)));
  }

  /**
   Reading back what was written, for any format with a whole date and at least an hour: the date comes
   back, the units not mentioned are zero, and a format without `%Z` is read in the machine's zone.
   */
  lemma RoundTrip(names: Names, wfmt: string, rfmt: string, twelve: bool, t: int, tz: int, now: int, home: int)
    requires Fitting(names, Parts(wfmt), Parts(rfmt), twelve, Local(t, tz), tz) && DateAndHour(Parts(rfmt))
    ensures var zone := if Mentions(Parts(rfmt), "Z") then tz else home;
            Parse(names, Format(names, wfmt, t, tz), rfmt, now, home) ==
            Some(Moment(Kept(Parts(rfmt), twelve, Local(t, tz)) + zone * 60000, zone))
  {
    hide Delimited, AllReadAs, Clock, Parts, Parse, Format, Completed, FormatNotes, Kept, Year, FullYear, Local,
         AllReadable, Mentions;
    ParsedFields(names, wfmt, rfmt, twelve, t, tz, now, home);
    YearFits(names, Parts(rfmt), Local(t, tz), tz);
    Completes(Parts(rfmt), twelve, Local(t, tz), tz, now, home);
  }

  /** Which smaller units a format keeps. */
  predicate ToTheSecond(ps: seq<Part>) {
    DateAndHour(ps) && Mentions(ps, "M") && Mentions(ps, "S") && Mentions(ps, "Z")
  }

  lemma TimeSplit(local: int)
    ensures MakeDate(Day(local), TimeOf(local)) == local
    ensures MakeDate(Day(local), MakeTime(Hours(local), Minutes(local), Seconds(local), 0)) == local - local % 1000
  {
    hide Hours, Minutes, Seconds, Milliseconds;
    TimeFields(local);
    SecondsWithin(local);
  }

  lemma SecondsWithin(local: int)
    ensures local == MakeDate(Day(local), TimeWithinDay(local)) && Milliseconds(local) == local % 1000
  {
    var d, t := local / MS_PER_DAY, local % MS_PER_DAY;
    assert local == 1000 * (86400 * d) + t;
    ThousandsDropOut(86400 * d, t);
  }

  lemma ThousandsDropOut(q: int, r: int)
    ensures (1000 * q + r) % 1000 == r % 1000
  {
  }

  lemma KeptExactly(ps: seq<Part>, twelve: bool, local: int)
    requires ToTheSecond(ps)
    ensures Kept(ps, twelve, local) == local - (if Mentions(ps, "s") then 0 else local % 1000) <==>
            HourReadable(ps, twelve, local)
  {
    hide Mentions, Hours, Minutes, Seconds, Milliseconds, HourRead, HourReadable, Day;
    HourReadExactly(ps, twelve, local);
    TimeSplit(local);
  }

  lemma LocalSeconds(t: int, tz: int)
    ensures Local(t, tz) + tz * 60000 == t && Local(t, tz) % 1000 == t % 1000
  {
    assert Local(t, tz) == t + 1000 * (-60 * tz);
  }

  /**
   A format down to the second brings back the instant, floored to the second if it leaves out `%s`,
   in its time zone, exactly when its clock can tell the hour.
   */
  lemma RoundTripExactly(names: Names, wfmt: string, rfmt: string, twelve: bool, t: int, tz: int, now: int, home: int)
    requires Fitting(names, Parts(wfmt), Parts(rfmt), twelve, Local(t, tz), tz) && ToTheSecond(Parts(rfmt))
    ensures Parse(names, Format(names, wfmt, t, tz), rfmt, now, home) ==
              Some(Moment(if Mentions(Parts(rfmt), "s") then t else t - t % 1000, tz)) <==>
            HourReadable(Parts(rfmt), twelve, Local(t, tz))
  {
    hide Parts, Parse, Format, Kept, Mentions, Fitting, HourReadable, DateAndHour, Local;
    RoundTrip(names, wfmt, rfmt, twelve, t, tz, now, home);
    KeptExactly(Parts(rfmt), twelve, Local(t, tz));
    LocalSeconds(t, tz);
  }

  // ----- the formats that the client uses

  const ISO8601 := "%Y-%m-%dT%H:%M:%S%Z"
  const SERVER_FORMAT := "%Y-%m-%dT%H:%M:%S.%s%Z"
  const UTC_SERVER_FORMAT := "%Y-%m-%dT%H:%M:%S.%sZ"
  const LOCAL_FORMAT := "%Y-%m-%d %H:%M:%S.%s %Z"

  function DateParts(): seq<Part> {
    [Directive('Y'), Literal('-'), Directive('m'), Literal('-'), Directive('d')]
  }

  function ClockParts(): seq<Part> {
    [Directive('H'), Literal(':'), Directive('M'), Literal(':'), Directive('S')]
  }

  /** The first part of a format, and the format after it. */
  lemma HeadPart(fmt: string)
    requires fmt != ""
    ensures var directive := fmt[0] == '%' && |fmt| > 1 && IsLetter(fmt[1]);
            Parts(fmt) == if directive then [Directive(fmt[1])] + Parts(fmt[2..])
                else [Literal(fmt[0])] + Parts(fmt[1..])
  {
    hide IsLetter;
  }

  lemma {:induction false} PartsAppend(a: string, b: string)
    requires a == "" || a[|a| - 1] != '%'
    ensures Parts(a + b) == Parts(a) + Parts(b)
    decreases |a|
  {
    hide IsLetter, Parts;
    if a == "" {
      assert a + b == b && Parts("") == [] by { NoParts(); }
    } else {
      HeadPart(a);
      HeadPart(a + b);
      if a[0] == '%' && |a| > 1 && IsLetter(a[1]) {
        assert (a + b)[2..] == a[2..] + b;
        PartsAppend(a[2..], b);
        Collections.Concat2([Directive(a[1])], Parts(a[2..]), Parts(b));
      } else {
        assert (a + b)[1..] == a[1..] + b;
        PartsAppend(a[1..], b);
        Collections.Concat2([Literal(a[0])], Parts(a[1..]), Parts(b));
      }
    }
  }

  lemma NoParts()
    ensures Parts("") == []
  {
  }

  lemma PartsOne(c: char, b: string)
    ensures IsLetter(c) ==> Parts(['%', c] + b) == [Directive(c)] + Parts(b)
    ensures c != '%' ==> Parts([c] + b) == [Literal(c)] + Parts(b)
  {
    assert (['%', c] + b)[2..] == b && ([c] + b)[1..] == b;
  }

  lemma DatePartsOf(b: string)
    ensures Parts("%Y-%m-%d" + b) == DateParts() + Parts(b)
  {
    hide Parts, IsLetter;
    assert IsLetter('Y') && IsLetter('m') && IsLetter('d') by { Letters(); }
    PartsOne('d', b);
    PartsOne('-', "%d" + b);
    PartsOne('m', "-" + ("%d" + b));
    PartsOne('-', "%m" + ("-" + ("%d" + b)));
    PartsOne('Y', "-" + ("%m" + ("-" + ("%d" + b))));
    assert "%Y-%m-%d" + b == "%Y" + ("-" + ("%m" + ("-" + ("%d" + b))));
  }

  lemma Letters()
    ensures forall c :: c in "YmdHMSsZ" ==> IsLetter(c)
  {
  }

  lemma ClockPartsOf(b: string)
    ensures Parts("%H:%M:%S" + b) == ClockParts() + Parts(b)
  {
    hide Parts, IsLetter;
    assert IsLetter('H') && IsLetter('M') && IsLetter('S') by { Letters(); }
    PartsOne('S', b);
    PartsOne(':', "%S" + b);
    PartsOne('M', ":" + ("%S" + b));
    PartsOne(':', "%M" + (":" + ("%S" + b)));
    PartsOne('H', ":" + ("%M" + (":" + ("%S" + b))));
    assert "%H:%M:%S" + b == "%H" + (":" + ("%M" + (":" + ("%S" + b))));
  }

  lemma ZoneEnding()
    ensures Parts("%Z") == [Directive('Z')] && Parts("Z") == [Literal('Z')]
  {
  }

  lemma FractionEnding(b: string)
    ensures Parts(".%s" + b) == [Literal('.'), Directive('s')] + Parts(b)
  {
    hide Parts, IsLetter;
    assert IsLetter('s') by { Letters(); }
    PartsOne('s', b);
    PartsOne('.', "%s" + b);
    assert "." + ("%s" + b) == ".%s" + b;
  }

  lemma Endings()
    ensures Parts("%Z") == [Directive('Z')]
    ensures Parts(".%s%Z") == [Literal('.'), Directive('s'), Directive('Z')]
    ensures Parts(".%sZ") == [Literal('.'), Directive('s'), Literal('Z')]
    ensures Parts(".%s %Z") == [Literal('.'), Directive('s'), Literal(' '), Directive('Z')]
  {
    hide Parts;
    ZoneEnding();
    PartsOne(' ', "%Z");
    FractionEnding("%Z");
    FractionEnding("Z");
    FractionEnding(" " + "%Z");
    assert ".%s" + "%Z" == ".%s%Z" && ".%s" + "Z" == ".%sZ" && ".%s" + (" " + "%Z") == ".%s %Z";
  }

  lemma ClientFormat(sep: char, ending: string)
    requires sep != '%'
    ensures Parts("%Y-%m-%d" + [sep] + "%H:%M:%S" + ending) ==
            DateParts() + [Literal(sep)] + ClockParts() + Parts(ending)
  {
    hide Parts;
    var clock := "%H:%M:%S" + ending;
    DatePartsOf([sep] + clock);
    PartsOne(sep, clock);
    ClockPartsOf(ending);
    assert "%Y-%m-%d" + [sep] + "%H:%M:%S" + ending == "%Y-%m-%d" + ([sep] + clock);
  }

  lemma ClientFormats()
    ensures Parts(ISO8601) == DateParts() + [Literal('T')] + ClockParts() + [Directive('Z')]
    ensures Parts(SERVER_FORMAT) == DateParts() + [Literal('T')] + ClockParts() + [Literal('.'), Directive('s'),
            Directive('Z')]
    ensures Parts(UTC_SERVER_FORMAT) == DateParts() + [Literal('T')] + ClockParts() + [Literal('.'), Directive('s'),
            Literal('Z')]
    ensures Parts(LOCAL_FORMAT) == DateParts() + [Literal(' ')] + ClockParts() + [Literal('.'), Directive('s'),
            Literal(' '), Directive('Z')]
  {
    hide Parts, DateParts, ClockParts;
    Endings();
    ClientFormat('T', "%Z");
    assert "%Y-%m-%d" + "T" + "%H:%M:%S" + "%Z" == ISO8601;
    ClientFormat('T', ".%s%Z");
    assert "%Y-%m-%d" + "T" + "%H:%M:%S" + ".%s%Z" == SERVER_FORMAT;
    ClientFormat('T', ".%sZ");
    assert "%Y-%m-%d" + "T" + "%H:%M:%S" + ".%sZ" == UTC_SERVER_FORMAT;
    ClientFormat(' ', ".%s %Z");
    assert "%Y-%m-%d" + " " + "%H:%M:%S" + ".%s %Z" == LOCAL_FORMAT;
  }

  lemma {:induction false} MentionsWhere(ps: seq<Part>, cs: string)
    ensures Mentions(ps, cs) <==> exists i :: 0 <= i < |ps| && Says(ps[i], cs)
    decreases |ps|
  {
    if ps != [] {
      MentionsWhere(ps[1..], cs);
      if i :| 0 <= i < |ps[1..]| && Says(ps[1..][i], cs) {
        assert Says(ps[i + 1], cs);
      }
      if i :| 0 <= i < |ps| && Says(ps[i], cs) && i > 0 {
        assert Says(ps[1..][i - 1], cs);
      }
    }
  }

  function ClientParts(sep: char, ending: seq<Part>): seq<Part> {
    DateParts() + [Literal(sep)] + ClockParts() + ending
  }

  /** Padded directives only, each field once, on a 24-hour clock. */
  predicate PlainEnding(ending: seq<Part>) {
    && |ending| <= 4
    && forall i :: 0 <= i < |ending| ==> if ending[i].Literal? then ending[i].c in ". Z" else ending[i].c in "sZ"
  }

  lemma ClientPartsFit(names: Names, sep: char, w: seq<Part>, r: seq<Part>, local: int, tz: int)
    requires names.Complete() && 1000 <= Year(local) <= 9999 && -6000 < tz < 6000
    requires !IsLineEnd(sep) && PlainEnding(w) && PlainEnding(r) && AllReadAs(w, r, tz)
    ensures Fitting(names, ClientParts(sep, w), ClientParts(sep, r), false, local, tz)
  {
    hide ReadAs, Fits, Readable, Mentions, Delimited, AllReadAs;
    var ws, rs := ClientParts(sep, w), ClientParts(sep, r);
    MentionsWhere(rs, "iI");
    PlainLetters(sep, w);
    PlainLetters(sep, r);
    NeverRunsOn(ws);
    ClientReadAs(sep, w, r, tz);
    forall i | 0 <= i < |rs|
      ensures Readable(rs[i]) && (rs[i].Directive? ==> Fits(names, rs[i].c, local, tz))
    {
      PlainPart(names, rs[i], local, tz);
    }
  }

  /** The parts that the client's formats use. */
  predicate IsPlain(part: Part) {
    if part.Literal? then !IsLineEnd(part.c) else part.c in "YmdHMSsZ"
  }

  lemma PlainLetters(sep: char, ending: seq<Part>)
    requires !IsLineEnd(sep) && PlainEnding(ending)
    ensures forall i :: 0 <= i < |ClientParts(sep, ending)| ==> IsPlain(ClientParts(sep, ending)[i])
    ensures forall i :: 0 <= i < |ClientParts(sep, ending)| ==> !Says(ClientParts(sep, ending)[i], "iI")
  {
    assert forall i :: 0 <= i < |ending| ==> IsPlain(ending[i]);
    assert forall i :: 0 <= i < |DateParts()| ==> IsPlain(DateParts()[i]);
    assert forall i :: 0 <= i < |ClockParts()| ==> IsPlain(ClockParts()[i]);
    hide PlainEnding, DateParts, ClockParts;
  }

  lemma PlainPart(names: Names, part: Part, local: int, tz: int)
    requires IsPlain(part) && 1000 <= Year(local) <= 9999 && -6000 < tz < 6000
    ensures Readable(part) && (part.Directive? ==> Fits(names, part.c, local, tz))
  {
    hide Year, Telling;
  }

  lemma NeverRunsOn(ps: seq<Part>)
    requires forall i :: 0 <= i < |ps| ==> IsPlain(ps[i])
    ensures Delimited(ps)
  {
    forall i | 0 <= i < |ps| - 1
      ensures !(ps[i].Directive? && Unpadded(ps[i].c))
    {
      assert IsPlain(ps[i]);
    }
  }

  lemma ClientReadAs(sep: char, w: seq<Part>, r: seq<Part>, tz: int)
    requires AllReadAs(w, r, tz)
    ensures AllReadAs(ClientParts(sep, w), ClientParts(sep, r), tz)
  {
    hide DateParts, ClockParts, ReadAs;
    ReadAsItself(tz);
  }

  lemma ReadAsItself(tz: int)
    ensures forall p: Part :: ReadAs(p, p, tz)
  {
  }

  lemma ClientPartsMention(sep: char, r: seq<Part>)
    ensures var ps := ClientParts(sep, r);
            && DateAndHour(ps) && Mentions(ps, "M") && Mentions(ps, "S")
            && (Mentions(ps, "Z") <==> Mentions(r, "Z")) && (Mentions(ps, "s") <==> Mentions(r, "s"))
            && (Mentions(ps, "p") <==> Mentions(r, "p"))
  {
    hide Mentions;
    DatePartsMention();
    ClientMention(sep, r, "yY");
    ClientMention(sep, r, "bBm");
    ClientMention(sep, r, "dD");
    ClientMention(sep, r, "hHiI");
    ClientMention(sep, r, "M");
    ClientMention(sep, r, "S");
    ClientMention(sep, r, "s");
    ClientMention(sep, r, "Z");
    ClientMention(sep, r, "p");
  }

  lemma ClientMention(sep: char, r: seq<Part>, cs: string)
    ensures Mentions(ClientParts(sep, r), cs) <==>
            Mentions(DateParts(), cs) || Mentions(ClockParts(), cs) || Mentions(r, cs)
  {
    hide DateParts, ClockParts;
    MentionsAppend(DateParts(), [Literal(sep)], cs);
    MentionsAppend(DateParts() + [Literal(sep)], ClockParts(), cs);
    MentionsAppend(DateParts() + [Literal(sep)] + ClockParts(), r, cs);
    assert !Mentions([Literal(sep)], cs);
  }

  lemma {:induction false} MentionsAppend(a: seq<Part>, b: seq<Part>, cs: string)
    ensures Mentions(a + b, cs) <==> Mentions(a, cs) || Mentions(b, cs)
    decreases |a|
  {
    if a == [] {
      assert a + b == b;
    } else {
      assert (a + b)[1..] == a[1..] + b;
      MentionsAppend(a[1..], b, cs);
    }
  }

  lemma DatePartsMention()
    ensures Mentions(DateParts(), "yY") && Mentions(DateParts(), "bBm") && Mentions(DateParts(), "dD")
    ensures !Mentions(DateParts(), "s") && !Mentions(DateParts(), "Z") && !Mentions(DateParts(), "p")
    ensures Mentions(ClockParts(), "hHiI") && Mentions(ClockParts(), "M") && Mentions(ClockParts(), "S")
    ensures !Mentions(ClockParts(), "s") && !Mentions(ClockParts(), "Z") && !Mentions(ClockParts(), "p")
  {
  }

  /**
   The three formats with a fraction bring back the instant and the zone; ISO 8601 the instant floored to the
   second.
   */
  lemma ClientRoundTrips(names: Names, t: int, tz: int, now: int, home: int)
    requires names.Complete() && 1000 <= Year(Local(t, tz)) <= 9999 && -6000 < tz < 6000
    ensures Parse(names, Format(names, ISO8601, t, tz), ISO8601, now, home) == Some(Moment(t - t % 1000, tz))
    ensures Parse(names, Format(names, SERVER_FORMAT, t, tz), SERVER_FORMAT, now, home) == Some(Moment(t, tz))
    ensures Parse(names, Format(names, LOCAL_FORMAT, t, tz), LOCAL_FORMAT, now, home) == Some(Moment(t, tz))
    ensures tz == 0 ==>
              Parse(names, Format(names, UTC_SERVER_FORMAT, t, tz), SERVER_FORMAT, now, home) == Some(Moment(t, 0))
  {
    hide Parse, Format, Parts, Year, Local;
    ClientFormats();
    var z, sz, sZ, s_z := [Directive('Z')], [Literal('.'), Directive('s'), Directive('Z')],
                          [Literal('.'), Directive('s'), Literal('Z')],
                              [Literal('.'), Directive('s'), Literal(' '), Directive('Z')];
    ClientRoundTrip(names, ISO8601, ISO8601, 'T', z, z, t, tz, now, home);
    ClientRoundTrip(names, SERVER_FORMAT, SERVER_FORMAT, 'T', sz, sz, t, tz, now, home);
    ClientRoundTrip(names, LOCAL_FORMAT, LOCAL_FORMAT, ' ', s_z, s_z, t, tz, now, home);
    if tz == 0 {
      ClientRoundTrip(names, UTC_SERVER_FORMAT, SERVER_FORMAT, 'T', sZ, sz, t, tz, now, home);
    }
  }

  lemma ClientRoundTrip(names: Names, wfmt: string, rfmt: string, sep: char, w: seq<Part>, r: seq<Part>, t: int,
                        tz: int, now: int, home: int)
    requires names.Complete() && 1000 <= Year(Local(t, tz)) <= 9999 && -6000 < tz < 6000
    requires !IsLineEnd(sep) && PlainEnding(w) && PlainEnding(r) && AllReadAs(w, r, tz)
    requires Parts(wfmt) == ClientParts(sep, w) && Parts(rfmt) == ClientParts(sep, r) && Mentions(r, "Z") &&
             !Mentions(r, "p")
    ensures Parse(names, Format(names, wfmt, t, tz), rfmt, now, home) ==
            Some(Moment(if Mentions(r, "s") then t else t - t % 1000, tz))
  {
    hide Parse, Format, Parts, Year, Local, Mentions, Fitting, AllReadAs, PlainEnding, DateAndHour, ClientParts;
    ClientPartsFit(names, sep, w, r, Local(t, tz), tz);
    ClientPartsMention(sep, r);
    RoundTripExactly(names, wfmt, rfmt, false, t, tz, now, home);
  }

  /** A format with a directive that the parser does not implement parses nothing at all. */
  lemma {:induction false} NeverParses(names: Names, ps: seq<Part>, s: string, loc: nat, f: Fields)
    requires Mentions(ps, "cjUWwxX")
    ensures ScanAll(names, ParserParts(ps), s, loc, f) == None
    decreases |ps|
  {
    hide ScanZone, Put, SkipString;
    if Says(ps[0], "cjUWwxX") {
      assert ScanNumber(names, ps[0].c, s, loc) == None;
    } else if ps[0].Literal? && IsLineEnd(ps[0].c) {
      assert ParserParts(ps) == ParserParts(ps[1..]);
      NeverParses(names, ps[1..], s, loc, f);
    } else {
      var r := ScanPart(names, ps[0], s, loc, f);
      assert ParserParts(ps)[1..] == ParserParts(ps[1..]);
      if r.Some? {
        NeverParses(names, ps[1..], s, r.value.loc, r.value.value);
      }
    }
  }
}
