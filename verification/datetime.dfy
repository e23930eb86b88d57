/** `SC.DateTime` as its callers meet it: instances from the cache, the formatter, the scanner and the parser. */
module DateTimes {
  import opened JsRuntime
  import opened JsDate
  import opened JsText
  import opened DateTimeMath
  import opened DateTimeEngine
  import opened DateTimeCache
  import opened DateTimeFormat
  import DateTimeRoundTrip
  import opened DateTimeParse

  /** Goes through a string once, by moving its scan location. */
  class Scanner {
    const text: string
    var scanLocation: nat

    constructor (text: string)
      ensures this.text == text && scanLocation == 0
    {
      this.text, scanLocation := text, 0;
    }

    /**
     Reads `len` characters, or fewer at the end; the bounds check compares with an undefined length, so it
     never throws.
     */
    method ScanText(len: nat) returns (str: string)
      modifies `scanLocation
      ensures str == Substr(text, old(scanLocation), len) && scanLocation == old(scanLocation) + len
    {
      str := Substr(text, scanLocation, len);
      scanLocation := scanLocation + len;
    }

    method ScanNumber(minLen: nat, maxLen: nat) returns (r: Option<nat>)
      modifies `scanLocation
      ensures var v := ScanInt(text, old(scanLocation), minLen, maxLen);
              if v.Some? then r == Some(v.value.value) && scanLocation == v.value.loc else r.None?
    {
      var str := ScanText(maxLen);
      var k := DigitRun(str);
      if k < minLen { return None; }
      if k < maxLen { scanLocation := scanLocation - (maxLen - k); }
      r := Some(ParseNat(str[..k]));
    }

    method Skip(str: string) returns (ok: bool)
      modifies `scanLocation
      ensures var r := SkipString(text, old(scanLocation), str);
              if r.Some? then ok && scanLocation == r.value else !ok
    {
      var got := ScanText(|str|);
      ok := got == str;
    }

    method ScanName(ary: seq<string>) returns (r: Option<nat>)
      modifies `scanLocation
      ensures var v := ScanArray(text, old(scanLocation), ary, 0);
              if v.Some? then r == Some(v.value.value) && scanLocation == v.value.loc else r.None?
    {
      var i := 0;
      while i < |ary|
        invariant 0 <= i <= |ary| && scanLocation == old(scanLocation)
        invariant ScanArray(text, scanLocation, ary, 0) == ScanArray(text, scanLocation, ary, i)
      {
        var got := ScanText(|ary[i]|);
        if got == ary[i] { return Some(i); }
        scanLocation := scanLocation - |ary[i]|;
        i := i + 1;
      }
      r := None;
    }

    /** The time zone, if the text has one; `ok` is false where scanning throws. */
    method ScanTimezone() returns (ok: bool, timezone: Option<int>)
      modifies `scanLocation
      ensures var z := ScanZone(text, old(scanLocation));
              if z.Some? then ok && timezone == z.value.value && scanLocation == z.value.loc else !ok
    {
      hide Substr, ScanInt;
      ok, timezone := true, None;
      var modifier := ScanText(1);
      if modifier == "Z" {
        timezone := Some(0);
      } else if modifier == "+" || modifier == "-" {
        var h := ScanNumber(2, 2);
        if h.None? { return false, None; }
        var colon := ScanText(1);
        if colon != ":" { scanLocation := scanLocation - 1; }
        var m := ScanNumber(2, 2);
        if m.None? { return false, None; }
        var sign: int := if modifier == "+" then -1 else 1;
        timezone := Some(sign * (h.value * 60 + m.value));
      }
    }

    method ScanField(names: Names, c: char) returns (r: Option<nat>)
      modifies `scanLocation
      ensures var v := DateTimeFormat.ScanNumber(names, c, text, old(scanLocation));
              if v.Some? then r == Some(v.value.value) && scanLocation == v.value.loc else r.None?
    {
      hide ScanArray, ScanInt;
      match c {
        case 'a' => r := ScanName(names.abbreviatedDays);
        case 'A' => r := ScanName(names.days);
        case 'b' => r := ScanName(names.abbreviatedMonths);
        case 'B' => r := ScanName(names.months);
        case 'p' => r := ScanName(["AM", "PM"]);
        case 's' => r := ScanNumber(1, 3);
        case 'y' => r := ScanNumber(2, 2);
        case 'Y' => r := ScanNumber(4, 4);
        case _ => if c in "dDhHiImMS" { r := ScanNumber(1, 2); } else { r := None; }
      }
    }

    /** Reads one part of the format and notes its field; `None` where the parser throws. */
    method ScanNext(names: Names, part: Part, f: Fields) returns (r: Option<Fields>)
      modifies `scanLocation
      ensures var v := ScanPart(names, part, text, old(scanLocation), f);
              if v.Some? then r == Some(v.value.value) && scanLocation == v.value.loc else r.None?
    {
      hide ScanZone, SkipString, Put;
      if part.Literal? || part.c == '%' {
        var ok := Skip([part.c]);
        r := if ok then Some(f) else None;
      } else if part.c == 'Z' {
        var ok, zone := ScanTimezone();
        r := if !ok then None else if zone.Some? then Some(f.(timezone := zone)) else Some(f);
      } else {
        var v := ScanField(names, part.c);
        r := if v.Some? then Some(Put(part.c, v.value, f)) else None;
      }
    }
  }

  lemma ScanAllStep(names: Names, parts: seq<Part>, i: nat, s: string, loc: nat, f: Fields)
    requires i < |parts|
    ensures ScanAll(names, parts[i..], s, loc, f) ==
            var r := ScanPart(names, parts[i], s, loc, f);
            if r.None? then None else ScanAll(names, parts[i + 1..], s, r.value.loc, r.value.value)
  {
    hide ScanPart;
    assert parts[i..][0] == parts[i] && parts[i..][1..] == parts[i + 1..];
  }

  /** The part of the format that starts at `fmt[0]`, and what it takes up. */
  function FirstPart(fmt: string): (r: (Part, nat))
    requires fmt != ""
    ensures 1 <= r.1 <= |fmt|
  {
    if fmt[0] == '%' && |fmt| > 1 && IsLetter(fmt[1]) then (Directive(fmt[1]), 2) else (Literal(fmt[0]), 1)
  }

  lemma PartsStep(fmt: string)
    requires fmt != ""
    ensures Parts(fmt) == [FirstPart(fmt).0] + Parts(fmt[FirstPart(fmt).1..])
  {
  }

  class DateTimeApi {
    const engine: DateTimeClass
    const cache: InstanceCache
    const names: Names

    constructor (names: Names, timezone: int, now: int)
      requires names.Complete()
      ensures Valid() && this.names == names && engine.timezone == timezone && cache.order == []
      ensures fresh(engine) && fresh(cache)
    {
      engine := new DateTimeClass(timezone, now);
      cache := new InstanceCache();
      this.names := names;
    }

    ghost predicate Valid()
      reads cache
    {
      cache.Valid() && names.Complete()
    }

    // ----- instances

    /** `create` with fields: what is not given is taken from the current time. */
    method Create(options: Opts, zone: Option<int>, now: int, resetCascadingly: bool) returns (ret: Instance)
      requires Valid()
      modifies engine, cache
      ensures Valid() && engine.date == old(engine.date) && engine.tz == old(engine.tz)
      ensures var timezone := Or(zone, engine.timezone);
              var ms := ToMs(options, now, timezone, resetCascadingly);
              && Served(ret, ms, timezone)
              && ret.ms == old(cache.InstantFor(ms, timezone)) && ret.timezone == old(cache.LabelFor(ms, timezone))
              && (old(cache.Wide(|IntText(ms)|)) ==>
                  cache.Wide(|IntText(ms)|) && ret.ms == ms && ret.createdFor == timezone)
      ensures fresh(ret) || ret in old(cache.live.Values)
      ensures old(cache.Untouched()) ==> cache.Untouched()
    {
      hide ToMs, RingHolds, CacheKey, IntText;
      var timezone := if zone.Some? then zone.value else engine.timezone;
      var ms := engine.ToMilliseconds(options, Some(now), Some(timezone), resetCascadingly);
      ret := cache.Create(ms, timezone);
    }

    /** The instance that the cache now holds for a request. */
    ghost predicate Served(ret: Instance, ms: int, timezone: int)
      reads cache
    {
      CacheKey(ms, timezone) in cache.live && cache.live[CacheKey(ms, timezone)] == ret
    }

    /** `advance` of an instance. */
    method Advance(d: Instance, options: Opts, timezoneDelta: Option<int>) returns (ret: Instance)
      requires Valid()
      modifies engine, cache
      ensures Valid()
      ensures var zone := d.timezone + Or(timezoneDelta, 0);
              var ms := ToMs(Advanced(options, d.ms, d.timezone), d.ms, zone, false);
              && Served(ret, ms, zone)
              && ret.ms == old(cache.InstantFor(ms, zone)) && ret.timezone == old(cache.LabelFor(ms, zone))
              && (old(cache.Wide(|IntText(ms)|)) ==>
                  cache.Wide(|IntText(ms)|) && ret.ms == ms && ret.createdFor == zone)
      ensures old(cache.Untouched()) ==> cache.Untouched()
    {
      hide ToMs, Advanced, RingHolds, CacheKey, IntText;
      engine.AdvanceBy(options, timezoneDelta, Some(d.ms), Some(d.timezone));
      ret := cache.Create(engine.date, engine.tz);
    }

    /**
     `toTimezone` asks the cache for the same instant in the new zone, where the local year there is not one of
     the years 0 to 99; it gets that instant if the live instances have as many digits.
     */
    method ToTimezone(d: Instance, timezone: int) returns (ret: Instance)
      requires Valid()
      modifies engine, cache
      ensures Valid()
      ensures !TwoDigitYear(Year(Local(d.ms, timezone))) ==>
                ret.ms == old(cache.InstantFor(d.ms, timezone)) && ret.timezone == old(cache.LabelFor(d.ms, timezone))
      ensures !TwoDigitYear(Year(Local(d.ms, timezone))) && old(cache.Wide(|IntText(d.ms)|)) ==>
                cache.Wide(|IntText(d.ms)|) && ret.ms == d.ms && ret.createdFor == timezone
    {
      hide ToMs, RingHolds, CacheKey, IntText, Year, TwoDigitYear, Local, Advanced;
      NothingAdvanced(d.ms, d.timezone);
      ToTimezoneKeeps(d.ms, timezone);
      ret := Advance(d, NO_OPTS, Some(timezone - d.timezone));
    }

    // ----- text

    /** One directive; the date has been shifted to the zone that is shown. */
    method FormatDirective(c: char, timezone: int) returns (s: string)
      requires names.Complete() && engine.tz == 0
      modifies engine
      ensures engine.date == old(engine.date) && engine.tz == 0
      ensures s == DirectiveText(names, c, engine.date, timezone)
    {
      hide Padded, IntText, Year, Month, Date, Hours, Minutes, Seconds, Milliseconds, WeekDay, DayOfYear, Weeks,
           TwelveHour, WalkedDays, WeekDayMove, Rem100;
      DateTimeRoundTrip.Ranges(engine.date);
      WalkedDaysIs(engine.date);
      match c {
        case 'a' => var v := engine.Get(DayOfWeekKey, None, None); s := names.abbreviatedDays[v.value.n];
        case 'A' => var v := engine.Get(DayOfWeekKey, None, None); s := names.days[v.value.n];
        case 'b' => var v := engine.Get(MonthKey, None, None); s := names.abbreviatedMonths[v.value.n - 1];
        case 'B' => var v := engine.Get(MonthKey, None, None); s := names.months[v.value.n - 1];
        case 'd' => var v := engine.Get(DayKey, None, None); s := Pad(v.value.n, 2);
        case 'D' => var v := engine.Get(DayKey, None, None); s := IntText(v.value.n);
        case 'h' => var v := engine.Get(HourKey, None, None); s := IntText(v.value.n);
        case 'H' => var v := engine.Get(HourKey, None, None); s := Pad(v.value.n, 2);
        case 'i' => var v := engine.Get(HourKey, None, None); s := IntText(TwelveHour(v.value.n));
        case 'I' => var v := engine.Get(HourKey, None, None); s := Pad(TwelveHour(v.value.n), 2);
        case 'j' => var v := engine.Get(DayOfYearKey, None, None); s := Pad(v.value.n, 3);
        case 'm' => var v := engine.Get(MonthKey, None, None); s := Pad(v.value.n, 2);
        case 'M' => var v := engine.Get(MinuteKey, None, None); s := Pad(v.value.n, 2);
        case 'p' => var v := engine.Get(HourKey, None, None); s := if v.value.n > 11 then "PM" else "AM";
        case 'S' => var v := engine.Get(SecondKey, None, None); s := Pad(v.value.n, 2);
        case 's' => var v := engine.Get(MillisecondKey, None, None); s := Pad(v.value.n, 3);
        case 'U' => var v := engine.Get(WeekKey(0), None, None); s := Pad(v.value.n, 2);
        case 'W' => var v := engine.Get(WeekKey(1), None, None); s := Pad(v.value.n, 2);
        case 'w' => var v := engine.Get(DayOfWeekKey, None, None); s := IntText(v.value.n);
        case 'y' => var v := engine.Get(YearKey, None, None); s := Pad(Rem100(v.value.n), 2);
        case 'Y' => var v := engine.Get(YearKey, None, None); s := IntText(v.value.n);
        case 'Z' => s := OffsetText(timezone);
        case '%' => s := "%";
        case _ => s := names.host(c, engine.date);
      }
    }

    /** Shifts the shared date, which stays shifted, and replaces the directives of the format in turn. */
    method ToFormattedString(format: string, start: int, timezone: int) returns (s: string)
      requires Valid()
      modifies engine
      ensures s == Format(names, format, start, timezone)
      ensures engine.date == Local(start, timezone) && engine.tz == 0
    {
      hide DirectiveText, Parts, IsLetter, AllText, FirstPart;
      var _, _ := engine.SetCalcState(Some(start - timezone * 60000), Some(0));
      s := "";
      var i := 0;
      while i < |format|
        invariant 0 <= i <= |format|
        invariant engine.date == Local(start, timezone) && engine.tz == 0
        invariant s + AllText(names, Parts(format[i..]), engine.date, timezone) ==
                  Format(names, format, start, timezone)
        decreases |format| - i
      {
        ghost var rest, date := format[i..], engine.date;
        var (part, size) := FirstPart(format[i..]);
        ghost var after := AllText(names, Parts(rest[size..]), date, timezone);
        PartsStep(rest);
        assert 1 <= size <= |rest|;
        assert rest[size..] == format[i + size..];
        TextStep(names, part, Parts(rest[size..]), date, timezone);
        var text;
        match part {
          case Directive(c) => text := FormatDirective(c, timezone);
          case Literal(c) => text := [c];
        }
        assert s + (text + after) == s + text + after;
        s := s + text;
        i := i + size;
      }
      PartsOfNothing(names, format[i..], engine.date, timezone);
      assert s + "" == s;
    }

    /** Reads the string part by part along the format; `None` where a scan throws. */
    method ScanFormat(str: string, fmt: string) returns (r: Option<Fields>)
      ensures var v := ScanAll(names, ParserParts(Parts(fmt)), str, 0, NO_FIELDS);
              r == if v.Some? then Some(v.value.value) else None
    {
      hide ScanPart, Parts, ParserParts;
      var scanner := new Scanner(str);
      var f := NO_FIELDS;
      var parts := ParserParts(Parts(fmt));
      var i := 0;
      while i < |parts|
        invariant 0 <= i <= |parts|
        invariant ScanAll(names, parts, str, 0, NO_FIELDS) == ScanAll(names, parts[i..], str, scanner.scanLocation, f)
      {
        ScanAllStep(names, parts, i, str, scanner.scanLocation, f);
        var next := scanner.ScanNext(names, parts[i], f);
        if next.None? { return None; }
        f := next.value;
        i := i + 1;
      }
      r := Some(f);
    }

    /** `parse`: null where a scan throws, or where the text names another weekday than the date has. */
    method Parse(str: string, fmt: string, now: int) returns (d: Instance?)
      requires Valid()
      modifies engine, cache
      ensures Valid()
      ensures d != null ==> fresh(d) || d in old(cache.live.Values)
      ensures var r := ScanAll(names, ParserParts(Parts(fmt)), str, 0, NO_FIELDS);
              if r.None? then d == null
              else
                var f := r.value.value;
                var zone := Or(f.timezone, engine.timezone);
                var ms := ToMs(WithMeridian(f), now, zone, true);
                var instant, shown := old(cache.InstantFor(ms, zone)), old(cache.LabelFor(ms, zone));
                && (d == null <==> f.dayOfWeek.Some? && WeekDay(Local(instant, shown)) != f.dayOfWeek.value)
                && (d != null ==> d.ms == instant && d.timezone == shown && Served(d, ms, zone))
      ensures var m := DateTimeFormat.Parse(names, str, fmt, now, engine.timezone);
              m.Some? && old(cache.Wide(|IntText(m.value.ms)|)) && old(cache.Untouched()) ==>
                d != null && d.ms == m.value.ms && d.timezone == m.value.timezone
    {
      hide ToMs, RingHolds, CacheKey, IntText, ScanAll, Parts, ParserParts, WeekDay, WithMeridian;
      var f := ScanFormat(str, fmt);
      if f.None? { return null; }
      var made := Create(WithMeridian(f.value), f.value.timezone, now, true);
      d := made;
      if f.value.dayOfWeek.Some? {
        var weekday := engine.Get(DayOfWeekKey, Some(made.ms), Some(made.timezone));
        if weekday.value.n != f.value.dayOfWeek.value { d := null; }
      }
    }

    /**
     A timestamp of the server, relabelled to the machine's zone; null where the text does not parse, and there
     the client throws.  The cached instance is relabelled with it, so that whoever asks for the same instant and
     zone afterwards is given the machine's zone.
     */
    method ParseChililogServerDateTime(s: string, now: int, timezoneOffset: int) returns (d: Instance?)
      requires Valid()
      modifies engine, cache, cache.live.Values
      ensures Valid()
      ensures d != null ==> d.timezone == timezoneOffset
      ensures var m := DateTimeFormat.Parse(names, s, SERVER_FORMAT, now, engine.timezone);
              if m.None? then d == null else
                && d != null && d.ms == old(cache.InstantFor(m.value.ms, m.value.timezone)) ==
                    cache.InstantFor(m.value.ms, m.value.timezone)
                && cache.LabelFor(m.value.ms, m.value.timezone) == timezoneOffset
      ensures var m := DateTimeFormat.Parse(names, s, SERVER_FORMAT, now, engine.timezone);
              m.Some? && old(cache.Wide(|IntText(m.value.ms)|)) && old(cache.Untouched()) ==>
                  d != null && d.ms == m.value.ms
    {
      hide RingHolds, CacheKey, IntText, ScanAll, Parts, ParserParts, ToMs, WeekDay, WithMeridian;
      ServerFormatHasNoWeekDay(names, s);
      d := Parse(s, SERVER_FORMAT, now);
      if d != null {
        d.timezone := timezoneOffset;
      }
    }
  }

  /** A format without a weekday leaves none to check. */
  lemma {:induction false} NoWeekDayNoted(names: Names, ps: seq<Part>, s: string, loc: nat, f: Fields)
    requires !DateTimeRoundTrip.Mentions(ps, "aA") && f.dayOfWeek.None?
    ensures var r := ScanAll(names, ParserParts(ps), s, loc, f); r.Some? ==> r.value.value.dayOfWeek.None?
    decreases |ps|
  {
    hide ScanZone, SkipString, DateTimeFormat.ScanNumber;
    if ps == [] {
    } else if ps[0].Literal? && IsLineEnd(ps[0].c) {
      assert ParserParts(ps) == ParserParts(ps[1..]);
      NoWeekDayNoted(names, ps[1..], s, loc, f);
    } else {
      assert ParserParts(ps)[1..] == ParserParts(ps[1..]);
      var r := ScanPart(names, ps[0], s, loc, f);
      if r.Some? {
        NoWeekDayNoted(names, ps[1..], s, r.value.loc, r.value.value);
      }
    }
  }

  lemma ServerFormatHasNoWeekDay(names: Names, s: string)
    ensures var r := ScanAll(names, ParserParts(Parts(SERVER_FORMAT)), s, 0, NO_FIELDS); r.Some? ==>
            r.value.value.dayOfWeek.None?
  {
    hide Parts, ScanAll, ParserParts, DateTimeRoundTrip.Mentions;
    ClientFormats();
    MentionsWhere(Parts(SERVER_FORMAT), "aA");
    NoWeekDayNoted(names, Parts(SERVER_FORMAT), s, 0, NO_FIELDS);
  }

  lemma NothingAdvanced(t: int, tz: int)
    ensures Advanced(NO_OPTS, t, tz) == NO_OPTS
  {
    hide Year, Month, Date, Hours, Minutes, Seconds, Milliseconds;
  }

  lemma PartsOfNothing(names: Names, fmt: string, local: int, tz: int)
    requires names.Complete() && fmt == ""
    ensures AllText(names, Parts(fmt), local, tz) == ""
  {
  }
}
