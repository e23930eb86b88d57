/** Writing dates after a format string, and the scanner and parser that read them back. */
module DateTimeFormat {
  import opened JsRuntime
  import opened JsDate
  import opened JsText
  import opened DateTimeMath

  /** The localised names; `host` is the machine's own text for `%c`, `%x` and `%X`. */
  datatype Names = Names(
    abbreviatedDays: seq<string>,
    days: seq<string>,
    abbreviatedMonths: seq<string>,
    months: seq<string>,
    host: (char, int) -> string)
  {
    predicate Complete() {
      |abbreviatedDays| == |days| == 7 && |abbreviatedMonths| == |months| == 12
    }
  }

  datatype Part =
    | Directive(c: char)
    | Literal(c: char)

  predicate IsLetter(c: char) {
    c in "aAbBcdDhHiIjmMpsSUWwxXyYZ%"
  }

  predicate IsLineEnd(c: char) {
    c == '\n' || c == '\r' || c == '\U{2028}' || c == '\U{2029}'
  }

  function Parts(fmt: string): seq<Part> {
    if fmt == "" then []
    else if fmt[0] == '%' && |fmt| > 1 && IsLetter(fmt[1]) then [Directive(fmt[1])] + Parts(fmt[2..])
    else [Literal(fmt[0])] + Parts(fmt[1..])
  }

  /** The parser's pattern never matches the end of a line, and skips it. */
  function ParserParts(parts: seq<Part>): seq<Part> {
    if parts == [] then []
    else (if parts[0].Literal? && IsLineEnd(parts[0].c) then [] else [parts[0]]) + ParserParts(parts[1..])
  }

  // ----- writing

  function TwelveHour(h: nat): nat {
    if h == 12 || h == 0 then 12 else (h + 12) % 12
  }

  /** The remainder of JavaScript, with the sign of the dividend. */
  function Rem100(y: int): int {
    if y < 0 then -(-y % 100) else y % 100
  }

  function OffsetText(tz: int): string {
    var offset := -1 * tz;
    var size := if offset < 0 then -offset else offset;
    (if offset >= 0 then "+" else "-") + Padded(IntText(size / 60), 2) + ":" + Padded(IntText(size % 60), 2)
  }

  function DirectiveText(names: Names, c: char, local: int, tz: int): string
    requires names.Complete()
  {
    match c
    case 'a' => names.abbreviatedDays[WeekDay(local)]
    case 'A' => names.days[WeekDay(local)]
    case 'b' => names.abbreviatedMonths[Month(local)]
    case 'B' => names.months[Month(local)]
    case 'd' => Padded(IntText(Date(local)), 2)
    case 'D' => IntText(Date(local))
    case 'h' => IntText(Hours(local))
    case 'H' => Padded(IntText(Hours(local)), 2)
    case 'i' => IntText(TwelveHour(Hours(local)))
    case 'I' => Padded(IntText(TwelveHour(Hours(local))), 2)
    case 'j' => Padded(IntText(DayOfYear(local)), 3)
    case 'm' => Padded(IntText(Month(local) + 1), 2)
    case 'M' => Padded(IntText(Minutes(local)), 2)
    case 'p' => if Hours(local) > 11 then "PM" else "AM"
    case 'S' => Padded(IntText(Seconds(local)), 2)
    case 's' => Padded(IntText(Milliseconds(local)), 3)
    case 'U' => Padded(IntText(WeekOf(0, local)), 2)
    case 'W' => Padded(IntText(WeekOf(1, local)), 2)
    case 'w' => IntText(WeekDay(local))
    case 'y' => Padded(IntText(Rem100(Year(local))), 2)
    case 'Y' => IntText(Year(local))
    case 'Z' => OffsetText(tz)
    case '%' => "%"
    case _ => names.host(c, local)
  }

  function PartText(names: Names, part: Part, local: int, tz: int): string
    requires names.Complete()
  {
    if part.Literal? then [part.c] else DirectiveText(names, part.c, local, tz)
  }

  function AllText(names: Names, parts: seq<Part>, local: int, tz: int): string
    requires names.Complete()
  {
    if parts == [] then "" else PartText(names, parts[0], local, tz) + AllText(names, parts[1..], local, tz)
  }

  lemma TextStep(names: Names, part: Part, rest: seq<Part>, local: int, tz: int)
    requires names.Complete()
    ensures AllText(names, [part] + rest, local, tz) ==
            PartText(names, part, local, tz) + AllText(names, rest, local, tz)
  {
    hide PartText;
    assert ([part] + rest)[1..] == rest;
  }

  lemma {:induction false} AllTextAppend(names: Names, a: seq<Part>, b: seq<Part>, local: int, tz: int)
    requires names.Complete()
    ensures AllText(names, a + b, local, tz) == AllText(names, a, local, tz) + AllText(names, b, local, tz)
    decreases |a|
  {
    hide PartText;
    if a == [] {
      assert a + b == b;
    } else {
      assert (a + b)[1..] == a[1..] + b;
      AllTextAppend(names, a[1..], b, local, tz);
    }
  }

  lemma FiveParts(names: Names, a: Part, b: Part, c: Part, d: Part, e: Part, local: int, tz: int)
    requires names.Complete()
    ensures AllText(names, [a, b, c, d, e], local, tz) ==
            PartText(names, a, local, tz) + PartText(names, b, local, tz) +
            PartText(names, c, local, tz) + PartText(names, d, local, tz) + PartText(names, e, local, tz)
  {
    hide PartText, AllText;
    NoText(names, local, tz);
    TextStep(names, e, [], local, tz);
    TextStep(names, d, [e], local, tz);
    TextStep(names, c, [d, e], local, tz);
    TextStep(names, b, [c, d, e], local, tz);
    TextStep(names, a, [b, c, d, e], local, tz);
    assert [e] + [] == [e] && [d] + [e] == [d, e] && [c] + [d, e] == [c, d, e] && [b] + [c, d, e] == [b, c, d, e];
    assert [a] + [b, c, d, e] == [a, b, c, d, e];
  }

  lemma NoText(names: Names, local: int, tz: int)
    requires names.Complete()
    ensures AllText(names, [], local, tz) == ""
  {
  }

  /** `toFormattedString` of an instant in a time zone. */
  function Format(names: Names, fmt: string, t: int, tz: int): string
    requires names.Complete()
  {
    AllText(names, Parts(fmt), Local(t, tz), tz)
  }

  // ----- scanning

  datatype Fields = Fields(opts: Opts, timezone: Option<int>, meridian: Option<int>, dayOfWeek: Option<int>)

  const NO_FIELDS := Fields(NO_OPTS, None, None, None)

  datatype Scan<+T> = Scan(value: T, loc: nat)

  /** `substr`, which comes back short at the end of the string; nothing stops a scan from going past it. */
  function Substr(s: string, loc: nat, len: nat): (r: string)
    ensures |r| <= len
  {
    if loc >= |s| then "" else if loc + len >= |s| then s[loc..] else s[loc..loc + len]
  }

  /** How many digits a text starts with. */
  function DigitRun(s: string): (k: nat)
    ensures k <= |s| && AllDigits(s[..k])
    ensures k < |s| ==> !IsDigit(s[k])
  {
    if s == "" || !IsDigit(s[0]) then 0
    else
      var k := DigitRun(s[1..]);
      assert forall i :: 0 < i < k + 1 ==> s[i] == s[1..][i - 1];
      k + 1
  }

  function ScanInt(s: string, loc: nat, minLen: nat, maxLen: nat): Option<Scan<nat>> {
    var str := Substr(s, loc, maxLen);
    var k := DigitRun(str);
    if k < minLen then None else Some(Scan(ParseNat(str[..k]), loc + k))
  }

  function SkipString(s: string, loc: nat, str: string): Option<nat> {
    if Substr(s, loc, |str|) == str then Some(loc + |str|) else None
  }

  /** The first name, from number `i` on, that the text continues with. */
  function ScanArray(s: string, loc: nat, ary: seq<string>, i: nat): (r: Option<Scan<nat>>)
    decreases |ary| - i
  {
    if i >= |ary| then None
    else if Substr(s, loc, |ary[i]|) == ary[i] then Some(Scan(i, loc + |ary[i]|))
    else ScanArray(s, loc, ary, i + 1)
  }

  /** The offset in minutes, after its sign. */
  function ScanOffset(s: string, loc: nat): Option<Scan<nat>> {
    var h := ScanInt(s, loc, 2, 2);
    if h.None? then None
    else
      var colon := if Substr(s, h.value.loc, 1) == ":" then 1 else 0;
      var m := ScanInt(s, h.value.loc + colon, 2, 2);
      if m.None? then None else Some(Scan(h.value.value * 60 + m.value.value, m.value.loc))
  }

  /** `%Z`: any other character is skipped, and gives no time zone. */
  function ScanZone(s: string, loc: nat): Option<Scan<Option<int>>> {
    var modifier := Substr(s, loc, 1);
    if modifier == "Z" then Some(Scan(Some(0), loc + 1))
    else if modifier == "+" || modifier == "-" then
      var o := ScanOffset(s, loc + 1);
      if o.None? then None else Some(Scan(Some((if modifier == "+" then -1 else 1) * o.value.value), o.value.loc))
    else Some(Scan(None, loc + 1))
  }

  function Century(y: nat): nat {
    y + (if y > 70 then 1900 else 2000)
  }

  function ScanNumber(names: Names, c: char, s: string, loc: nat): Option<Scan<nat>> {
    match c
    case 'a' => ScanArray(s, loc, names.abbreviatedDays, 0)
    case 'A' => ScanArray(s, loc, names.days, 0)
    case 'b' => ScanArray(s, loc, names.abbreviatedMonths, 0)
    case 'B' => ScanArray(s, loc, names.months, 0)
    case 'p' => ScanArray(s, loc, ["AM", "PM"], 0)
    case 's' => ScanInt(s, loc, 1, 3)
    case 'y' => ScanInt(s, loc, 2, 2)
    case 'Y' => ScanInt(s, loc, 4, 4)
    case _ => if c in "dDhHiImMS" then ScanInt(s, loc, 1, 2) else None
  }

  /** The field that a directive sets. */
  function Put(c: char, v: nat, f: Fields): Fields {
    var o := f.opts;
    match c
    case 'a' => f.(dayOfWeek := Some(v))
    case 'A' => f.(dayOfWeek := Some(v))
    case 'b' => f.(opts := o.(month := Some(v + 1)))
    case 'B' => f.(opts := o.(month := Some(v + 1)))
    case 'm' => f.(opts := o.(month := Some(v)))
    case 'd' => f.(opts := o.(day := Some(v)))
    case 'D' => f.(opts := o.(day := Some(v)))
    case 'p' => f.(meridian := Some(v))
    case 'M' => f.(opts := o.(minute := Some(v)))
    case 'S' => f.(opts := o.(second := Some(v)))
    case 's' => f.(opts := o.(millisecond := Some(v)))
    case 'y' => f.(opts := o.(year := Some(Century(v))))
    case 'Y' => f.(opts := o.(year := Some(v)))
    case _ => f.(opts := o.(hour := Some(v)))
  }

  function ScanDirective(names: Names, c: char, s: string, loc: nat, f: Fields): Option<Scan<Fields>> {
    if c == '%' then
      var r := SkipString(s, loc, "%");
      if r.None? then None else Some(Scan(f, r.value))
    else if c == 'Z' then
      var z := ScanZone(s, loc);
      if z.None? then None else Some(Scan(if z.value.value.Some? then f.(timezone := z.value.value) else f,
                                          z.value.loc))
    else
      var v := ScanNumber(names, c, s, loc);
      if v.None? then None else Some(Scan(Put(c, v.value.value, f), v.value.loc))
  }

  function ScanPart(names: Names, part: Part, s: string, loc: nat, f: Fields): Option<Scan<Fields>> {
    if part.Directive? then ScanDirective(names, part.c, s, loc, f)
    else
      var r := SkipString(s, loc, [part.c]);
      if r.None? then None else Some(Scan(f, r.value))
  }

  function ScanAll(names: Names, parts: seq<Part>, s: string, loc: nat, f: Fields): Option<Scan<Fields>> {
    if parts == [] then Some(Scan(f, loc))
    else
      var r := ScanPart(names, parts[0], s, loc, f);
      if r.None? then None else ScanAll(names, parts[1..], s, r.value.loc, r.value.value)
  }

  // ----- parsing

  function WithMeridian(f: Fields): Opts {
    if f.meridian == Some(1) && f.opts.hour.Some? then f.opts.(hour := Some((f.opts.hour.value + 12) % 24)) else f.opts
  }

  datatype Moment = Moment(ms: int, timezone: int)

  /** `create` from the fields, at the time `now` on a machine in zone `home`; then the weekday is checked. */
  function Completed(f: Fields, now: int, home: int): Option<Moment> {
    var zone := Or(f.timezone, home);
    var ms := ToMs(WithMeridian(f), now, zone, true);
    if f.dayOfWeek.Some? && WeekDay(Local(ms, zone)) != f.dayOfWeek.value then None else Some(Moment(ms, zone))
  }

  function Parse(names: Names, str: string, fmt: string, now: int, home: int): Option<Moment> {
    var r := ScanAll(names, ParserParts(Parts(fmt)), str, 0, NO_FIELDS);
    if r.None? then None else Completed(r.value.value, now, home)
  }
}
