/** What the parser makes of the text that the formatter writes. */
module DateTimeRoundTrip {
  import opened JsRuntime
  import opened JsDate
  import opened JsText
  import DateTimeMath
  import opened DateTimeFormat

  // ----- one number

  lemma SubstrMiddle(pre: string, text: string, rest: string, len: nat)
    ensures var s := pre + text + rest;
            && (len <= |text| ==> Substr(s, |pre|, len) == text[..len])
            && (len > |text| ==> Substr(s, |pre|, len) == text + Substr(rest, 0, len - |text|))
  {
    var s := pre + text + rest;
    assert s[|pre|..] == text + rest;
    if len <= |text| {
      assert s[|pre|..|pre| + len] == text[..len];
    } else if len < |text| + |rest| {
      assert s[|pre|..|pre| + len] == text + rest[..len - |text|];
    }
  }

  lemma {:induction false} DigitRunIs(digits: string, rest: string)
    requires AllDigits(digits) && (rest == "" || !IsDigit(rest[0]))
    ensures DigitRun(digits + rest) == |digits|
  {
    var s := digits + rest;
    var k := DigitRun(s);
    if digits != "" {
      assert s[1..] == digits[1..] + rest;
      DigitRunIs(digits[1..], rest);
    }
  }

  /** A number of digits that fits is read in full, and no further. */
  lemma {:induction false} ScanIntReads(pre: string, digits: string, rest: string, minLen: nat, maxLen: nat)
    requires AllDigits(digits) && minLen <= |digits| <= maxLen
    requires |digits| == maxLen || rest == "" || !IsDigit(rest[0])
    ensures ScanInt(pre + digits + rest, |pre|, minLen, maxLen) == Some(Scan(ParseNat(digits), |pre| + |digits|))
  {
    hide DigitRun, AllDigits, ParseNat, IsDigit, Substr;
    var str := Substr(pre + digits + rest, |pre|, maxLen);
    SubstrOfDigits(pre, digits, rest, maxLen);
    assert str[..|digits|] == digits;
  }

  lemma SubstrOfDigits(pre: string, digits: string, rest: string, maxLen: nat)
    requires AllDigits(digits) && |digits| <= maxLen
    requires |digits| == maxLen || rest == "" || !IsDigit(rest[0])
    ensures var str := Substr(pre + digits + rest, |pre|, maxLen);
            |str| >= |digits| && str[..|digits|] == digits && DigitRun(str) == |digits|
  {
    hide AllDigits, IsDigit, DigitRun;
    var more := Substr(rest, 0, maxLen - |digits|);
    SubstrMiddle(pre, digits, rest, maxLen);
    assert digits[..|digits|] == digits == digits + "";
    if |digits| < maxLen {
      assert Substr(pre + digits + rest, |pre|, maxLen) == digits + more;
      assert (digits + more)[..|digits|] == digits;
      assert more != "" ==> more[0] == rest[0];
      DigitRunIs(digits, more);
    } else {
      DigitRunIs(digits, "");
    }
  }

  predicate IsPrefix(a: string, b: string) {
    |a| <= |b| && b[..|a|] == a
  }

  /** No name is the beginning of a later one. */
  predicate Telling(ary: seq<string>) {
    forall i, j :: 0 <= i < j < |ary| ==> !IsPrefix(ary[i], ary[j]) && !IsPrefix(ary[j], ary[i])
  }

  lemma {:induction false} ScanArrayReads(pre: string, ary: seq<string>, rest: string, i: nat, n: nat)
    requires Telling(ary) && i <= n < |ary|
    ensures ScanArray(pre + ary[n] + rest, |pre|, ary, i) == Some(Scan(n, |pre| + |ary[n]|))
    decreases n - i
  {
    hide Telling, IsPrefix, Substr;
    if i < n {
      assert !IsPrefix(ary[i], ary[n]) && !IsPrefix(ary[n], ary[i]) by { TellingAt(ary, i, n); }
      OnlyPrefixes(pre, ary[n], rest, ary[i]);
      ScanArrayReads(pre, ary, rest, i + 1, n);
    } else {
      SubstrMiddle(pre, ary[n], rest, |ary[n]|);
      assert ary[n][..|ary[n]|] == ary[n];
    }
  }

  lemma TellingAt(ary: seq<string>, i: nat, n: nat)
    requires Telling(ary) && i < n < |ary|
    ensures !IsPrefix(ary[i], ary[n]) && !IsPrefix(ary[n], ary[i])
  {
  }

  lemma OnlyPrefixes(pre: string, text: string, rest: string, name: string)
    requires !IsPrefix(name, text) && !IsPrefix(text, name)
    ensures Substr(pre + text + rest, |pre|, |name|) != name
  {
    SubstrMiddle(pre, text, rest, |name|);
    if |name| > |text| {
      assert (text + Substr(rest, 0, |name| - |text|))[..|text|] == text;
    }
  }

  /** The number that a directive stands for. */
  function NumberFor(c: char, local: int): int {
    match c
    case 'a' => WeekDay(local)
    case 'A' => WeekDay(local)
    case 'b' => Month(local)
    case 'B' => Month(local)
    case 'm' => Month(local) + 1
    case 'd' => Date(local)
    case 'D' => Date(local)
    case 'h' => Hours(local)
    case 'H' => Hours(local)
    case 'i' => TwelveHour(Hours(local))
    case 'I' => TwelveHour(Hours(local))
    case 'M' => Minutes(local)
    case 'p' => if Hours(local) > 11 then 1 else 0
    case 'S' => Seconds(local)
    case 's' => Milliseconds(local)
    case 'y' => Rem100(Year(local))
    case _ => Year(local)
  }

  /** The directives that the parser reads as digits, and how many digits it takes at most. */
  function MaxDigits(c: char): nat {
    if c in "dDhHiImMSy" then 2 else if c == 's' then 3 else if c == 'Y' then 4 else 0
  }

  predicate Unpadded(c: char) {
    c in "Dhi"
  }

  /**
   Which instants a directive can tell: years of four digits, the hundred years that two digits can mean,
   offsets below 100 hours.
   */
  predicate Fits(names: Names, c: char, local: int, tz: int) {
    match c
    case 'Y' => 1000 <= Year(local) <= 9999
    case 'y' => 1971 <= Year(local) <= 2070
    case 'Z' => -6000 < tz < 6000
    case 'a' => Telling(names.abbreviatedDays)
    case 'A' => Telling(names.days)
    case 'b' => Telling(names.abbreviatedMonths)
    case 'B' => Telling(names.months)
    case _ => true
  }

  lemma Small()
    ensures Pow10(1) == 10 && Pow10(2) == 100 && Pow10(3) == 1000 && Pow10(4) == 10000
  {
  }

  lemma PaddedNumber(n: nat, w: nat)
    requires (w == 2 && n < 100) || (w == 3 && n < 1000)
    ensures var s := Padded(IntText(n), w); |s| == w && AllDigits(s) && ParseNat(s) == n
  {
    hide Pow10;
    Small();
    PaddedReadsBack(n, w);
  }

  lemma PlainNumber(n: nat, w: nat)
    requires (w == 2 && n < 100) || (w == 4 && 1000 <= n < 10000)
    ensures var s := IntText(n); 1 <= |s| <= w && (w == 4 ==> |s| == 4) && AllDigits(s) && ParseNat(s) == n
  {
    hide Pow10;
    Small();
    ReadsBack(n);
    Width(n, w);
    Width(n, 3);
  }

  lemma Ranges(local: int)
    ensures Hours(local) < 24 && Minutes(local) < 60 && Seconds(local) < 60 && Milliseconds(local) < 1000
    ensures Month(local) < 12 && 1 <= Date(local) <= 31 && WeekDay(local) < 7 && TwelveHour(Hours(local)) <= 12
  {
    hide Month;
    TimeFields(local);
  }

  /** The text of a numeric directive is the number it stands for, in few enough digits. */
  lemma DigitsFor(names: Names, c: char, local: int, tz: int)
    requires names.Complete() && MaxDigits(c) > 0 && Fits(names, c, local, tz)
    ensures var s := DirectiveText(names, c, local, tz);
            && AllDigits(s) && 1 <= |s| <= MaxDigits(c) && (!Unpadded(c) ==> |s| == MaxDigits(c))
            && NumberFor(c, local) == ParseNat(s)
  {
    hide Hours, Minutes, Seconds, Milliseconds, Month, Date, Year, WeekDay, Padded, IntText, ParseNat, AllDigits,
         TwelveHour;
    Ranges(local);
    if c == 'Y' {
      PlainNumber(Year(local), 4);
    } else if Unpadded(c) {
      PlainNumber(NumberFor(c, local), 2);
    } else {
      PaddedNumber(NumberFor(c, local), MaxDigits(c));
    }
  }

  predicate StartsClean(rest: string) {
    rest == "" || !IsDigit(rest[0])
  }

  lemma NumberReadsBack(names: Names, c: char, pre: string, rest: string, local: int, tz: int)
    requires names.Complete() && MaxDigits(c) > 0 && Fits(names, c, local, tz)
    requires Unpadded(c) ==> StartsClean(rest)
    ensures var text := DirectiveText(names, c, local, tz);
            NumberFor(c, local) >= 0 && ScanNumber(names, c, pre + text + rest, |pre|) ==
                Some(Scan(NumberFor(c, local), |pre| + |text|))
  {
    hide DirectiveText, NumberFor, Fits, ParseNat, AllDigits, ScanInt;
    DigitsFor(names, c, local, tz);
    var text := DirectiveText(names, c, local, tz);
    ScanIntReads(pre, text, rest, if c == 'Y' then 4 else if c == 'y' then 2 else 1, MaxDigits(c));
  }

  lemma NameReadsBack(names: Names, c: char, pre: string, rest: string, local: int, tz: int)
    requires names.Complete() && c in "aAbBp" && Fits(names, c, local, tz)
    ensures var text := DirectiveText(names, c, local, tz);
            NumberFor(c, local) >= 0 && ScanNumber(names, c, pre + text + rest, |pre|) ==
                Some(Scan(NumberFor(c, local), |pre| + |text|))
  {
    hide Hours, Month, WeekDay, ScanArray, Telling;
    Ranges(local);
    match c {
      case 'a' => ScanArrayReads(pre, names.abbreviatedDays, rest, 0, WeekDay(local));
      case 'A' => ScanArrayReads(pre, names.days, rest, 0, WeekDay(local));
      case 'b' => ScanArrayReads(pre, names.abbreviatedMonths, rest, 0, Month(local));
      case 'B' => ScanArrayReads(pre, names.months, rest, 0, Month(local));
      case _ =>
        MeridiansTell();
        ScanArrayReads(pre, ["AM", "PM"], rest, 0, if Hours(local) > 11 then 1 else 0);
    }
  }

  lemma MeridiansTell()
    ensures Telling(["AM", "PM"])
  {
    assert "AM"[0] != "PM"[0];
    assert "AM"[..2] == "AM" && "PM"[..2] == "PM";
  }

  // ----- the time zone

  /** `hh:mm` gives the number of minutes. */
  lemma OffsetReadsBack(pre: string, size: nat, rest: string)
    requires size < 6000
    ensures var text := Padded(IntText(size / 60), 2) + ":" + Padded(IntText(size % 60), 2);
            ScanOffset(pre + text + rest, |pre|) == Some(Scan(size, |pre| + |text|))
  {
    hide Padded, IntText, ScanInt, AllDigits, ParseNat;
    var h, m := Padded(IntText(size / 60), 2), Padded(IntText(size % 60), 2);
    PaddedNumber(size / 60, 2);
    PaddedNumber(size % 60, 2);
    var s := pre + (h + ":" + m) + rest;
    assert s == pre + h + (":" + m + rest) && s == (pre + h) + ":" + (m + rest) && s == (pre + h + ":") + m + rest;
    ScanIntReads(pre, h, ":" + m + rest, 2, 2);
    SubstrMiddle(pre + h, ":", m + rest, 1);
    ScanIntReads(pre + h + ":", m, rest, 2, 2);
    assert size / 60 * 60 + size % 60 == size;
  }

  lemma ZoneReadsBack(pre: string, tz: int, rest: string)
    requires -6000 < tz < 6000
    ensures ScanZone(pre + OffsetText(tz) + rest, |pre|) == Some(Scan(Some(tz), |pre| + |OffsetText(tz)|))
  {
    hide Padded, IntText, ScanOffset;
    var size := if tz < 0 then -tz else tz;
    var sign := if tz <= 0 then "+" else "-";
    var text := Padded(IntText(size / 60), 2) + ":" + Padded(IntText(size % 60), 2);
    assert OffsetText(tz) == sign + text;
    var s := pre + OffsetText(tz) + rest;
    assert s == (pre + sign) + text + rest && s == pre + sign + (text + rest);
    SubstrMiddle(pre, sign, text + rest, 1);
    assert sign[..1] == sign;
    OffsetReadsBack(pre + sign, size, rest);
  }

  /** A literal `Z` reads as UTC. */
  lemma ZuluReadsBack(pre: string, rest: string)
    ensures ScanZone(pre + "Z" + rest, |pre|) == Some(Scan(Some(0), |pre| + 1))
  {
    SubstrMiddle(pre, "Z", rest, 1);
  }

  // ----- one part

  /** What the parser notes for a part. */
  function Noted(part: Part, local: int, tz: int, f: Fields): Fields {
    if part.Literal? || part.c == '%' then f
    else if part.c == 'Z' then f.(timezone := Some(tz))
    else if NumberFor(part.c, local) >= 0 then Put(part.c, NumberFor(part.c, local), f)
    else f
  }

  predicate Readable(part: Part) {
    if part.Literal? then !IsLineEnd(part.c) else part.c in "aAbBp%Z" || MaxDigits(part.c) > 0
  }

  /** A part written one way may be read another way only if it is the literal `Z` of UTC. */
  predicate ReadAs(w: Part, r: Part, tz: int) {
    w == r || (w == Literal('Z') && r == Directive('Z') && tz == 0)
  }

  lemma PartReadsBack(names: Names, w: Part, r: Part, pre: string, rest: string, local: int, tz: int, f: Fields)
    requires names.Complete() && Readable(r) && ReadAs(w, r, tz)
    requires r.Directive? ==> Fits(names, r.c, local, tz)
    requires r.Directive? && Unpadded(r.c) ==> StartsClean(rest)
    ensures var text := PartText(names, w, local, tz);
            ScanPart(names, r, pre + text + rest, |pre|, f) == Some(Scan(Noted(r, local, tz, f), |pre| + |text|))
  {
    hide ScanZone, OffsetText, ScanNumber, NumberFor, Put, Fits, DirectiveText;
    var text := PartText(names, w, local, tz);
    OtherTexts(names, local, tz);
    if r.Literal? {
      SubstrMiddle(pre, text, rest, 1);
    } else if r.c == 'Z' {
      if w.Literal? { ZuluReadsBack(pre, rest); }
          else { assert -6000 < tz < 6000 by { ZoneFits(names, local, tz); } ZoneReadsBack(pre, tz, rest); }
    } else if r.c == '%' {
      SubstrMiddle(pre, text, rest, 1);
    } else if r.c in "aAbBp" {
      NameReadsBack(names, r.c, pre, rest, local, tz);
    } else {
      NumberReadsBack(names, r.c, pre, rest, local, tz);
    }
  }

  lemma OtherTexts(names: Names, local: int, tz: int)
    requires names.Complete()
    ensures DirectiveText(names, '%', local, tz) == "%" && DirectiveText(names, 'Z', local, tz) == OffsetText(tz)
  {
  }

  lemma ZoneFits(names: Names, local: int, tz: int)
    ensures Fits(names, 'Z', local, tz) <==> -6000 < tz < 6000
  {
  }

  // ----- a whole format

  function NotedAll(ps: seq<Part>, local: int, tz: int, f: Fields): Fields {
    if ps == [] then f else NotedAll(ps[1..], local, tz, Noted(ps[0], local, tz, f))
  }

  /** Parts whose text never starts with a digit. */
  predicate Clean(part: Part) {
    if part.Literal? then !IsDigit(part.c) else part.c in "p%Z"
  }

  /** A directive without padding must not run into more digits. */
  predicate Delimited(ps: seq<Part>) {
    forall i :: 0 <= i < |ps| - 1 && ps[i].Directive? && Unpadded(ps[i].c) ==> Clean(ps[i + 1])
  }

  predicate AllReadAs(ws: seq<Part>, rs: seq<Part>, tz: int) {
    |ws| == |rs| && forall i :: 0 <= i < |ws| ==> ReadAs(ws[i], rs[i], tz)
  }

  predicate AllReadable(names: Names, rs: seq<Part>, local: int, tz: int) {
    forall i :: 0 <= i < |rs| ==> Readable(rs[i]) && (rs[i].Directive? ==> Fits(names, rs[i].c, local, tz))
  }

  lemma CleanText(names: Names, ps: seq<Part>, local: int, tz: int)
    requires names.Complete() && (ps == [] || Clean(ps[0]))
    ensures StartsClean(AllText(names, ps, local, tz))
  {
    if ps != [] {
      CleanPart(names, ps[0], local, tz);
    }
  }

  lemma CleanPart(names: Names, part: Part, local: int, tz: int)
    requires names.Complete() && Clean(part)
    ensures var s := PartText(names, part, local, tz); s != "" && !IsDigit(s[0])
  {
    hide Padded, IntText, Hours;
  }

  lemma {:induction false} AllReadsBack(names: Names, ws: seq<Part>, rs: seq<Part>, pre: string, local: int, tz: int,
                                        f: Fields)
    requires names.Complete() && Delimited(ws) && AllReadAs(ws, rs, tz) && AllReadable(names, rs, local, tz)
    ensures var text := AllText(names, ws, local, tz);
            ScanAll(names, rs, pre + text, |pre|, f) == Some(Scan(NotedAll(rs, local, tz, f), |pre + text|))
    decreases |ws|
  {
    hide PartText, ScanPart, Noted, Fits, Readable, Clean, StartsClean, Unpadded;
    if ws == [] {
      assert pre + "" == pre;
    } else {
      var text, rest := PartText(names, ws[0], local, tz), AllText(names, ws[1..], local, tz);
      assert pre + AllText(names, ws, local, tz) == pre + text + rest;
      if rs[0].Directive? && Unpadded(rs[0].c) {
        UnpaddedSame(ws[0], rs[0], tz);
        CleanText(names, ws[1..], local, tz);
      }
      PartReadsBack(names, ws[0], rs[0], pre, rest, local, tz, f);
      AllReadsBack(names, ws[1..], rs[1..], pre + text, local, tz, Noted(rs[0], local, tz, f));
    }
  }

  lemma UnpaddedSame(w: Part, r: Part, tz: int)
    requires ReadAs(w, r, tz) && r.Directive? && Unpadded(r.c)
    ensures w == r
  {
  }

  // ----- what is noted

  predicate Says(part: Part, cs: string) {
    part.Directive? && part.c in cs
  }

  predicate Mentions(ps: seq<Part>, cs: string) {
    ps != [] && (Says(ps[0], cs) || Mentions(ps[1..], cs))
  }

  function Merge(b: bool, v: int, x: Option<int>): Option<int> {
    if b then Some(v) else x
  }

  function HourNoted(twelve: bool, local: int): int {
    if twelve then TwelveHour(Hours(local)) else Hours(local)
  }

  /** The fields of `f`, those that the flags name replaced by the instant's own. */
  function Overlaid(year: bool, month: bool, day: bool, hour: bool, minute: bool, second: bool, ms: bool,
                    zone: bool, meridian: bool, weekday: bool, twelve: bool, local: int, tz: int, f: Fields): Fields {
    Fields(DateTimeMath.Opts(Merge(year, Year(local), f.opts.year), Merge(month, Month(local) + 1, f.opts.month),
                             Merge(day, Date(local), f.opts.day),
                Merge(hour, HourNoted(twelve, local), f.opts.hour), Merge(minute, Minutes(local), f.opts.minute),
                Merge(second, Seconds(local), f.opts.second), Merge(ms, Milliseconds(local), f.opts.millisecond)),
           Merge(zone, tz, f.timezone), Merge(meridian, if Hours(local) > 11 then 1 else 0, f.meridian),
           Merge(weekday, WeekDay(local), f.dayOfWeek))
  }

  function PartNotes(part: Part, twelve: bool, local: int, tz: int, f: Fields): Fields {
    Overlaid(Says(part, "yY"), Says(part, "bBm"), Says(part, "dD"), Says(part, "hHiI"), Says(part, "M"),
             Says(part, "S"), Says(part, "s"),
             Says(part, "Z"), Says(part, "p"), Says(part, "aA"), twelve, local, tz, f)
  }

  function FormatNotes(ps: seq<Part>, twelve: bool, local: int, tz: int, f: Fields): Fields {
    Overlaid(Mentions(ps, "yY"), Mentions(ps, "bBm"), Mentions(ps, "dD"), Mentions(ps, "hHiI"), Mentions(ps, "M"),
             Mentions(ps, "S"),
             Mentions(ps, "s"), Mentions(ps, "Z"), Mentions(ps, "p"), Mentions(ps, "aA"), twelve, local, tz, f)
  }

  /** A format that shows the hour on one kind of clock: `twelve` or twenty-four hours. */
  predicate Clock(ps: seq<Part>, twelve: bool) {
    !Mentions(ps, if twelve then "hH" else "iI")
  }

  lemma PartNoted(names: Names, part: Part, twelve: bool, local: int, tz: int, f: Fields)
    requires Readable(part) && (part.Directive? ==> Fits(names, part.c, local, tz)) &&
             !Says(part, if twelve then "hH" else "iI")
    ensures Noted(part, local, tz, f) == PartNotes(part, twelve, local, tz, f)
  {
    hide Hours, Minutes, Seconds, Milliseconds, Month, Date, Year, WeekDay, TwelveHour, Telling, Overlaid;
    if part.Directive? {
      YearNumber(names, part.c, local, tz);
      DirectiveNoted(part.c, twelve, local, tz, f);
    }
    OverlaidNothing(twelve, local, tz, f);
  }

  lemma OverlaidNothing(twelve: bool, local: int, tz: int, f: Fields)
    ensures Overlaid(false, false, false, false, false, false, false, false, false, false, twelve, local, tz, f) == f
  {
    hide Hours, Minutes, Seconds, Milliseconds, Month, Date, Year, WeekDay, TwelveHour, HourNoted;
  }

  lemma YearNumber(names: Names, c: char, local: int, tz: int)
    requires Fits(names, c, local, tz)
    ensures c == 'y' ==> NumberFor(c, local) >= 0 && Century(NumberFor(c, local)) == Year(local)
    ensures c == 'Y' ==> Year(local) >= 0
  {
    hide Year, Telling;
  }

  lemma DirectiveNoted(c: char, twelve: bool, local: int, tz: int, f: Fields)
    requires Readable(Directive(c)) && !Says(Directive(c), if twelve then "hH" else "iI")
    requires c == 'y' ==> NumberFor(c, local) >= 0 && Century(NumberFor(c, local)) == Year(local)
    requires c == 'Y' ==> Year(local) >= 0
    ensures Noted(Directive(c), local, tz, f) == PartNotes(Directive(c), twelve, local, tz, f)
  {
    hide Hours, Minutes, Seconds, Milliseconds, Month, Date, Year, WeekDay, TwelveHour, Century, Rem100;
    match c {
      case 'a' => case 'A' => case 'b' => case 'B' => case 'm' => case 'd' => case 'D' =>
      case 'h' => case 'H' => case 'i' => case 'I' => case 'M' => case 'p' => case 'S' => case 's' =>
      case 'y' => case 'Y' => case 'Z' => case _ =>
    }
  }

  lemma OverlaidTwice(a: Part, ps: seq<Part>, twelve: bool, local: int, tz: int, f: Fields)
    requires ps != [] && a == ps[0]
    ensures FormatNotes(ps[1..], twelve, local, tz, PartNotes(a, twelve, local, tz, f)) ==
            FormatNotes(ps, twelve, local, tz, f)
  {
    hide Hours, Minutes, Seconds, Milliseconds, Month, Date, Year, WeekDay, TwelveHour, HourNoted, Says;
  }

  lemma {:induction false} AllNoted(names: Names, ps: seq<Part>, twelve: bool, local: int, tz: int, f: Fields)
    requires AllReadable(names, ps, local, tz) && Clock(ps, twelve)
    ensures NotedAll(ps, local, tz, f) == FormatNotes(ps, twelve, local, tz, f)
    decreases |ps|
  {
    hide Readable, Fits, Noted, PartNotes, Overlaid, FormatNotes;
    if ps == [] {
      NothingNoted(twelve, local, tz, f);
    } else {
      PartNoted(names, ps[0], twelve, local, tz, f);
      AllNoted(names, ps[1..], twelve, local, tz, Noted(ps[0], local, tz, f));
      OverlaidTwice(ps[0], ps, twelve, local, tz, f);
    }
  }

  lemma NothingNoted(twelve: bool, local: int, tz: int, f: Fields)
    ensures FormatNotes([], twelve, local, tz, f) == f
  {
    hide Hours, Minutes, Seconds, Milliseconds, Month, Date, Year, WeekDay, TwelveHour, HourNoted;
  }
}
