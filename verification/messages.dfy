/** How the stream page and the search page turn the text of a log entry into markup. */
module Messages {

  /** `replace(/c/g, t)` of one character. */
  function ReplaceAll(s: string, c: char, t: string): string {
    if s == "" then "" else (if s[0] == c then t else [s[0]]) + ReplaceAll(s[1..], c, t)
  }

  predicate IsBreakable(c: char) {
    c in ".;:,_-"
  }

  /** `replace(/([\.;:,_-])/g, '$1<wbr/>')` */
  function AddBreaks(s: string): string {
    if s == "" then "" else (if IsBreakable(s[0]) then [s[0]] + "<wbr/>" else [s[0]]) + AddBreaks(s[1..])
  }

  const BLANK := "&nbsp;"

  /** The replacements in their order. */
  function Escaped(message: string): string {
    ReplaceAll(ReplaceAll(ReplaceAll(message, '&', "&amp;"), '<', "&lt;"), '>', "&gt;")
  }

  function Rendered(message: string): string {
    if message == "" then BLANK
    else ReplaceAll(if |message| > 100 then AddBreaks(Escaped(message)) else Escaped(message), '\n', "<br/>")
  }

  /** The stream page. */
  method WriteLogEntry(message: string) returns (formattedMessage: string)
    ensures formattedMessage == Rendered(message)
  {
    formattedMessage := message;
    if message == "" {
      formattedMessage := "&nbsp;";
    } else {
      formattedMessage := ReplaceAll(formattedMessage, '&', "&amp;");
      formattedMessage := ReplaceAll(formattedMessage, '<', "&lt;");
      formattedMessage := ReplaceAll(formattedMessage, '>', "&gt;");
      if |message| > 100 {
        formattedMessage := AddBreaks(formattedMessage);
      }
      formattedMessage := ReplaceAll(formattedMessage, '\n', "<br/>");
    }
  }

  datatype Marked = Undefined | Text(s: string)

  /**
   The search page without keywords.  For an empty message it notes the blank, and then overwrites it with
   a variable that was never assigned.
   */
  method InjectKeywordHighlighting(message: string) returns (markedUpMessage: Marked)
    ensures markedUpMessage == if message == "" then Undefined else Text(Rendered(message))
    ensures markedUpMessage == Text(Rendered(message)) <==> message != ""
  {
    var markedUpMsg := Undefined;
    if message == "" {
      markedUpMessage := Text("&nbsp;");
    } else {
      var text := message;
      text := ReplaceAll(text, '&', "&amp;");
      text := ReplaceAll(text, '<', "&lt;");
      text := ReplaceAll(text, '>', "&gt;");
      if |message| > 100 {
        text := AddBreaks(text);
      }
      text := ReplaceAll(text, '\n', "<br/>");
      markedUpMsg := Text(text);
    }
    markedUpMessage := markedUpMsg;
  }

  // ----- one character at a time

  /**
   What becomes of one character; in a long message each of six punctuation characters, also that of an entity, gets
   a break.
   */
  function Encoded(c: char, long: bool): string {
    if c == '&' then if long then "&amp;<wbr/>" else "&amp;"
    else if c == '<' then if long then "&lt;<wbr/>" else "&lt;"
    else if c == '>' then if long then "&gt;<wbr/>" else "&gt;"
    else if c == '\n' then "<br/>"
    else if long && c in ['.', ';', ':', ',', '_', '-'] then [c] + "<wbr/>"
    else [c]
  }

  function EncodedAll(s: string, long: bool): string {
    if s == "" then "" else Encoded(s[0], long) + EncodedAll(s[1..], long)
  }

  lemma {:induction false} ReplaceAppend(a: string, b: string, c: char, t: string)
    ensures ReplaceAll(a + b, c, t) == ReplaceAll(a, c, t) + ReplaceAll(b, c, t)
  {
    if a == "" {
      assert a + b == b;
    } else {
      assert (a + b)[1..] == a[1..] + b;
      ReplaceAppend(a[1..], b, c, t);
    }
  }

  lemma {:induction false} BreaksAppend(a: string, b: string)
    ensures AddBreaks(a + b) == AddBreaks(a) + AddBreaks(b)
  {
    if a == "" {
      assert a + b == b;
    } else {
      assert (a + b)[1..] == a[1..] + b;
      BreaksAppend(a[1..], b);
    }
  }

  /** The whole pipeline, for a message of which only its being long matters. */
  function Pipeline(s: string, long: bool): string {
    ReplaceAll(if long then AddBreaks(Escaped(s)) else Escaped(s), '\n', "<br/>")
  }

  lemma PipelineAppend(a: string, b: string, long: bool)
    ensures Pipeline(a + b, long) == Pipeline(a, long) + Pipeline(b, long)
  {
    hide ReplaceAll, AddBreaks;
    ReplaceAppend(a, b, '&', "&amp;");
    var a1, b1 := ReplaceAll(a, '&', "&amp;"), ReplaceAll(b, '&', "&amp;");
    ReplaceAppend(a1, b1, '<', "&lt;");
    var a2, b2 := ReplaceAll(a1, '<', "&lt;"), ReplaceAll(b1, '<', "&lt;");
    ReplaceAppend(a2, b2, '>', "&gt;");
    var a3, b3 := Escaped(a), Escaped(b);
    BreaksAppend(a3, b3);
    var a4, b4 := if long then AddBreaks(a3) else a3, if long then AddBreaks(b3) else b3;
    ReplaceAppend(a4, b4, '\n', "<br/>");
  }

  /** Text without the character stays as it is. */
  lemma {:induction false} ReplaceNone(s: string, c: char, t: string)
    requires c !in s
    ensures ReplaceAll(s, c, t) == s
  {
    if s != "" {
      ReplaceNone(s[1..], c, t);
    }
  }

  lemma {:induction false} NoBreaks(s: string)
    requires forall i :: 0 <= i < |s| ==> !IsBreakable(s[i])
    ensures AddBreaks(s) == s
  {
    if s != "" {
      NoBreaks(s[1..]);
    }
  }

  lemma ReplaceOne(c: char, x: char, t: string)
    ensures ReplaceAll([x], c, t) == if x == c then t else [x]
  {
    assert ReplaceAll("", c, t) == "";
    assert [x][1..] == "";
  }

  /** An entity with its semicolon at the end. */
  lemma EntityBreaks(e: string)
    requires e == "&amp;" || e == "&lt;" || e == "&gt;"
    ensures AddBreaks(e) == e + "<wbr/>"
  {
    hide AddBreaks;
    if e == "&amp;" {
      EntityEnds("&amp");
      assert e == "&amp" + ";";
    } else if e == "&lt;" {
      EntityEnds("&lt");
      assert e == "&lt" + ";";
    } else {
      EntityEnds("&gt");
      assert e == "&gt" + ";";
    }
  }

  lemma EntityEnds(front: string)
    requires front == "&amp" || front == "&lt" || front == "&gt"
    ensures AddBreaks(front + ";") == front + ";" + "<wbr/>"
  {
    hide AddBreaks;
    EntityFront(front);
    SemicolonBreaks();
    BreaksAppend(front, ";");
    assert front + ";" + "<wbr/>" == front + (";" + "<wbr/>") && ";" + "<wbr/>" == ";<wbr/>";
  }

  lemma EntityFront(front: string)
    requires front == "&amp" || front == "&lt" || front == "&gt"
    ensures AddBreaks(front) == front
  {
    NoBreaks(front);
  }

  lemma SemicolonBreaks()
    ensures AddBreaks(";") == ";<wbr/>"
  {
    assert AddBreaks("") == "";
  }

  lemma EscapedOne(c: char)
    ensures Escaped([c]) == if c == '&' then "&amp;" else if c == '<' then "&lt;" else if c == '>' then "&gt;" else [c]
  {
    hide ReplaceAll;
    ReplaceOne('&', c, "&amp;");
    ReplaceOne('<', c, "&lt;");
    ReplaceOne('>', c, "&gt;");
    ReplaceNone("&amp;", '<', "&lt;");
    ReplaceNone("&amp;", '>', "&gt;");
    ReplaceNone("&lt;", '>', "&gt;");
  }

  lemma PipelineOne(c: char, long: bool)
    ensures Pipeline([c], long) == Encoded(c, long)
  {
    hide ReplaceAll, AddBreaks, Escaped;
    EscapedOne(c);
    var e := Escaped([c]);
    if c == '&' || c == '<' || c == '>' {
      EntityBreaks(e);
      ReplaceNone(e, '\n', "<br/>");
      ReplaceNone(e + "<wbr/>", '\n', "<br/>");
    } else {
      BreakOne(c);
      ReplaceOne('\n', c, "<br/>");
      if c != '\n' {
        ReplaceNone([c] + "<wbr/>", '\n', "<br/>");
      }
    }
  }

  lemma BreakOne(c: char)
    ensures AddBreaks([c]) == if c in ['.', ';', ':', ',', '_', '-'] then [c] + "<wbr/>" else [c]
  {
    assert AddBreaks("") == "";
    assert [c][1..] == "";
  }

  lemma {:induction false} PipelineIs(s: string, long: bool)
    ensures Pipeline(s, long) == EncodedAll(s, long)
  {
    hide Pipeline, Encoded;
    if s == "" {
      PipelineEmpty(long);
    } else {
      assert s == [s[0]] + s[1..];
      PipelineAppend([s[0]], s[1..], long);
      PipelineOne(s[0], long);
      PipelineIs(s[1..], long);
    }
  }

  lemma PipelineEmpty(long: bool)
    ensures Pipeline("", long) == ""
  {
  }

  /** The replacements one after the other are one map of the characters. */
  lemma {:induction false} Simultaneous(message: string)
    requires message != ""
    ensures Rendered(message) == EncodedAll(message, |message| > 100)
  {
    hide ReplaceAll, AddBreaks, Escaped;
    PipelineIs(message, |message| > 100);
  }

  // ----- reading it back

  predicate Starts(s: string, t: string) {
    |t| <= |s| && s[..|t|] == t
  }

  /** Leaves out break opportunities, turns line breaks into newlines, and decodes the entities. */
  function Decode(s: string): string {
    if s == "" then ""
    else if Starts(s, "<wbr/>") then Decode(s[6..])
    else if Starts(s, "<br/>") then "\n" + Decode(s[5..])
    else if Starts(s, "&amp;") then "&" + Decode(s[5..])
    else if Starts(s, "&lt;") then "<" + Decode(s[4..])
    else if Starts(s, "&gt;") then ">" + Decode(s[4..])
    else [s[0]] + Decode(s[1..])
  }

  lemma StartsWith(t: string, rest: string)
    ensures Starts(t + rest, t) && (t + rest)[|t|..] == rest
  {
  }

  lemma DecodeBreak(rest: string)
    ensures Decode("<wbr/>" + rest) == Decode(rest)
  {
    StartsWith("<wbr/>", rest);
  }

  lemma DecodeEntity(c: char, e: string, rest: string)
    requires (c == '&' && e == "&amp;") || (c == '<' && e == "&lt;") || (c == '>' && e == "&gt;")
    ensures Decode(e + rest) == [c] + Decode(rest)
  {
    StartsWith(e, rest);
    var s := e + rest;
    assert s[0] == '&' && s[1] == e[1];
    assert !Starts(s, "<wbr/>") && !Starts(s, "<br/>") by { Heads(s, "<wbr/>"); Heads(s, "<br/>"); }
    Heads(s, "&amp;");
    Heads(s, "&lt;");
    Heads(s, "&gt;");
  }

  lemma Heads(s: string, t: string)
    requires |t| >= 2
    ensures Starts(s, t) ==> s[0] == t[0] && s[1] == t[1]
  {
    if Starts(s, t) {
      assert s[..|t|][0] == s[0] && s[..|t|][1] == s[1];
    }
  }

  lemma DecodePlain(c: char, rest: string)
    requires c != '&' && c != '<'
    ensures Decode([c] + rest) == [c] + Decode(rest)
  {
    var s := [c] + rest;
    Heads(s, "<wbr/>");
    Heads(s, "<br/>");
    Heads(s, "&amp;");
    Heads(s, "&lt;");
    Heads(s, "&gt;");
    assert s[1..] == rest;
  }

  lemma DecodeNewline(rest: string)
    ensures Decode("<br/>" + rest) == "\n" + Decode(rest)
  {
    StartsWith("<br/>", rest);
    Heads("<br/>" + rest, "<wbr/>");
    assert ("<br/>" + rest)[1] == 'b';
  }

  lemma DecodeOneEntity(c: char, long: bool, rest: string)
    requires c == '&' || c == '<' || c == '>'
    ensures Decode(Encoded(c, long) + rest) == [c] + Decode(rest)
  {
    hide Decode;
    DecodeBreak(rest);
    var e := if c == '&' then "&amp;" else if c == '<' then "&lt;" else "&gt;";
    DecodeEntity(c, e, rest);
    DecodeEntity(c, e, "<wbr/>" + rest);
    assert Encoded(c, long) == if long then e + "<wbr/>" else e;
    hide Encoded;
    assert e + "<wbr/>" + rest == e + ("<wbr/>" + rest);
  }

  lemma {:induction false} DecodeOne(c: char, long: bool, rest: string)
    ensures Decode(Encoded(c, long) + rest) == [c] + Decode(rest)
  {
    hide Decode, IsBreakable;
    DecodeBreak(rest);
    if c == '&' || c == '<' || c == '>' {
      DecodeOneEntity(c, long, rest);
    } else if c == '\n' {
      DecodeNewline(rest);
    } else {
      DecodePlain(c, rest);
      DecodePlain(c, "<wbr/>" + rest);
      assert [c] + "<wbr/>" + rest == [c] + ("<wbr/>" + rest);
    }
  }

  lemma {:induction false} DecodeAll(s: string, long: bool)
    ensures Decode(EncodedAll(s, long)) == s
  {
    hide Encoded;
    if s != "" {
      DecodeOne(s[0], long, EncodedAll(s[1..], long));
      DecodeAll(s[1..], long);
      hide Decode;
      assert s == [s[0]] + s[1..];
    }
  }

  /** The message can be read back from its markup, whatever it contains. */
  lemma RenderingIsInvertible(message: string)
    requires message != ""
    ensures Decode(Rendered(message)) == message
  {
    hide Decode, Rendered;
    Simultaneous(message);
    DecodeAll(message, |message| > 100);
  }

  lemma DifferentMessagesDiffer(a: string, b: string)
    requires a != b && a != "" && b != ""
    ensures Rendered(a) != Rendered(b)
  {
    hide Decode, Rendered;
    RenderingIsInvertible(a);
    RenderingIsInvertible(b);
  }
}
