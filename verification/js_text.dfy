/** Decimal text of JavaScript numbers that hold integers, and reading it back. */
module JsText {

  predicate IsDigit(c: char) {
    '0' <= c <= '9'
  }

  predicate AllDigits(s: string) {
    forall i :: 0 <= i < |s| ==> IsDigit(s[i])
  }

  function DigitChar(d: nat): (c: char)
    requires d < 10
    ensures IsDigit(c) && DigitValue(c) == d
  {
    '0' + d as char
  }

  function DigitValue(c: char): (d: nat)
    requires IsDigit(c)
    ensures d < 10
  {
    (c - '0') as nat
  }

  function NatText(n: nat): (s: string)
    ensures |s| >= 1 && AllDigits(s)
  {
    if n < 10 then [DigitChar(n)] else NatText(n / 10) + [DigitChar(n % 10)]
  }

  /** `'' + n` */
  function IntText(n: int): string {
    if n < 0 then "-" + NatText(-n) else NatText(n)
  }

  /** `parseInt(s, 10)` of a string of digits */
  function ParseNat(s: string): nat
    requires AllDigits(s)
  {
    if s == "" then 0 else ParseNat(s[..|s| - 1]) * 10 + DigitValue(s[|s| - 1])
  }

  function Pow10(k: nat): (p: nat)
    ensures p >= 1
  {
    if k == 0 then 1 else 10 * Pow10(k - 1)
  }

  lemma {:induction false} ReadsBack(n: nat)
    ensures ParseNat(NatText(n)) == n
  {
    if n >= 10 {
      ReadsBack(n / 10);
      assert NatText(n)[..|NatText(n)| - 1] == NatText(n / 10);
    }
  }

  /** Digits that do not start with a zero are the text of the number they stand for. */
  lemma {:induction false} TextOfParsed(s: string)
    requires s != "" && AllDigits(s) && s[0] != '0'
    ensures ParseNat(s) > 0 && NatText(ParseNat(s)) == s
  {
    var front, last := s[..|s| - 1], s[|s| - 1];
    if front == "" {
      assert s == [last] && ParseNat(front) == 0;
    } else {
      TextOfParsed(front);
      assert ParseNat(s) / 10 == ParseNat(front) && ParseNat(s) % 10 == DigitValue(last);
      assert s == front + [last];
    }
  }

  /** Numbers are written without zeros in front. */
  lemma {:induction false} NoLeadingZero(n: nat)
    ensures NatText(n)[0] == '0' ==> n == 0
  {
    if n >= 10 {
      NoLeadingZero(n / 10);
    }
  }

  lemma NatTextInjective(m: nat, n: nat)
    requires NatText(m) == NatText(n)
    ensures m == n
  {
    ReadsBack(m);
    ReadsBack(n);
  }

  lemma IntTextInjective(m: int, n: int)
    requires IntText(m) == IntText(n)
    ensures m == n
  {
    assert IsDigit(NatText(if m < 0 then -m else m)[0]) && IsDigit(NatText(if n < 0 then -n else n)[0]);
    if m < 0 {
      assert IntText(m)[0] == '-';
      assert NatText(-m) == IntText(m)[1..] == IntText(n)[1..] == NatText(-n);
      NatTextInjective(-m, -n);
    } else {
      NatTextInjective(m, n);
    }
  }

  /** The number of digits. */
  lemma {:induction false} Width(n: nat, w: nat)
    requires w >= 1
    ensures |NatText(n)| <= w <==> n < Pow10(w)
  {
    if w == 1 {
      assert Pow10(1) == 10 * Pow10(0) == 10;
    } else if n < 10 {
      assert Pow10(w) == 10 * Pow10(w - 1);
      assert Pow10(w - 1) == 10 * Pow10(w - 2);
    } else {
      Width(n / 10, w - 1);
      assert n / 10 < Pow10(w - 1) <==> n < 10 * Pow10(w - 1);
    }
  }

  function Zeros(k: nat): (s: string)
    ensures |s| == k && AllDigits(s)
  {
    if k == 0 then "" else "0" + Zeros(k - 1)
  }

  /** `_pad`: zeros in front until the text has at least `len` characters. */
  function Padded(s: string, len: nat): string {
    Zeros(if |s| < len then len - |s| else 0) + s
  }

  method Pad(x: int, len: nat) returns (str: string)
    ensures str == Padded(IntText(x), len)
  {
    hide IntText, Zeros;
    str := IntText(x);
    ghost var k := 0;
    OneMoreZero(0, str);
    while |str| < len
      invariant str == Zeros(k) + IntText(x)
      invariant |str| <= len || k == 0
    {
      OneMoreZero(k, IntText(x));
      str := "0" + str;
      k := k + 1;
    }
  }

  lemma OneMoreZero(k: nat, s: string)
    ensures "0" + (Zeros(k) + s) == Zeros(k + 1) + s && Zeros(0) + s == s
  {
    assert Zeros(k + 1) == "0" + Zeros(k);
  }

  lemma {:induction false} ZerosIgnored(k: nat, s: string)
    requires AllDigits(s)
    ensures AllDigits(Zeros(k) + s) && ParseNat(Zeros(k) + s) == ParseNat(s)
    decreases k + |s|
  {
    if s == "" {
      assert Zeros(k) + s == Zeros(k);
      ZeroValue(k);
    } else {
      var t := s[..|s| - 1];
      ZerosIgnored(k, t);
      assert (Zeros(k) + s)[..|Zeros(k) + s| - 1] == Zeros(k) + t;
    }
  }

  lemma {:induction false} ZeroValue(k: nat)
    ensures ParseNat(Zeros(k)) == 0
  {
    if k > 0 {
      ZeroValue(k - 1);
      ZerosEnd(k);
    }
  }

  lemma {:induction false} ZerosEnd(k: nat)
    requires k > 0
    ensures Zeros(k)[k - 1] == '0' && Zeros(k)[..k - 1] == Zeros(k - 1)
  {
    if k > 1 {
      ZerosEnd(k - 1);
      assert Zeros(k)[..k - 1] == "0" + Zeros(k - 1)[..k - 2];
    }
  }

  /** A number that fits is padded to exactly `w` digits, and reads back as itself. */
  lemma PaddedReadsBack(n: nat, w: nat)
    requires w >= 1 && n < Pow10(w)
    ensures var s := Padded(NatText(n), w); |s| == w && AllDigits(s) && ParseNat(s) == n
  {
    Width(n, w);
    ReadsBack(n);
    ZerosIgnored(w - |NatText(n)|, NatText(n));
  }

  // ----- splitting

  function Split(s: string, c: char): (r: seq<string>)
    ensures |r| >= 1
  {
    if s == "" then [""]
    else
      var rest := Split(s[1..], c);
      if s[0] == c then [""] + rest else [[s[0]] + rest[0]] + rest[1..]
  }

  lemma {:induction false} SplitNone(a: string, c: char)
    requires c !in a
    ensures Split(a, c) == [a]
  {
    if a != "" {
      assert [a[0]] + a[1..] == a;
      SplitNone(a[1..], c);
    }
  }

  lemma {:induction false} SplitFirst(a: string, c: char, b: string)
    requires c !in a
    ensures Split(a + [c] + b, c) == [a] + Split(b, c)
  {
    var s := a + [c] + b;
    if a == "" {
      assert s[1..] == b;
    } else {
      assert s[1..] == a[1..] + [c] + b && [a[0]] + a[1..] == a;
      SplitFirst(a[1..], c, b);
    }
  }

  /** The pieces of a split with the separator between them again. */
  function Join(parts: seq<string>, c: char): string
    requires parts != []
  {
    if |parts| == 1 then parts[0] else parts[0] + [c] + Join(parts[1..], c)
  }

  lemma {:induction false} JoinSplit(s: string, c: char)
    ensures Join(Split(s, c), c) == s
    ensures forall i :: 0 <= i < |Split(s, c)| ==> c !in Split(s, c)[i]
  {
    if s != "" {
      JoinSplit(s[1..], c);
      var rest := Split(s[1..], c);
      assert s == [s[0]] + s[1..];
      if s[0] == c {
        assert Split(s, c)[1..] == rest;
        assert "" + [c] + Join(rest, c) == [c] + s[1..];
      } else {
        assert Split(s, c) == [[s[0]] + rest[0]] + rest[1..];
        assert Split(s, c)[1..] == rest[1..];
        if |rest| > 1 {
          assert [s[0]] + rest[0] + [c] + Join(rest[1..], c) == [s[0]] + (rest[0] + [c] + Join(rest[1..], c));
        }
      }
    }
  }
}
