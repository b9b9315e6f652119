/**
 * ANSI of ansi.h and ansi.cpp: wraps a C string in an SGR escape sequence
 * `ESC [ <modifier> ; <color> m <text> ESC [ 0 m`, with the integers written in decimal
 * as an output string stream writes an `int`.
 */
module Ansi {
  import opened CString
  import opened Wrappers

  /** The ESC control character, `\033`. */
  const Esc: char := 27 as char

  /** Colour and modifier codes of ansi.h used by the model. */
  const FgRed := 31
  const Normal := 0

  predicate IsDigit(c: char)
  {
    '0' <= c <= '9'
  }

  function DigitChar(d: int): (c: char)
    requires 0 <= d < 10
    ensures IsDigit(c) && c as int - '0' as int == d
  {
    ('0' as int + d) as char
  }

  /** Decimal digits of a natural number, most significant first, with no leading zero. */
  function NatToDec(n: nat): (r: string)
    ensures |r| >= 1
    ensures AllDigits(r)
    ensures r[0] == '0' ==> n == 0 && r == "0"
    decreases n
  {
    if n < 10 then [DigitChar(n)] else NatToDec(n / 10) + [DigitChar(n % 10)]
  }

  /** `ss << i` for an int: a minus sign before the digits of the magnitude when negative. */
  function IntToDec(i: int): (r: string)
    ensures ';' !in r && 'm' !in r
  {
    if i < 0 then "-" + NatToDec(-i) else NatToDec(i)
  }

  function DigitValue(c: char): nat
    requires IsDigit(c)
  {
    c as int - '0' as int
  }

  predicate AllDigits(s: string)
  {
    forall i :: 0 <= i < |s| ==> IsDigit(s[i])
  }

  /** The value of a string of digits. */
  function DecValue(s: string): nat
    requires AllDigits(s)
    decreases |s|
  {
    if s == [] then 0 else DecValue(s[..|s| - 1]) * 10 + DigitValue(s[|s| - 1])
  }

  /** A decimal integer: an optional minus sign and at least one digit. */
  predicate IsDec(s: string)
  {
    if |s| > 0 && s[0] == '-' then |s| > 1 && AllDigits(s[1..]) else |s| > 0 && AllDigits(s)
  }

  function DecToInt(s: string): int
    requires IsDec(s)
  {
    if |s| > 0 && s[0] == '-' then 0 - DecValue(s[1..]) else DecValue(s)
  }

  /** Reading back the digits of a natural number gives the number. */
  lemma {:induction false} NatToDecRoundTrip(n: nat)
    ensures DecValue(NatToDec(n)) == n
    decreases n
  {
    var r := NatToDec(n);
    if n >= 10 {
      NatToDecRoundTrip(n / 10);
      assert r[..|r| - 1] == NatToDec(n / 10);
    }
  }

  /** Every int round-trips through its decimal form. */
  lemma IntToDecRoundTrip(i: int)
    ensures IsDec(IntToDec(i)) && DecToInt(IntToDec(i)) == i
  {
    if i < 0 {
      assert IntToDec(i)[1..] == NatToDec(-i);
      NatToDecRoundTrip(-i);
    } else {
      NatToDecRoundTrip(i);
    }
  }

  /** The control sequence introducer ESC '[' and the reset ESC "[0m" that close every escape. */
  const Csi: string := [Esc, '[']
  const Reset: string := [Esc, '[', '0', 'm']

  /** What escape writes between the introducer and the reset: `m;cm` then the text. */
  function EscapeBody(text: seq<CChar>, modifier: int, color: int): string
  {
    IntToDec(modifier) + ";" + IntToDec(color) + "m" + CStr(text)
  }

  /** ANSI::escape (ansi.cpp:3-8): `text` is read up to its first NUL and embedded verbatim. */
  function Escape(text: seq<CChar>, modifier: int, color: int): string
  {
    Csi + EscapeBody(text, modifier, color) + Reset
  }

  /** ANSI::red (ansi.cpp:10-13): normal intensity, red foreground. */
  function Red(text: seq<CChar>): string
  {
    Escape(text, Normal, FgRed)
  }

  /** The parts of an escaped string. */
  datatype Escaped = Escaped(modifier: int, color: int, text: string)

  /** The first position of `c` in `s`, or |s| when there is none. */
  function IndexOf(s: string, c: char): (i: nat)
    ensures i <= |s|
    ensures i < |s| ==> s[i] == c
    ensures forall j :: 0 <= j < i ==> s[j] != c
    decreases |s|
  {
    if s == [] then 0 else if s[0] == c then 0 else 1 + IndexOf(s[1..], c)
  }

  /**
   * Splits `m ; c m text`, the part between ESC '[' and the reset: the modifier runs to the
   * first ';', the colour to the next 'm', and the text is the rest.
   */
  function ParseBody(body: string): Option<Escaped>
  {
    var semi := IndexOf(body, ';');
    if semi == |body| then None
    else
      var afterSemi := body[semi + 1..];
      var em := IndexOf(afterSemi, 'm');
      if em == |afterSemi| then None
      else if !IsDec(body[..semi]) || !IsDec(afterSemi[..em]) then None
      else Some(Escaped(DecToInt(body[..semi]), DecToInt(afterSemi[..em]), afterSemi[em + 1..]))
  }

  /** Splits `ESC [ m ; c m text ESC [ 0 m` back into its parts; None for anything else. */
  function ParseEscape(s: string): Option<Escaped>
  {
    if |s| < 6 || s[..2] != Csi || s[|s| - 4..] != Reset then None
    else ParseBody(s[2..|s| - 4])
  }

  /** The first `c` of `a + [c] + b` is right after `a` when `a` has none. */
  lemma IndexOfAfter(a: string, c: char, b: string)
    requires c !in a
    ensures IndexOf(a + [c] + b, c) == |a|
  {
    var s := a + [c] + b;
    assert s[|a|] == c;
    assert forall j :: 0 <= j < |a| ==> s[j] == a[j];
  }

  /** `m;cm` followed by any text splits at the first ';' and the next 'm' when m and c hold neither. */
  lemma ParseBodyOf(m: string, c: string, t: string)
    requires ';' !in m && 'm' !in c && IsDec(m) && IsDec(c)
    ensures ParseBody(m + ";" + c + "m" + t) == Some(Escaped(DecToInt(m), DecToInt(c), t))
  {
    var body := m + ";" + c + "m" + t;
    var rest := c + "m" + t;
    assert body == m + [';'] + rest;
    IndexOfAfter(m, ';', rest);
    assert body[..|m|] == m;
    assert body[|m| + 1..] == rest;
    assert rest == c + ['m'] + t;
    IndexOfAfter(c, 'm', t);
    assert rest[..|c|] == c;
    assert rest[|c| + 1..] == t;
  }

  /** The body written by escape parses back to its parts. */
  lemma BodyRoundTrip(modifier: int, color: int, t: string)
    ensures ParseBody(IntToDec(modifier) + ";" + IntToDec(color) + "m" + t) == Some(Escaped(modifier, color, t))
  {
    IntToDecRoundTrip(modifier);
    IntToDecRoundTrip(color);
    ParseBodyOf(IntToDec(modifier), IntToDec(color), t);
  }

  /** The two ends and the middle of `prefix + body + reset`, for a 2-element prefix and 4-element reset. */
  lemma SplitFramed(prefix: string, body: string, reset: string)
    requires |prefix| == 2 && |reset| == 4
    ensures var s := prefix + body + reset;
            && |s| >= 6 && s[..2] == prefix && s[|s| - 4..] == reset && s[2..|s| - 4] == body
  {
    var s := prefix + body + reset;
    assert s[..2] == prefix;
    assert s[|s| - 4..] == reset;
    assert s[2..|s| - 4] == body;
  }

  /** The length, the two ends and the trailing text of `s == prefix + (head + t) + reset`. */
  lemma FramedShape(s: string, prefix: string, head: string, t: string, reset: string)
    requires |prefix| == 2 && |reset| == 4
    requires s == prefix + (head + t) + reset
    ensures |s| == |head| + |t| + 6
    ensures s[..2] == prefix
    ensures s[|s| - 4..] == reset
    ensures s[|s| - 4 - |t|..|s| - 4] == t
  {
    SplitFramed(prefix, head + t, reset);
    assert forall i :: 0 <= i < |t| ==> s[|s| - 4 - |t| + i] == t[i];
  }

  /** Parsing an escaped string recovers the modifier, the colour and the text, for every int. */
  lemma EscapeRoundTrip(text: seq<CChar>, modifier: int, color: int)
    ensures ParseEscape(Escape(text, modifier, color)) == Some(Escaped(modifier, color, CStr(text)))
  {
    SplitFramed(Csi, EscapeBody(text, modifier, color), Reset);
    BodyRoundTrip(modifier, color, CStr(text));
  }

  /** Different parameters give different escaped strings. */
  lemma EscapeInjective(t1: seq<CChar>, m1: int, c1: int, t2: seq<CChar>, m2: int, c2: int)
    requires Escape(t1, m1, c1) == Escape(t2, m2, c2)
    ensures m1 == m2 && c1 == c2 && CStr(t1) == CStr(t2)
  {
    EscapeRoundTrip(t1, m1, c1);
    EscapeRoundTrip(t2, m2, c2);
  }

  /**
   * The output opens with ESC '[', closes with the reset ESC "[0m", holds the text verbatim
   * right before the reset, and is 8 characters longer than its variable parts.
   */
  lemma EscapeShape(text: seq<CChar>, modifier: int, color: int)
    ensures |Escape(text, modifier, color)| == |CStr(text)| + |IntToDec(modifier)| + |IntToDec(color)| + 8
    ensures Escape(text, modifier, color)[..2] == Csi
    ensures var s := Escape(text, modifier, color); s[|s| - 4..] == Reset
    ensures var s := Escape(text, modifier, color); s[|s| - 4 - |CStr(text)|..|s| - 4] == CStr(text)
  {
    var head := IntToDec(modifier) + ";" + IntToDec(color) + "m";
    assert |head| == |IntToDec(modifier)| + |IntToDec(color)| + 2;
    FramedShape(Escape(text, modifier, color), Csi, head, CStr(text), Reset);
  }

  /** red(text) is text between ESC "[0;31m" and ESC "[0m". */
  lemma RedLiteral(text: seq<CChar>)
    ensures Red(text) == [Esc] + "[0;31m" + CStr(text) + [Esc] + "[0m"
  {
    assert IntToDec(Normal) == "0";
    assert IntToDec(FgRed) == "31" by {
      assert NatToDec(FgRed) == NatToDec(3) + [DigitChar(1)];
    }
  }

  /** red(text) parses back to modifier NORMAL, colour FG_RED and the text. */
  lemma RedRoundTrip(text: seq<CChar>)
    ensures ParseEscape(Red(text)) == Some(Escaped(0, 31, CStr(text)))
  {
    EscapeRoundTrip(text, Normal, FgRed);
  }
}
