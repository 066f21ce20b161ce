/**
 JSON strings: decoding escapes as the decoder does, and quoting as json.Marshal does.
 */
module JsonString {
  import opened Text
  import opened Utf8
  import opened JsonGrammar

  function Unescape(c: char): char
    requires SimpleEscape(c)
  {
    if c == 'b' then 8 as char
    else if c == 'f' then 12 as char
    else if c == 'n' then '\n'
    else if c == 'r' then '\r'
    else if c == 't' then '\t'
    else c
  }

  predicate UnicodeEscape(b: Bytes) { b != "" && b[0] == '\\' && UnitLength(b) == 6 }

  function CodeUnit(b: Bytes): (n: nat)
    requires UnicodeEscape(b)
    ensures n < 0x1_0000
  {
    DigitValue(b[2]) * 4096 + DigitValue(b[3]) * 256 + DigitValue(b[4]) * 16 + DigitValue(b[5])
  }

  const REPLACEMENT: nat := 0xFFFD

  /** What an escape denotes and how many bytes it takes: a surrogate pair is one rune, a lone half is U+FFFD. */
  function EscapedRune(b: Bytes): (r: (nat, nat))
    requires UnicodeEscape(b)
    ensures r.0 < 0x11_0000 && !(0xD800 <= r.0 < 0xE000)
    ensures r.1 == 6 || (r.1 == 12 && |b| >= 12 && UnicodeEscape(b[6..]))
    ensures r.1 == 6 ==> r.0 < 0x1_0000
  {
    var high := CodeUnit(b);
    if !(0xD800 <= high < 0xE000) then (high, 6)
    else if high < 0xDC00 && UnicodeEscape(b[6..]) && 0xDC00 <= CodeUnit(b[6..]) < 0xE000 then
      (0x1_0000 + (high - 0xD800) * 1024 + (CodeUnit(b[6..]) - 0xDC00), 12)
    else (REPLACEMENT, 6)
  }

  lemma AfterEscape(b: Bytes)
    requires UnicodeEscape(b) && WellFormedBody(b)
    ensures WellFormedBody(b[EscapedRune(b).1..])
  {
    assert WellFormedBody(b[6..]);
    if EscapedRune(b).1 == 12 {
      assert b[6..][6..] == b[12..];
    }
  }

  /** The string a body denotes. */
  function Unquote(b: Bytes): Bytes
    requires WellFormedBody(b)
    decreases |b|
  {
    if b == "" then ""
    else if b[0] != '\\' then [b[0]] + Unquote(b[1..])
    else if UnitLength(b) == 2 then [Unescape(b[1])] + Unquote(b[2..])
    else
      var (rune, n) := EscapedRune(b);
      AfterEscape(b);
      EncodeRune(rune) + Unquote(b[n..])
  }

  function Newlines(s: Bytes): nat {
    if s == "" then 0 else (if s[0] == '\n' || s[0] == '\r' then 1 else 0) + Newlines(s[1..])
  }

  lemma {:induction false} NewlinesAdd(a: Bytes, b: Bytes)
    ensures Newlines(a + b) == Newlines(a) + Newlines(b)
  {
    if a == "" {
      assert a + b == b;
    } else {
      assert (a + b)[1..] == a[1..] + b;
      NewlinesAdd(a[1..], b);
    }
  }

  lemma {:induction false} NoNewlines(s: Bytes)
    requires forall i :: 0 <= i < |s| ==> s[i] as int >= 0x80
    ensures Newlines(s) == 0
  {
    if s != "" { NoNewlines(s[1..]); }
  }

  /** A decoded string is never longer than its body, and every newline in it costs a byte more. */
  lemma {:induction false} UnquoteShrinks(b: Bytes)
    requires WellFormedBody(b)
    ensures |Unquote(b)| + Newlines(Unquote(b)) <= |b|
    decreases |b|
  {
    if b == "" {
    } else if b[0] != '\\' {
      UnquoteShrinks(b[1..]);
      assert ([b[0]] + Unquote(b[1..]))[1..] == Unquote(b[1..]);
    } else if UnitLength(b) == 2 {
      UnquoteShrinks(b[2..]);
      assert ([Unescape(b[1])] + Unquote(b[2..]))[1..] == Unquote(b[2..]);
    } else {
      var (rune, n) := EscapedRune(b);
      AfterEscape(b);
      UnquoteShrinks(b[n..]);
      NewlinesAdd(EncodeRune(rune), Unquote(b[n..]));
      if rune >= 0x80 {
        NoNewlines(EncodeRune(rune));
      } else {
        assert EncodeRune(rune)[1..] == "";
        assert Newlines(EncodeRune(rune)) <= 1;
      }
    }
  }

  // ---- Quoting ----------------------------------------------------------------------

  function HexChar(d: nat): (c: char)
    requires d < 16
    ensures DigitValue(c) == d
  {
    if d < 10 then ('0' as int + d) as char else ('a' as int + d - 10) as char
  }

  /** One ASCII byte inside a string written by json.Marshal, which also escapes <, > and &. */
  function QuoteByte(c: char): (u: Bytes)
    requires c as int < 0x80
    ensures 1 <= |u| <= 6
  {
    if c == '"' || c == '\\' then ['\\', c]
    else if c == 8 as char then "\\b"
    else if c == 12 as char then "\\f"
    else if c == '\n' then "\\n"
    else if c == '\r' then "\\r"
    else if c == '\t' then "\\t"
    else if c < ' ' || c == '<' || c == '>' || c == '&' then
      ['\\', 'u', '0', '0', HexChar(c as int / 16), HexChar(c as int % 16)]
    else [c]
  }

  function QuoteBody(s: Bytes): (b: Bytes)
    requires Ascii(s)
    ensures |s| <= |b| <= 6 * |s|
  {
    if s == "" then "" else QuoteByte(s[0]) + QuoteBody(s[1..])
  }

  lemma QuoteByteUnit(c: char, rest: Bytes)
    requires c as int < 0x80
    ensures Ascii(QuoteByte(c))
    ensures UnitLength(QuoteByte(c) + rest) == |QuoteByte(c)|
    ensures (QuoteByte(c) + rest)[|QuoteByte(c)|..] == rest
  {
    var u := QuoteByte(c);
    assert forall i :: 0 <= i < |u| ==> (u + rest)[i] == u[i];
  }

  lemma QuoteByteDecodes(c: char, rest: Bytes)
    requires c as int < 0x80 && WellFormedBody(rest)
    ensures WellFormedBody(QuoteByte(c) + rest)
    ensures Unquote(QuoteByte(c) + rest) == [c] + Unquote(rest)
  {
    var u := QuoteByte(c);
    var b := u + rest;
    QuoteByteUnit(c, rest);
    assert forall i :: 0 <= i < |u| ==> b[i] == u[i];
    if |u| == 6 {
      assert CodeUnit(b) == c as int;
      assert EscapedRune(b) == (c as int, 6);
    }
  }

  /** Quoting then decoding gives the string back. */
  lemma {:induction false} QuoteDecodes(s: Bytes)
    requires Ascii(s)
    ensures WellFormedBody(QuoteBody(s)) && Unquote(QuoteBody(s)) == s && Ascii(QuoteBody(s))
  {
    if s != "" {
      QuoteDecodes(s[1..]);
      QuoteByteDecodes(s[0], QuoteBody(s[1..]));
      QuoteByteUnit(s[0], QuoteBody(s[1..]));
      assert s == [s[0]] + s[1..];
    }
  }
}
