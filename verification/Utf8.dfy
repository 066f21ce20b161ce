/** UTF-8 as in RFC 3629 section 4: the test utf8.Valid applies and the encoder of runes. */
module Utf8 {
  import opened Text

  predicate Within(c: char, lo: int, hi: int) { lo <= c as int <= hi }

  predicate Continues(s: Bytes, i: nat) { i < |s| && Within(s[i], 0x80, 0xBF) }

  /** The length of the encoded rune at the front; 0 if there is none. */
  function RuneLength(s: Bytes): (n: nat)
    requires s != ""
    ensures n <= |s| && n <= 4
    ensures s[0] as int < 0x80 <==> n == 1
  {
    var b := s[0] as int;
    if b < 0x80 then 1
    else if 0xC2 <= b <= 0xDF then if Continues(s, 1) then 2 else 0
    else if 0xE0 <= b <= 0xEF then
      if Continues(s, 1) && Continues(s, 2) && (b == 0xE0 ==> s[1] as int >= 0xA0) &&
        (b == 0xED ==> s[1] as int <= 0x9F)
      then 3 else 0
    else if 0xF0 <= b <= 0xF4 then
      if Continues(s, 1) && Continues(s, 2) && Continues(s, 3) &&
         (b == 0xF0 ==> s[1] as int >= 0x90) && (b == 0xF4 ==> s[1] as int <= 0x8F)
      then 4 else 0
    else 0
  }

  predicate ValidUtf8(s: Bytes) {
    s == "" || (RuneLength(s) > 0 && ValidUtf8(s[RuneLength(s)..]))
  }

  predicate Ascii(s: Bytes) { forall i :: 0 <= i < |s| ==> s[i] as int < 0x80 }

  function Byte(n: int): char
    requires 0 <= n < 256
  {
    n as char
  }

  function EncodeRune(r: nat): (s: Bytes)
    requires r < 0x11_0000 && !(0xD800 <= r < 0xE000)
    ensures 1 <= |s| <= 4 && (r < 0x1_0000 ==> |s| <= 3)
    ensures r < 0x80 ==> s == [r as char]
    ensures r >= 0x80 ==> forall i :: 0 <= i < |s| ==> s[i] as int >= 0x80
  {
    if r < 0x80 then [Byte(r)]
    else if r < 0x800 then [Byte(0xC0 + r / 64), Byte(0x80 + r % 64)]
    else if r < 0x1_0000 then [Byte(0xE0 + r / 4096), Byte(0x80 + r / 64 % 64), Byte(0x80 + r % 64)]
    else [Byte(0xF0 + r / 262144), Byte(0x80 + r / 4096 % 64), Byte(0x80 + r / 64 % 64), Byte(0x80 + r % 64)]
  }

  lemma EncodedRuneIsValid(r: nat)
    requires r < 0x11_0000 && !(0xD800 <= r < 0xE000)
    ensures RuneLength(EncodeRune(r)) == |EncodeRune(r)|
    ensures ValidUtf8(EncodeRune(r))
  {
    var s := EncodeRune(r);
    assert s[|s|..] == "";
  }

  lemma {:induction false} AsciiIsValid(s: Bytes)
    requires Ascii(s)
    ensures ValidUtf8(s)
  {
    if s != "" {
      AsciiIsValid(s[1..]);
    }
  }

  lemma RuneLengthOfPrefix(a: Bytes, b: Bytes)
    requires a != "" && RuneLength(a) > 0
    ensures RuneLength(a + b) == RuneLength(a)
  {
    var n := RuneLength(a);
    assert forall i :: 0 <= i < n ==> (a + b)[i] == a[i];
  }

  /** A valid prefix does not affect the validity of what follows. */
  lemma {:induction false} ValidPrefix(a: Bytes, b: Bytes)
    requires ValidUtf8(a)
    ensures ValidUtf8(a + b) <==> ValidUtf8(b)
  {
    if a == "" {
      assert a + b == b;
    } else {
      var n := RuneLength(a);
      RuneLengthOfPrefix(a, b);
      assert (a + b)[n..] == a[n..] + b;
      ValidPrefix(a[n..], b);
    }
  }

  /** An ASCII byte ends every rune before it, so validity splits there. */
  lemma {:induction false} ValidSplit(a: Bytes, c: char, b: Bytes)
    requires c as int < 0x80
    ensures ValidUtf8(a + ([c] + b)) <==> ValidUtf8(a) && ValidUtf8(b)
  {
    var s := a + ([c] + b);
    if a == "" {
      assert s == [c] + b && s[1..] == b;
    } else {
      var n := RuneLength(s);
      assert s[0] == a[0] && s[|a|] == c;
      assert forall i :: 0 <= i < |a| ==> s[i] == a[i];
      if n == 0 || n > |a| {
        assert RuneLength(a) == 0;
        assert n > |a| ==> !Continues(s, |a|);
      } else {
        assert RuneLength(a) == n;
        assert s[n..] == a[n..] + ([c] + b);
        ValidSplit(a[n..], c, b);
      }
    }
  }
}
