/** The --socket-mark value: a non-zero 32-bit number in decimal, or in hexadecimal after 0x. */
module SocketMark {
  import opened Text

  const MAX_UINT32: nat := 0xFFFF_FFFF
  const TWO_64: nat := 0x1_0000_0000_0000_0000

  predicate HexPrefix(raw: Bytes) { |raw| >= 2 && raw[0] == '0' && (raw[1] == 'x' || raw[1] == 'X') }

  function MarkDigits(raw: Bytes): Bytes { if HexPrefix(raw) then raw[2..] else raw }

  function MarkBase(raw: Bytes): nat { if HexPrefix(raw) then 16 else 10 }

  /** parseSocketMark. */
  function ParseSocketMark(raw: Bytes): Option<nat> {
    var digits, base := MarkDigits(raw), MarkBase(raw);
    if digits == "" || !Numeral(digits, base) then None
    else if base == 10 && digits[0] == '0' then None
    else
      match ParseUint32(digits, base)
      case None => None
      case Some(v) => if v == 0 then None else Some(v)
  }

  function ParseUint32(digits: Bytes, base: nat): Option<nat>
    requires Numeral(digits, base)
  {
    if NumberOf(digits, base) <= MAX_UINT32 then Some(NumberOf(digits, base)) else None
  }

  /**
   The accumulation loop of strconv.ParseUint on 64-bit words, with its two overflow
   tests. Each word operation is exact: none of them wraps before the range test.
   */
  method AccumulateUint32(digits: Bytes, base: nat) returns (r: Option<nat>)
    requires (base == 10 || base == 16) && Numeral(digits, base)
    ensures r == ParseUint32(digits, base)
  {
    var cutoff := (TWO_64 - 1) / base + 1;
    var n: nat := 0;
    var i := 0;
    assert digits[..0] == "";
    while i < |digits|
      invariant i <= |digits| && n <= MAX_UINT32
      invariant n == NumberOf(digits[..i], base)
    {
      var d := DigitValue(digits[i]);
      Longer(digits, i, base);
      NoWrap(n, base, d);
      if n >= cutoff { return None; }
      n := n * base % TWO_64;
      var n1 := (n + d) % TWO_64;
      assert n1 == NumberOf(digits[..i + 1], base);
      if n1 < n || n1 > MAX_UINT32 {
        PrefixSmaller(digits, i + 1, base);
        return None;
      }
      n, i := n1, i + 1;
    }
    assert digits[..i] == digits;
    return Some(n);
  }

  /** A value that passed the range test leaves room for another digit in a 64-bit word. */
  lemma NoWrap(n: nat, base: nat, d: nat)
    requires (base == 10 || base == 16) && n <= MAX_UINT32 && d < base
    ensures n < (TWO_64 - 1) / base + 1
    ensures n * base % TWO_64 == n * base && (n * base + d) % TWO_64 == n * base + d >= n
  {
    if base == 10 {
      assert n * base == n * 10;
    } else {
      assert n * base == n * 16;
    }
  }

  lemma Longer(digits: Bytes, i: nat, base: nat)
    requires i < |digits| && Numeral(digits, base)
    ensures NumberOf(digits[..i + 1], base) == NumberOf(digits[..i], base) * base + DigitValue(digits[i])
  {
    assert digits[..i + 1][..i] == digits[..i];
  }

  lemma {:induction false} PrefixSmaller(digits: Bytes, i: nat, base: nat)
    requires i <= |digits| && base >= 1 && Numeral(digits, base)
    ensures NumberOf(digits[..i], base) <= NumberOf(digits, base)
    decreases |digits| - i
  {
    if i == |digits| {
      assert digits[..i] == digits;
    } else {
      Longer(digits, i, base);
      var n := NumberOf(digits[..i], base);
      assert n <= n * base by { TimesGrows(n, base); }
      PrefixSmaller(digits, i + 1, base);
    }
  }

  lemma TimesGrows(n: nat, base: nat)
    requires base >= 1
    ensures n <= n * base
  {
    assert n * base == n + n * (base - 1);
  }

  /** The texts that spell a mark: its decimal print, or 0x and any hexadecimal spelling. */
  predicate Spells(raw: Bytes, v: nat) {
    && 1 <= v <= MAX_UINT32
    && (raw == Decimal(v) ||
        (HexPrefix(raw) && raw[2..] != "" && Numeral(raw[2..], 16) && NumberOf(raw[2..], 16) == v))
  }

  /** Exactly the spellings of 1 to 2^32-1 are accepted, with the value they denote. */
  lemma MarkExact(raw: Bytes, v: nat)
    ensures ParseSocketMark(raw) == Some(v) <==> Spells(raw, v)
  {
    if ParseSocketMark(raw) == Some(v) && !HexPrefix(raw) {
      assert AllDigits(raw) by {
        assert forall i :: 0 <= i < |raw| ==> 0 <= DigitValue(raw[i]) < 10;
      }
      DecimalOfNumber(raw);
    }
    if Spells(raw, v) && raw == Decimal(v) {
      NumberOfDecimal(v);
      PositiveStart(v);
    }
  }

  lemma {:induction false} PositiveStart(v: nat)
    requires v > 0
    ensures Decimal(v)[0] != '0'
  {
    if v >= 10 { PositiveStart(v / 10); }
  }

  // ---- Hexadecimal spellings ----------------------------------------------------------

  function Lower(c: char): char { if 'A' <= c <= 'F' then (c as int + 32) as char else c }

  function LowerAll(s: Bytes): Bytes { seq(|s|, i requires 0 <= i < |s| => Lower(s[i])) }

  function TrimZeros(s: Bytes): Bytes {
    if |s| > 1 && s[0] == '0' then TrimZeros(s[1..]) else s
  }

  function HexDigit(d: nat): (c: char)
    requires d < 16
    ensures DigitValue(c) == d && Lower(c) == c
  {
    if d < 10 then ('0' as int + d) as char else ('a' as int + d - 10) as char
  }

  function HexText(n: nat): (s: Bytes)
    ensures s != ""
  {
    if n < 16 then [HexDigit(n)] else HexText(n / 16) + [HexDigit(n % 16)]
  }

  lemma LowerDigit(c: char)
    requires DigitValue(c) >= 0
    ensures Lower(c) == HexDigit(DigitValue(c))
  {}

  lemma {:induction false} LeadingZero(s: Bytes)
    requires s != "" && Numeral(s, 16)
    ensures Numeral(['0'] + s, 16) && NumberOf(['0'] + s, 16) == NumberOf(s, 16)
  {
    var z := ['0'] + s;
    assert z[..|z| - 1] == ['0'] + s[..|s| - 1];
    if |s| > 1 {
      LeadingZero(s[..|s| - 1]);
    } else {
      assert z[..1] == "0" && "0"[..0] == "" && s[..0] == "";
      assert NumberOf("0", 16) == 0;
    }
  }

  lemma {:induction false} TrimKeepsNumber(s: Bytes)
    requires s != "" && Numeral(s, 16)
    ensures TrimZeros(s) != "" && Numeral(TrimZeros(s), 16) && NumberOf(TrimZeros(s), 16) == NumberOf(s, 16)
    ensures Canonical(TrimZeros(s))
  {
    if |s| > 1 && s[0] == '0' {
      TrimKeepsNumber(s[1..]);
      LeadingZero(s[1..]);
      assert s == ['0'] + s[1..];
    }
  }

  lemma {:induction false} HexPositive(s: Bytes)
    requires s != "" && s[0] != '0' && Numeral(s, 16)
    ensures NumberOf(s, 16) > 0
  {
    if |s| == 1 {
      assert NumberOf(s[..0], 16) == 0;
    } else {
      HexPositive(s[..|s| - 1]);
    }
  }

  lemma {:induction false} HexTextOf(s: Bytes)
    requires Canonical(s) && Numeral(s, 16)
    ensures HexText(NumberOf(s, 16)) == LowerAll(s)
  {
    hide HexText, LowerAll, Lower;
    var d := DigitValue(s[|s| - 1]);
    LowerDigit(s[|s| - 1]);
    if |s| == 1 {
      assert NumberOf(s[..0], 16) == 0;
      HexOne(s);
    } else {
      var t := s[..|s| - 1];
      HexTextOf(t);
      HexPositive(t);
      HexSnoc(NumberOf(t, 16), d);
      LowerSnoc(s);
    }
  }

  lemma HexOne(s: Bytes)
    requires |s| == 1 && Numeral(s, 16)
    ensures HexText(DigitValue(s[0])) == LowerAll(s)
  {
    LowerDigit(s[0]);
    assert s == [s[0]];
  }

  lemma HexSnoc(m: nat, d: nat)
    requires m > 0 && d < 16
    ensures HexText(m * 16 + d) == HexText(m) + [HexDigit(d)]
  {
    assert (m * 16 + d) / 16 == m && (m * 16 + d) % 16 == d;
  }

  lemma LowerSnoc(s: Bytes)
    requires s != ""
    ensures LowerAll(s) == LowerAll(s[..|s| - 1]) + [Lower(s[|s| - 1])]
  {
    hide Lower;
  }

  lemma {:induction false} HexTextInjective(m: nat, n: nat)
    requires HexText(m) == HexText(n)
    ensures m == n
  {
    var a, b := HexText(m), HexText(n);
    assert m >= 16 ==> a[..|a| - 1] == HexText(m / 16) && a[|a| - 1] == HexDigit(m % 16);
    assert n >= 16 ==> b[..|b| - 1] == HexText(n / 16) && b[|b| - 1] == HexDigit(n % 16);
    assert DigitValue(a[|a| - 1]) == m % 16 && DigitValue(b[|b| - 1]) == n % 16;
    if m >= 16 && n >= 16 {
      HexTextInjective(m / 16, n / 16);
    }
  }

  /**
   Two hexadecimal spellings denote the same mark exactly when they differ only in prefix case,
   digit case and leading zeros.
   */
  lemma HexSpellings(r1: Bytes, r2: Bytes, v1: nat, v2: nat)
    requires HexPrefix(r1) && HexPrefix(r2) && Spells(r1, v1) && Spells(r2, v2)
    ensures v1 == v2 <==> LowerAll(TrimZeros(r1[2..])) == LowerAll(TrimZeros(r2[2..]))
  {
    NotDecimal(r1, v1);
    NotDecimal(r2, v2);
    TrimKeepsNumber(r1[2..]);
    TrimKeepsNumber(r2[2..]);
    HexTextOf(TrimZeros(r1[2..]));
    HexTextOf(TrimZeros(r2[2..]));
    if HexText(v1) == HexText(v2) {
      HexTextInjective(v1, v2);
    }
  }

  lemma NotDecimal(raw: Bytes, v: nat)
    requires HexPrefix(raw)
    ensures raw != Decimal(v)
  {
    assert !IsDigit(raw[1]);
  }
}
