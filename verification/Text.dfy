/**
 Byte strings and numerals.

 A Go string or byte slice is a Dafny `string` in which every char stands for one
 byte, so lengths are lengths in bytes.
 */
module Text {
  type Bytes = string

  datatype Option<+T> = None | Some(value: T)

  predicate IsDigit(c: char) { '0' <= c <= '9' }

  predicate AllDigits(s: Bytes) { forall i :: 0 <= i < |s| ==> IsDigit(s[i]) }

  /** The digit a character denotes in base 16, or -1. */
  function DigitValue(c: char): (d: int)
    ensures -1 <= d < 16
    ensures IsDigit(c) <==> 0 <= d < 10
  {
    if '0' <= c <= '9' then c as int - '0' as int
    else if 'a' <= c <= 'f' then c as int - 'a' as int + 10
    else if 'A' <= c <= 'F' then c as int - 'A' as int + 10
    else -1
  }

  predicate Numeral(s: Bytes, base: nat) {
    forall i :: 0 <= i < |s| ==> 0 <= DigitValue(s[i]) < base
  }

  /** The number a numeral denotes, most significant digit first. */
  function NumberOf(s: Bytes, base: nat): nat
    requires Numeral(s, base)
  {
    if s == "" then 0
    else NumberOf(s[..|s| - 1], base) * base + DigitValue(s[|s| - 1])
  }

  function DigitChar(d: nat): (c: char)
    requires d < 10
    ensures IsDigit(c) && DigitValue(c) == d
  {
    ('0' as int + d) as char
  }

  /** Decimal printing without leading zeros (strconv.Itoa on a natural number). */
  function Decimal(n: nat): (s: Bytes)
    ensures |s| > 0 && AllDigits(s)
    ensures Canonical(s)
  {
    if n < 10 then [DigitChar(n)] else Decimal(n / 10) + [DigitChar(n % 10)]
  }

  /** No leading zero, except the numeral zero itself. */
  predicate Canonical(s: Bytes) { s != "" && (s[0] == '0' ==> s == "0") }

  lemma DigitsAreNumeral(s: Bytes)
    requires AllDigits(s)
    ensures Numeral(s, 10)
  {}

  /** Printing then reading gives the number back. */
  lemma {:induction false} NumberOfDecimal(n: nat)
    ensures Numeral(Decimal(n), 10)
    ensures NumberOf(Decimal(n), 10) == n
  {
    DigitsAreNumeral(Decimal(n));
    if n < 10 {
      assert NumberOf("", 10) == 0;
    } else {
      NumberOfDecimal(n / 10);
      assert Decimal(n)[..|Decimal(n)| - 1] == Decimal(n / 10);
    }
  }

  lemma CanonicalPrefix(s: Bytes)
    requires |s| > 1 && Canonical(s) && AllDigits(s)
    ensures Canonical(s[..|s| - 1]) && AllDigits(s[..|s| - 1])
    ensures NumberOf(s[..|s| - 1], 10) > 0
  {
    var t := s[..|s| - 1];
    DigitsAreNumeral(t);
    CanonicalPositive(t);
  }

  lemma {:induction false} CanonicalPositive(s: Bytes)
    requires s != "" && s[0] != '0' && AllDigits(s)
    ensures Numeral(s, 10) && NumberOf(s, 10) > 0
  {
    DigitsAreNumeral(s);
    if |s| == 1 {
      assert NumberOf(s[..0], 10) == 0;
    } else {
      CanonicalPositive(s[..|s| - 1]);
    }
  }

  /** Reading then printing gives a canonical numeral back: the spelling is unique. */
  lemma {:induction false} DecimalOfNumber(s: Bytes)
    requires Canonical(s) && AllDigits(s)
    ensures Numeral(s, 10) && Decimal(NumberOf(s, 10)) == s
  {
    DigitsAreNumeral(s);
    if |s| == 1 {
      assert NumberOf(s[..0], 10) == 0;
      assert s == [DigitChar(DigitValue(s[0]))];
    } else {
      var t, d := s[..|s| - 1], DigitValue(s[|s| - 1]);
      CanonicalPrefix(s);
      DecimalOfNumber(t);
      var n := NumberOf(t, 10) * 10 + d;
      assert NumberOf(s, 10) == n && n / 10 == NumberOf(t, 10) && n % 10 == d;
      assert s == t + [DigitChar(d)];
    }
  }

  /** A number below 10^k prints in at most k digits; stated for the widths used here. */
  lemma DecimalWidth(n: nat)
    ensures n < 10 ==> |Decimal(n)| == 1
    ensures n < 100 ==> |Decimal(n)| <= 2
    ensures n < 1000 ==> |Decimal(n)| <= 3
    ensures n < 65536 ==> |Decimal(n)| <= 5
  {
    if n >= 10 {
      var m := n / 10;
      assert |Decimal(n)| == |Decimal(m)| + 1;
      if m >= 10 {
        var k := m / 10;
        assert |Decimal(m)| == |Decimal(k)| + 1;
        if k >= 10 && n < 65536 {
          var j := k / 10;
          assert |Decimal(k)| == |Decimal(j)| + 1;
          if j >= 10 {
            assert j / 10 < 10;
            assert |Decimal(j)| == |Decimal(j / 10)| + 1;
          }
        }
      }
    }
  }

  // ---- Cutting -----------------------------------------------------------------------------------

  /** The part before the first c; all of it if there is none. */
  function UpTo(s: Bytes, c: char): (p: Bytes)
    ensures p <= s && c !in p && (|p| < |s| ==> s[|p|] == c)
    ensures c !in s ==> p == s
    ensures c in s ==> |p| < |s|
  {
    if s == "" || s[0] == c then "" else [s[0]] + UpTo(s[1..], c)
  }

  /** The part after the first c. */
  function Past(s: Bytes, c: char): Bytes
    requires c in s
  {
    s[|UpTo(s, c)| + 1..]
  }

  lemma {:induction false} UpToFirst(a: Bytes, c: char, b: Bytes)
    requires c !in a
    ensures UpTo(a + ([c] + b), c) == a && c in a + ([c] + b) && Past(a + ([c] + b), c) == b
  {
    var s := a + ([c] + b);
    assert s[|a|] == c;
    if a == "" {
      assert s[1..] == b;
    } else {
      UpToFirst(a[1..], c, b);
      assert s[1..] == a[1..] + ([c] + b);
      assert s[|a| + 1..] == b;
    }
  }

  lemma {:induction false} UpToAbsent(a: Bytes, b: Bytes, c: char)
    requires c !in a
    ensures UpTo(a + b, c) == a + UpTo(b, c) && (c in a + b <==> c in b)
  {
    if a == "" {
      assert a + b == b;
    } else {
      assert (a + b)[1..] == a[1..] + b && (a + b)[0] == a[0];
      UpToAbsent(a[1..], b, c);
    }
  }

  lemma {:induction false} UpToPresent(a: Bytes, b: Bytes, c: char)
    requires c in a
    ensures UpTo(a + b, c) == UpTo(a, c) && c in a + b && Past(a + b, c) == Past(a, c) + b
  {
    assert c in a + b;
    if a[0] != c {
      assert (a + b)[1..] == a[1..] + b && (a + b)[0] == a[0];
      UpToPresent(a[1..], b, c);
    } else {
      assert (a + b)[1..] == a[1..] + b;
    }
  }

  /** A first byte and the rest, cut at n. */
  lemma Slices(s: Bytes, n: nat)
    requires 1 <= n <= |s|
    ensures s[1..][n - 1..] == s[n..] && [s[0]] + s[1..][..n - 1] == s[..n]
  {}
}
