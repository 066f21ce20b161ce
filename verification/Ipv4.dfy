/**
 IPv4 text. `ParseDotted` is the dotted-quad half of net.ParseIP (one pass over the bytes,
 no leading zeros); the IPv6 half is a parameter, of which only this is used: some texts
 with a colon denote an IPv4-mapped address.
 */
module Ipv4 {
  import opened Text

  /** Four octets, most significant first. */
  type Address = a: seq<nat> | |a| == 4 && forall i :: 0 <= i < 4 ==> a[i] < 256
    witness [0, 0, 0, 0]

  /** What the IPv6 parser makes of a text: the IPv4 address it maps, if any. */
  datatype Mapped = NotAnAddress | Ipv6Address | MappedIpv4(address: Address)

  type Ipv6Parser = Bytes -> Mapped

  function Dotted(a: Address): Bytes {
    Decimal(a[0]) + ['.'] + Decimal(a[1]) + ['.'] + Decimal(a[2]) + ['.'] + Decimal(a[3])
  }

  /** The scan: `octets` are finished, `val` has `len` digits read so far. */
  function Scan(s: Bytes, octets: seq<nat>, val: nat, len: nat): Option<seq<nat>> {
    if s == "" then
      if |octets| == 3 && len > 0 then Some(octets + [val]) else None
    else if IsDigit(s[0]) then
      if len == 1 && val == 0 then None
      else
        var v := val * 10 + DigitValue(s[0]);
        if v > 255 then None else Scan(s[1..], octets, v, len + 1)
    else if s[0] == '.' then
      if len == 0 || |s| == 1 || |octets| == 3 then None else Scan(s[1..], octets + [val], 0, 0)
    else None
  }

  function ParseDotted(s: Bytes): Option<seq<nat>> { Scan(s, [], 0, 0) }

  function Join(octets: seq<nat>): Bytes {
    if octets == [] then "" else Join(octets[..|octets| - 1]) + Decimal(octets[|octets| - 1]) + ['.']
  }

  /** The text the scan state stands for. */
  function Read(octets: seq<nat>, val: nat, len: nat): Bytes {
    Join(octets) + if len == 0 then "" else Decimal(val)
  }

  predicate Consistent(octets: seq<nat>, val: nat, len: nat) {
    && |octets| <= 3 && (forall i :: 0 <= i < |octets| ==> octets[i] < 256)
    && val < 256 && (len == 0 ==> val == 0) && (len > 1 ==> val > 0)
  }

  lemma JoinFour(o: seq<nat>)
    requires |o| == 3
    ensures Join(o) == Decimal(o[0]) + ['.'] + Decimal(o[1]) + ['.'] + Decimal(o[2]) + ['.']
  {
    assert o[..2][..1] == o[..1] && o[..1][..0] == [];
    assert Join(o[..1]) == "" + Decimal(o[0]) + ['.'] == Decimal(o[0]) + ['.'];
    assert Join(o[..2]) == Join(o[..1]) + Decimal(o[1]) + ['.'];
  }

  lemma DecimalSnoc(val: nat, d: nat)
    requires val > 0 && d < 10
    ensures Decimal(val * 10 + d) == Decimal(val) + [DigitChar(d)]
  {
    assert (val * 10 + d) / 10 == val && (val * 10 + d) % 10 == d;
  }

  lemma ReadDigit(octets: seq<nat>, val: nat, len: nat, c: char)
    requires Consistent(octets, val, len) && IsDigit(c) && !(len == 1 && val == 0)
    ensures Read(octets, val * 10 + DigitValue(c), len + 1) == Read(octets, val, len) + [c]
  {
    var d := DigitValue(c);
    assert DigitChar(d) == c;
    if len == 0 {
      assert Decimal(d) == [c];
    } else {
      DecimalSnoc(val, d);
    }
  }

  /** Whatever the scan accepts is the canonical print of the octets it returns. */
  lemma {:induction false} ScanSound(s: Bytes, octets: seq<nat>, val: nat, len: nat)
    requires Consistent(octets, val, len) && Scan(s, octets, val, len).Some?
    ensures var a := Scan(s, octets, val, len).value;
      |a| == 4 && (forall i :: 0 <= i < 4 ==> a[i] < 256) && Read(octets, val, len) + s == Dotted(a)
    decreases |s|
  {
    hide Decimal, Join;
    if s == "" {
      JoinFour(octets);
      assert Read(octets, val, len) + s == Join(octets) + Decimal(val);
    } else if IsDigit(s[0]) {
      ReadDigit(octets, val, len, s[0]);
      ScanSound(s[1..], octets, val * 10 + DigitValue(s[0]), len + 1);
      OneMore(Read(octets, val, len), s);
    } else {
      ReadDot(octets, val, len);
      ScanSound(s[1..], octets + [val], 0, 0);
      OneMore(Read(octets, val, len), s);
    }
  }

  lemma OneMore(before: Bytes, s: Bytes)
    requires s != ""
    ensures (before + [s[0]]) + s[1..] == before + s
  {}

  lemma ReadDot(octets: seq<nat>, val: nat, len: nat)
    requires len > 0
    ensures Read(octets + [val], 0, 0) == Read(octets, val, len) + ['.']
  {
    hide Decimal;
    assert (octets + [val])[..|octets|] == octets;
  }

  /** The digits of one octet are taken in whole. */
  lemma {:induction false} ScanOctet(o: nat, rest: Bytes, octets: seq<nat>)
    requires o < 256
    ensures Scan(Decimal(o) + rest, octets, 0, 0) == Scan(rest, octets, o, |Decimal(o)|)
  {
    if o < 10 {
      assert Decimal(o) + rest == [DigitChar(o)] + rest;
      assert ([DigitChar(o)] + rest)[1..] == rest;
    } else {
      var h, d := o / 10, o % 10;
      var after := [DigitChar(d)] + rest;
      assert Decimal(o) + rest == Decimal(h) + after;
      ScanOctet(h, after, octets);
      assert after[1..] == rest;
      assert !(|Decimal(h)| == 1 && h == 0) && h * 10 + d == o;
    }
  }

  lemma ScanDot(rest: Bytes, octets: seq<nat>, val: nat, len: nat)
    requires len > 0 && rest != "" && |octets| < 3
    ensures Scan(['.'] + rest, octets, val, len) == Scan(rest, octets + [val], 0, 0)
  {
    assert (['.'] + rest)[1..] == rest;
  }

  lemma ScanDotted(a: Address)
    ensures ParseDotted(Dotted(a)) == Some(a)
  {
    hide Scan, Decimal;
    var t3 := Decimal(a[3]);
    var t2 := Decimal(a[2]) + (['.'] + t3);
    var t1 := Decimal(a[1]) + (['.'] + t2);
    var t0 := Decimal(a[0]) + (['.'] + t1);
    assert Dotted(a) == t0;
    ScanOctet(a[0], ['.'] + t1, []);
    ScanDot(t1, [], a[0], |Decimal(a[0])|);
    assert [] + [a[0]] == [a[0]];
    ScanOctet(a[1], ['.'] + t2, [a[0]]);
    ScanDot(t2, [a[0]], a[1], |Decimal(a[1])|);
    assert [a[0]] + [a[1]] == [a[0], a[1]];
    ScanOctet(a[2], ['.'] + t3, [a[0], a[1]]);
    ScanDot(t3, [a[0], a[1]], a[2], |Decimal(a[2])|);
    assert [a[0], a[1]] + [a[2]] == [a[0], a[1], a[2]];
    assert t3 + "" == t3;
    ScanOctet(a[3], "", [a[0], a[1], a[2]]);
    ScanFinish([a[0], a[1], a[2]], a[3], |t3|);
    assert [a[0], a[1], a[2]] + [a[3]] == a;
  }

  lemma ScanFinish(octets: seq<nat>, val: nat, len: nat)
    requires |octets| == 3 && len > 0
    ensures Scan("", octets, val, len) == Some(octets + [val])
  {}

  /** Dotted-quad text is accepted exactly when it is the canonical print of an address. */
  lemma DottedExact(s: Bytes, a: Address)
    ensures ParseDotted(s) == Some(a) <==> s == Dotted(a)
  {
    if ParseDotted(s) == Some(a) {
      ScanSound(s, [], 0, 0);
      assert Read([], 0, 0) + s == s;
    }
    ScanDotted(a);
  }

  /** Two addresses print alike only if they are the same. */
  lemma DottedInjective(a: Address, b: Address)
    requires Dotted(a) == Dotted(b)
    ensures a == b
  {
    ScanDotted(a);
    ScanDotted(b);
  }

  // ---- net.ParseIP and the tests built on it ---------------------------------------

  /** net.ParseIP followed by To4: texts whose first separator is a colon go to the IPv6 parser. */
  function ParseIP(s: Bytes, v6: Ipv6Parser): Mapped {
    match FirstSeparator(s)
    case Some('.') =>
      (match ParseDotted(s)
       case Some(a) => (ParsedOctets(s); MappedIpv4(a))
       case None => NotAnAddress)
    case Some(':') => v6(s)
    case _ => NotAnAddress
  }

  lemma ParsedOctets(s: Bytes)
    requires ParseDotted(s).Some?
    ensures |ParseDotted(s).value| == 4 && forall i :: 0 <= i < 4 ==> ParseDotted(s).value[i] < 256
  {
    ScanSound(s, [], 0, 0);
  }

  /** The first of '.', ':' and '%' in the text. */
  function FirstSeparator(s: Bytes): Option<char> {
    if s == "" then None
    else if s[0] == '.' || s[0] == ':' || s[0] == '%' then Some(s[0])
    else FirstSeparator(s[1..])
  }

  /** validIPv4: the text parses, is IPv4, and prints back as itself. */
  predicate ValidIPv4(s: Bytes, v6: Ipv6Parser) {
    match ParseIP(s, v6)
    case MappedIpv4(a) => Dotted(a) == s
    case _ => false
  }

  lemma DottedChars(a: Address)
    ensures forall i :: 0 <= i < |Dotted(a)| ==> IsDigit(Dotted(a)[i]) || Dotted(a)[i] == '.'
    ensures 7 <= |Dotted(a)| <= 15
    ensures FirstSeparator(Dotted(a)) == Some('.')
  {
    hide Decimal;
    DecimalWidth(a[0]);
    DecimalWidth(a[1]);
    DecimalWidth(a[2]);
    DecimalWidth(a[3]);
    var tail := Decimal(a[1]) + ['.'] + Decimal(a[2]) + ['.'] + Decimal(a[3]);
    assert Dotted(a) == Decimal(a[0]) + (['.'] + tail);
    SeparatorAfterDigits(Decimal(a[0]), tail);
  }

  lemma {:induction false} SeparatorAfterDigits(d: Bytes, tail: Bytes)
    requires AllDigits(d)
    ensures FirstSeparator(d + (['.'] + tail)) == Some('.')
  {
    if d == "" {
      assert d + (['.'] + tail) == ['.'] + tail;
    } else {
      assert (d + (['.'] + tail))[1..] == d[1..] + (['.'] + tail);
      SeparatorAfterDigits(d[1..], tail);
    }
  }

  /** Whatever the IPv6 parser does, the accepted texts are the canonical dotted quads. */
  lemma ValidIPv4Exact(s: Bytes, v6: Ipv6Parser)
    ensures ValidIPv4(s, v6) <==> exists a: Address :: s == Dotted(a)
  {
    if ValidIPv4(s, v6) {
      assert s == Dotted(ParseIP(s, v6).address);
    }
    if a: Address :| s == Dotted(a) {
      DottedChars(a);
      ScanDotted(a);
    }
  }

  /** Each accepted text denotes exactly one address. */
  lemma ValidIPv4Unique(s: Bytes, v6: Ipv6Parser) returns (a: Address)
    requires ValidIPv4(s, v6)
    ensures s == Dotted(a) && 7 <= |s| <= 15
    ensures forall b: Address :: s == Dotted(b) ==> b == a
  {
    ValidIPv4Exact(s, v6);
    a :| s == Dotted(a);
    DottedChars(a);
    forall b: Address | s == Dotted(b) ensures b == a {
      DottedInjective(a, b);
    }
  }
}
