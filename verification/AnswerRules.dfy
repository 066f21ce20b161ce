/** What validation asks of an add-key answer, in terms of addresses. */
module AnswerRules {
  import opened Text
  import opened Ipv4
  import opened AddKey

  /** A dotted quad and a slash and a number of at most 32, of any length. */
  ghost predicate DottedPrefix(s: Bytes, a: Address, mask: Bytes) {
    s == Dotted(a) + ("/" + mask) && PrefixLength(mask, 32)
  }

  ghost predicate IsDotted(s: Bytes) { exists a: Address :: s == Dotted(a) }

  lemma {:induction false} SlashAfter(d: Bytes, rest: Bytes)
    requires '/' !in d
    ensures SlashIndex(d + ("/" + rest)) == |d|
  {
    if d != "" {
      SlashAfter(d[1..], rest);
      assert (d + ("/" + rest))[1..] == d[1..] + ("/" + rest);
    }
  }

  lemma {:induction false} SeparatorStays(d: Bytes, rest: Bytes)
    requires FirstSeparator(d).Some?
    ensures FirstSeparator(d + rest) == FirstSeparator(d)
  {
    if d[0] != '.' && d[0] != ':' && d[0] != '%' {
      SeparatorStays(d[1..], rest);
      assert (d + rest)[1..] == d[1..] + rest;
    }
  }

  /** A text without the look of IPv6 is an address exactly when it is a canonical dotted quad. */
  lemma DottedText(s: Bytes, v6: Ipv6Parser)
    requires FirstSeparator(s) != Some(':')
    ensures ParseIP(s, v6).MappedIpv4? <==> IsDotted(s)
    ensures ParseIP(s, v6).MappedIpv4? ==> s == Dotted(ParseIP(s, v6).address)
    ensures !ParseIP(s, v6).Ipv6Address?
  {
    hide Dotted, ParseDotted;
    if ParseIP(s, v6).MappedIpv4? {
      ParsedOctets(s);
      DottedExact(s, ParseIP(s, v6).address);
    }
    if a: Address :| s == Dotted(a) {
      DottedExact(s, a);
      DottedChars(a);
    }
  }

  /** A text the IPv6 parser takes for an IPv4 address, a slash, and a number of at most 128. */
  ghost predicate MappedPrefix(s: Bytes, head: Bytes, mask: Bytes, v6: Ipv6Parser) {
    && s == head + ("/" + mask) && '/' !in head && PrefixLength(mask, 128)
    && FirstSeparator(head) == Some(':') && v6(head).MappedIpv4?
  }

  /**
   What peer_ip may be: a canonical dotted quad, or one with a prefix length of at most 32,
   which may be written with any number of leading zeros; or, if a colon comes first, an
   IPv4-mapped address, with a prefix length of at most 128 if it is no address as a whole.
   */
  lemma PeerIPExact(s: Bytes, v6: Ipv6Parser)
    ensures ValidPeerIP(s, v6) <==>
      if FirstSeparator(s) == Some(':') then
        v6(s).MappedIpv4? || (v6(s).NotAnAddress? && exists head, mask :: MappedPrefix(s, head, mask, v6))
      else IsDotted(s) || exists a: Address, mask :: DottedPrefix(s, a, mask)
  {
    hide MappedPrefix, DottedPrefix, IsDotted, ValidPeerIP;
    if FirstSeparator(s) == Some(':') { ColonPeerIP(s, v6); } else { DottedPeerIP(s, v6); }
  }

  lemma ColonPeerIP(s: Bytes, v6: Ipv6Parser)
    requires FirstSeparator(s) == Some(':')
    ensures ValidPeerIP(s, v6) <==>
      v6(s).MappedIpv4? || (v6(s).NotAnAddress? && exists head, mask :: MappedPrefix(s, head, mask, v6))
  {
    hide ParseDotted, PrefixLength, FirstSeparator;
    var i := SlashIndex(s);
    assert ParseIP(s, v6) == v6(s);
    if i < |s| {
      var head, mask := s[..i], s[i + 1..];
      SplitAt(s, i);
      NoSlashBefore(s);
      if FirstSeparator(head).Some? { SeparatorStays(head, "/" + mask); }
      assert ParseIP(head, v6) == if FirstSeparator(head) == Some(':') then v6(head) else NotAnAddress;
      if ValidPeerIP(s, v6) && v6(s).NotAnAddress? { assert MappedPrefix(s, head, mask, v6); }
    }
    if v6(s).NotAnAddress? {
      if head, mask :| MappedPrefix(s, head, mask, v6) {
        SlashAfter(head, mask);
        assert s[..|head|] == head && s[|head| + 1..] == mask;
      }
    }
  }

  lemma {:induction false} NoSlashBefore(s: Bytes)
    ensures '/' !in s[..SlashIndex(s)]
  {
    if s != "" && s[0] != '/' {
      NoSlashBefore(s[1..]);
      assert s[..SlashIndex(s)] == [s[0]] + s[1..][..SlashIndex(s[1..])];
    }
  }

  lemma DottedPeerIP(s: Bytes, v6: Ipv6Parser)
    requires FirstSeparator(s) != Some(':')
    ensures ValidPeerIP(s, v6) <==> IsDotted(s) || exists a: Address, mask :: DottedPrefix(s, a, mask)
  {
    hide ParseIP, Dotted, PrefixLength, FirstSeparator;
    DottedText(s, v6);
    var i := SlashIndex(s);
    if i < |s| {
      SplitAtSlash(s, v6);
      DottedText(s[..i], v6);
      if ParseIP(s[..i], v6).MappedIpv4? {
        var a := ParseIP(s[..i], v6).address;
        DottedChars(a);
        assert PrefixLength(s[i + 1..], 32) ==> DottedPrefix(s, a, s[i + 1..]);
      }
    }
    if a: Address, mask :| DottedPrefix(s, a, mask) {
      PrefixRead(s, a, mask, v6);
    }
  }

  lemma SplitAt(s: Bytes, i: nat)
    requires i < |s| && s[i] == '/'
    ensures s == s[..i] + ("/" + s[i + 1..])
  {}

  lemma SplitAtSlash(s: Bytes, v6: Ipv6Parser)
    requires SlashIndex(s) < |s| && FirstSeparator(s) != Some(':')
    ensures s == s[..SlashIndex(s)] + ("/" + s[SlashIndex(s) + 1..])
    ensures FirstSeparator(s[..SlashIndex(s)]) != Some(':')
  {
    hide FirstSeparator;
    var i := SlashIndex(s);
    SplitAt(s, i);
    if FirstSeparator(s[..i]).Some? { SeparatorStays(s[..i], "/" + s[i + 1..]); }
  }

  lemma PrefixRead(s: Bytes, a: Address, mask: Bytes, v6: Ipv6Parser)
    requires DottedPrefix(s, a, mask) && FirstSeparator(s) != Some(':')
    ensures ValidPeerIP(s, v6)
  {
    hide ParseIP, Dotted, PrefixLength, FirstSeparator;
    DottedChars(a);
    SlashAfter(Dotted(a), mask);
    assert s[..|Dotted(a)|] == Dotted(a) && s[|Dotted(a)| + 1..] == mask;
    DottedText(Dotted(a), v6);
    DottedText(s, v6);
    if b: Address :| s == Dotted(b) {
      DottedChars(b);
      assert s[|Dotted(a)|] == '/';
    }
  }

  /** An answer passes validation exactly when all of this holds. */
  lemma ValidateExact(portForwarding: bool, r: AddKeyResult, publicKey: Bytes, v6: Ipv6Parser)
    ensures Validate(portForwarding, r, publicKey, v6) == None <==>
      && r.status == "OK" && KeyText(r.serverKey) && 1 <= r.serverPort <= 65535 && IsDotted(r.serverIP)
      && ValidPeerIP(r.peerIP, v6) && KeyText(publicKey) && r.peerPubKey == publicKey
      && 1 <= |r.dns| <= 8 && (forall i :: 0 <= i < |r.dns| ==> IsDotted(r.dns[i]))
      && (if portForwarding then IsDotted(r.serverVIP) else r.serverVIP == "")
  {
    hide ValidIPv4, ValidPeerIP, KeyText, Dotted;
    ValidIPv4Exact(r.serverIP, v6);
    ValidIPv4Exact(r.serverVIP, v6);
    forall i | 0 <= i < |r.dns| ensures ValidIPv4(r.dns[i], v6) <==> IsDotted(r.dns[i]) {
      ValidIPv4Exact(r.dns[i], v6);
    }
  }
}
