/**
 Byte arithmetic: a config rendered from an accepted add-key response is never over the
 limit, because almost every byte of it was paid for by a byte of the response.
 */
module ConfigSize {
  import opened Text
  import opened Utf8
  import opened JsonGrammar
  import opened JsonParser
  import opened JsonString
  import opened JsonDecode
  import opened StrictJson
  import opened Ipv4
  import opened AddKey

  // ---- Raw texts are at least as long as what they decode to --------------------------------

  lemma DecodeLength(raw: Bytes)
    requires Decode(raw).Some?
    ensures |raw| >= |TextOf(Decode(raw).value)|
  {
    hide SkipSpace, ParseValue, Emit, WellFormed;
    var r := ParseValue(Skip(raw), MAX_DEPTH);
    ParseValueSound(Skip(raw), MAX_DEPTH);
    EmitSplits(r.value, r.rest);
  }

  /** Two quotes, or the four bytes of null; and a newline in the string takes two bytes of text. */
  lemma StringLength(raw: Bytes)
    requires UnmarshalString(raw).Some?
    ensures var s := UnmarshalString(raw).value; |raw| >= |s| + Newlines(s) + 2
  {
    hide Decode, Unquote, WellFormedBody;
    DecodeLength(raw);
    var v := Decode(raw).value;
    if v.Str? {
      UnquoteShrinks(v.body);
    }
  }

  lemma IntLength(raw: Bytes)
    requires UnmarshalInt(raw).Some? && UnmarshalInt(raw).value >= 1
    ensures |raw| >= |Decimal(UnmarshalInt(raw).value)|
  {
    hide Decode;
    DecodeLength(raw);
    var v := Decode(raw).value;
    DecimalOfNumber(v.whole);
  }

  lemma StringsLength(raw: Bytes)
    requires UnmarshalStrings(raw).Some? && |UnmarshalStrings(raw).value| >= 1
    ensures |raw| >= |UnmarshalStrings(raw).value[0]| + 4
  {
    hide Decode, Emit, Unquote;
    DecodeLength(raw);
    var v := Decode(raw).value;
    assert v.Array?;
    ArrayLength(v);
  }

  lemma ArrayLength(v: Value)
    requires v.Array? && WellFormed(v) && AsStrings(v).Some?
    ensures |AsStrings(v).value| >= 1 && |TextOf(v)| >= |AsStrings(v).value[0]| + 4
  {
    hide Unquote, WellFormedBody;
    var i := v.items;
    var after := EmitItemsTail(i.tail, "");
    EmitSplits(i.value, after);
    assert |after| >= 1;
    assert WellFormedItems(i) && WellFormed(i.value);
    assert AsStrings(v) == ItemStrings(i) && ItemStrings(i).value[0] == AsString(i.value).value;
    assert EmitItems(i, "") == i.pre + Emit(i.value, after);
    assert TextOf(v) == ['['] + EmitItems(i, "");
    if i.value.Str? {
      UnquoteShrinks(i.value.body);
    }
  }

  // ---- The fields of an object account for its length ---------------------------------------

  function Cost(key: Bytes, text: Bytes): nat { |key| + |text| + 4 }

  function ListCost(keys: seq<Bytes>, fields: Fields): nat
    requires forall i :: 0 <= i < |keys| ==> keys[i] in fields
  {
    if keys == [] then 0 else Cost(keys[0], fields[keys[0]]) + ListCost(keys[1..], fields)
  }

  lemma {:induction false} ListCostRemove(keys: seq<Bytes>, j: nat, fields: Fields)
    requires j < |keys| && forall i :: 0 <= i < |keys| ==> keys[i] in fields
    ensures ListCost(keys, fields) == Cost(keys[j], fields[keys[j]]) + ListCost(keys[..j] + keys[j + 1..], fields)
  {
    hide Cost;
    var rest := keys[..j] + keys[j + 1..];
    if j == 0 {
      assert rest == keys[1..];
    } else {
      ListCostRemove(keys[1..], j - 1, fields);
      assert rest[1..] == keys[1..][..j - 1] + keys[1..][j..];
      assert rest[0] == keys[0];
    }
  }

  /** The members' text covers the cost of any distinct keys among them. */
  lemma {:induction false} MembersCost(m: Members, keys: seq<Bytes>, fields: Fields)
    requires WellFormedMembers(m) && Distinct(Keys(m)) && Distinct(keys) && Stored(Keys(m), Texts(m), fields)
    requires forall i :: 0 <= i < |keys| ==> keys[i] in Keys(m)
    ensures (forall i :: 0 <= i < |keys| ==> keys[i] in fields) && |EmitMembers(m, "")| >= ListCost(keys, fields)
    decreases m
  {
    hide Cost, ListCost, Emit, EmitMembers, WellFormedMembers, Keys, Texts, Distinct;
    KeysSplit(m, fields);
    var key := Keys(m)[0];
    MemberLength(m);
    forall i | 0 <= i < |keys| ensures keys[i] in fields {
      var k :| 0 <= k < |Keys(m)| && Keys(m)[k] == keys[i];
    }
    var rest := keys;
    if key in keys {
      var j :| 0 <= j < |keys| && keys[j] == key;
      ListCostRemove(keys, j, fields);
      rest := keys[..j] + keys[j + 1..];
      RemoveDistinct(keys, j);
    }
    var first := if rest == [] then key else rest[0];
    assert forall i :: 0 <= i < |rest| ==> rest[i] in Keys(m) && rest[i] != key;
    if m.tail.NextMember? {
      MembersCost(m.tail.next, rest, fields);
    } else {
      assert first in Keys(m);
      NoCost(fields);
    }
  }

  /** The keys and texts of members, one at a time. */
  lemma FirstAndRest(m: Members)
    requires WellFormedMembers(m)
    ensures Keys(m) == [Unquote(m.key)] + if m.tail.NextMember? then Keys(m.tail.next) else []
    ensures Texts(m) == [TextOf(m.value)] + if m.tail.NextMember? then Texts(m.tail.next) else []
  {
    hide Emit, WellFormed, WellFormedBody, Unquote;
  }

  lemma DistinctRest(key: Bytes, keys: seq<Bytes>)
    requires Distinct([key] + keys)
    ensures Distinct(keys)
  {
    var all := [key] + keys;
    forall i, j | 0 <= i < j < |keys| ensures keys[i] != keys[j] {
      assert all[i + 1] == keys[i] && all[j + 1] == keys[j];
    }
  }

  ghost predicate Stored(keys: seq<Bytes>, texts: seq<Bytes>, fields: Fields) {
    |keys| == |texts| && forall i :: 0 <= i < |keys| ==> keys[i] in fields && fields[keys[i]] == texts[i]
  }

  lemma StoredRest(key: Bytes, text: Bytes, keys: seq<Bytes>, texts: seq<Bytes>, fields: Fields)
    requires Stored([key] + keys, [text] + texts, fields)
    ensures Stored(keys, texts, fields) && key in fields && fields[key] == text
  {
    var k, t := [key] + keys, [text] + texts;
    assert k[0] == key && t[0] == text;
    forall i | 0 <= i < |keys| ensures keys[i] in fields && fields[keys[i]] == texts[i] {
      assert k[i + 1] == keys[i] && t[i + 1] == texts[i];
    }
  }

  /** The first member, and what is known of the rest. */
  lemma KeysSplit(m: Members, fields: Fields)
    requires WellFormedMembers(m) && Distinct(Keys(m)) && Stored(Keys(m), Texts(m), fields)
    ensures |Keys(m)| >= 1 && Keys(m)[0] in fields && fields[Keys(m)[0]] == TextOf(m.value)
    ensures m.tail.EndMembers? ==> Keys(m) == [Keys(m)[0]]
    ensures m.tail.NextMember? ==>
      && WellFormedMembers(m.tail.next) && Keys(m) == [Keys(m)[0]] + Keys(m.tail.next)
      && Distinct(Keys(m.tail.next)) && Stored(Keys(m.tail.next), Texts(m.tail.next), fields)
  {
    hide Emit, WellFormedBody, Unquote, Stored, Distinct, Keys, Texts;
    FirstAndRest(m);
    var keys := if m.tail.NextMember? then Keys(m.tail.next) else [];
    var texts := if m.tail.NextMember? then Texts(m.tail.next) else [];
    StoredRest(Unquote(m.key), TextOf(m.value), keys, texts, fields);
    DistinctRest(Unquote(m.key), keys);
  }

  lemma NoCost(fields: Fields)
    ensures ListCost([], fields) == 0
  {}

  lemma RemoveDistinct(keys: seq<Bytes>, j: nat)
    requires j < |keys| && Distinct(keys)
    ensures Distinct(keys[..j] + keys[j + 1..])
    ensures forall x :: x in keys[..j] + keys[j + 1..] ==> x in keys && x != keys[j]
  {
    var rest := keys[..j] + keys[j + 1..];
    forall a | 0 <= a < |rest| ensures rest[a] in keys && rest[a] != keys[j] {
      assert rest[a] == if a < j then keys[a] else keys[a + 1];
    }
    forall a, b | 0 <= a < b < |rest| ensures rest[a] != rest[b] {
      assert rest[a] == if a < j then keys[a] else keys[a + 1];
      assert rest[b] == if b < j then keys[b] else keys[b + 1];
    }
  }

  /** One member's text covers its cost and the members after it. */
  lemma MemberLength(m: Members)
    requires WellFormedMembers(m)
    ensures |EmitMembers(m, "")| >= Cost(Keys(m)[0], TextOf(m.value))
      + if m.tail.NextMember? then |EmitMembers(m.tail.next, "")| else 0
  {
    hide Unquote, WellFormedBody, WellFormed, Emit;
    var after := EmitMembersTail(m.tail, "");
    EmitSplits(m.value, after);
    UnquoteShrinks(m.key);
    assert |after| >= 1 + if m.tail.NextMember? then |EmitMembers(m.tail.next, "")| else 0;
  }

  /** A text the strict reader accepts is longer than the cost of its fields. */
  lemma ObjectCost(raw: Bytes, allowed: set<Bytes>, keys: seq<Bytes>)
    requires AllFields(raw, allowed).Some? && Distinct(keys) && keys != []
    requires forall i :: 0 <= i < |keys| ==> keys[i] in allowed
    ensures |raw| >= 1 + ListCost(keys, AllFields(raw, allowed).value)
  {
    hide StrictObject, ListCost, Emit, Keys, Texts, Depth, ValidUtf8, WellFormedMembers;
    var f := AllFields(raw, allowed).value;
    var first := keys[0];
    assert first in f;
    var gap, v := StrictAccepts(raw, allowed);
    MembersCost(v.members, keys, f);
    ObjectLength(v);
  }

  lemma ObjectLength(v: Value)
    requires v.Object?
    ensures |TextOf(v)| == 1 + |EmitMembers(v.members, "")|
  {}

  // ---- The config --------------------------------------------------------------------------

  lemma {:induction false} StrippedLength(s: Bytes)
    ensures |StripNewlines(s)| + Newlines(s) == |s|
  {
    if s != "" { StrippedLength(s[1..]); }
  }

  const ADD_KEY_LIST: seq<Bytes> := [
    "status", "server_key", "server_port", "server_ip", "server_vip", "peer_ip", "peer_pubkey", "dns_servers"]

  lemma AddKeyListDistinct()
    ensures Distinct(ADD_KEY_LIST)
    ensures forall i :: 0 <= i < |ADD_KEY_LIST| ==> ADD_KEY_LIST[i] in ADD_KEY_KEYS
  {
    assert "status"[1] == 't' && "server_key"[7] == 'k' && "server_port"[7] == 'p' && "server_ip"[7] == 'i';
    assert "server_vip"[7] == 'v' && "peer_ip"[0] == 'p' && "peer_pubkey"[5] == 'p' && "dns_servers"[0] == 'd';
    assert "server_key"[1] == 'e' && "server_port"[1] == 'e' && "server_ip"[1] == 'e' && "server_vip"[1] == 'e';
    assert "peer_ip"[5] == 'i';
  }

  lemma AddKeyListCost(f: Fields)
    requires f.Keys == ADD_KEY_KEYS
    ensures forall i :: 0 <= i < |ADD_KEY_LIST| ==> ADD_KEY_LIST[i] in f
    ensures ListCost(ADD_KEY_LIST, f) == 107 + |f["status"]| + |f["server_key"]| + |f["server_port"]|
      + |f["server_ip"]| + |f["server_vip"]| + |f["peer_ip"]| + |f["peer_pubkey"]| + |f["dns_servers"]|
  {
    hide Cost, ListCost;
    var l7 := ["dns_servers"];
    var l6 := ["peer_pubkey"] + l7;
    var l5 := ["peer_ip"] + l6;
    var l4 := ["server_vip"] + l5;
    var l3 := ["server_ip"] + l4;
    var l2 := ["server_port"] + l3;
    var l1 := ["server_key"] + l2;
    assert ["dns_servers"] + [] == l7 && ["status"] + l1 == ADD_KEY_LIST;
    NoCost(f);
    ListCostCons("dns_servers", [], f);
    ListCostCons("peer_pubkey", l7, f);
    ListCostCons("peer_ip", l6, f);
    ListCostCons("server_vip", l5, f);
    ListCostCons("server_ip", l4, f);
    ListCostCons("server_port", l3, f);
    ListCostCons("server_key", l2, f);
    ListCostCons("status", l1, f);
  }

  lemma ListCostCons(key: Bytes, rest: seq<Bytes>, f: Fields)
    requires key in f && forall i :: 0 <= i < |rest| ==> rest[i] in f
    ensures ListCost([key] + rest, f) == |key| + 4 + |f[key]| + ListCost(rest, f)
  {
    assert ([key] + rest)[1..] == rest;
  }

  /** What an accepted response pays for: 170 bytes besides the values that reach the config. */
  lemma BodyLength(raw: Bytes, r: AddKeyResult, portForwarding: bool, publicKey: Bytes, v6: Ipv6Parser)
    requires ParseAddKey(raw) == Good(r) && Validate(portForwarding, r, publicKey, v6) == None
    requires |publicKey| == 44
    ensures |raw| >= 170 + |r.serverKey| + Newlines(r.serverKey) + |Decimal(r.serverPort)| + |r.serverIP|
      + |r.peerIP| + |r.dns[0]|
  {
    hide AllFields, AddKeyOf, ParseAddKey, Validate, ListCost, Newlines, Decimal;
    AcceptedFields(raw, r);
    AcceptedValues(r, portForwarding, publicKey, v6);
    var f := AllFields(raw, ADD_KEY_KEYS).value;
    AddKeyListDistinct();
    ObjectCost(raw, ADD_KEY_KEYS, ADD_KEY_LIST);
    AddKeyListCost(f);
    FieldLengths(f, r);
  }

  lemma AcceptedFields(raw: Bytes, r: AddKeyResult)
    requires ParseAddKey(raw) == Good(r)
    ensures AllFields(raw, ADD_KEY_KEYS).Some? && AddKeyOf(AllFields(raw, ADD_KEY_KEYS).value) == Good(r)
  {
    hide AllFields, StrictObject, AddKeyOf;
  }

  lemma AcceptedValues(r: AddKeyResult, portForwarding: bool, publicKey: Bytes, v6: Ipv6Parser)
    requires Validate(portForwarding, r, publicKey, v6) == None
    ensures |r.status| == 2 && 1 <= r.serverPort <= 65535 && |r.dns| >= 1 && r.peerPubKey == publicKey
    ensures ValidIPv4(r.serverIP, v6) && ValidIPv4(r.dns[0], v6) && KeyText(r.serverKey)
  {
    hide ValidIPv4, ValidPeerIP, KeyText;
  }

  lemma FieldLengths(f: Fields, r: AddKeyResult)
    requires f.Keys == ADD_KEY_KEYS && AddKeyOf(f) == Good(r) && r.serverPort >= 1 && |r.dns| >= 1
    ensures |f["status"]| >= |r.status| + 2
    ensures |f["server_key"]| >= |r.serverKey| + Newlines(r.serverKey) + 2
    ensures |f["server_port"]| >= |Decimal(r.serverPort)|
    ensures |f["server_ip"]| >= |r.serverIP| + 2
    ensures |f["server_vip"]| >= 2
    ensures |f["peer_ip"]| >= |r.peerIP| + 2
    ensures |f["peer_pubkey"]| >= |r.peerPubKey| + 2
    ensures |f["dns_servers"]| >= |r.dns[0]| + 4
  {
    hide UnmarshalString, UnmarshalInt, UnmarshalStrings, Newlines, Decimal;
    StringLength(f["status"]);
    StringLength(f["server_key"]);
    IntLength(f["server_port"]);
    StringLength(f["server_ip"]);
    StringLength(f["server_vip"]);
    StringLength(f["peer_ip"]);
    StringLength(f["peer_pubkey"]);
    StringsLength(f["dns_servers"]);
  }

  lemma ConfigLength(privateKey: Bytes, r: AddKeyResult, v6: Ipv6Parser)
    requires |r.dns| >= 1 && r.serverPort >= 0 && |privateKey| == 44
    ensures |RenderConfig(privateKey, r, v6)| == 169 + |PeerAddress(r.peerIP, v6)| + |r.dns[0]| + |r.serverKey|
      + |r.serverIP| + |Decimal(r.serverPort)|
  {
    hide PeerAddress, Decimal;
  }

  /**
   The rendered config fits, so the test against the limit never fires. Written out with a
   prefix length the address adds nothing, and the config is strictly shorter than the
   response; a bare dotted address gains "/32".
   */
  lemma ConfigFits(raw: Bytes, r: AddKeyResult, portForwarding: bool, privateKey: Bytes, publicKey: Bytes,
                   v6: Ipv6Parser)
    requires |raw| <= MAX_BODY && ParseAddKey(raw) == Good(r)
    requires |privateKey| == 44 && |publicKey| == 44
    requires Validate(portForwarding, r, publicKey, v6) == None
    ensures |RenderConfig(privateKey, r, v6)| <= MAX_CONFIG
    ensures !ParseIP(r.peerIP, v6).MappedIpv4? ==> |RenderConfig(privateKey, r, v6)| < |raw|
    ensures ParseDotted(r.peerIP).Some? ==> |RenderConfig(privateKey, r, v6)| < |raw| + 3
  {
    hide ValidIPv4, Newlines, Decimal, RenderConfig, ParseAddKey, Validate, ParseIP, ParseDotted, FirstSeparator,
      Dotted, PeerAddress;
    hide StripNewlines, Base64Char;
    AcceptedValues(r, portForwarding, publicKey, v6);
    BodyLength(raw, r, portForwarding, publicKey, v6);
    ConfigLength(privateKey, r, v6);
    StrippedLength(r.serverKey);
    DecimalWidth(r.serverPort);
    var server := ValidIPv4Unique(r.serverIP, v6);
    var dns := ValidIPv4Unique(r.dns[0], v6);
    AddressLength(r.peerIP, v6);
  }

  lemma AddressLength(s: Bytes, v6: Ipv6Parser)
    ensures ParseIP(s, v6).MappedIpv4? ==> |PeerAddress(s, v6)| <= 18
    ensures !ParseIP(s, v6).MappedIpv4? ==> PeerAddress(s, v6) == s
    ensures ParseDotted(s).Some? ==> ParseIP(s, v6).MappedIpv4? && PeerAddress(s, v6) == s + "/32"
  {
    hide Dotted, ParseDotted, FirstSeparator;
    if ParseIP(s, v6).MappedIpv4? {
      DottedChars(ParseIP(s, v6).address);
    }
    if ParseDotted(s).Some? {
      ParsedOctets(s);
      DottedExact(s, ParseDotted(s).value);
      DottedChars(ParseDotted(s).value);
    }
  }
}
