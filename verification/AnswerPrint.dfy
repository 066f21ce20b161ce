/** Responses and credentials printed as a server or a user would, and read back. */
module AnswerPrint {
  import opened Text
  import opened Utf8
  import opened JsonGrammar
  import opened JsonString
  import opened JsonDecode
  import opened JsonLayout
  import opened JsonPrint
  import opened DecodedUtf8
  import opened StrictJson
  import opened CredentialInput
  import opened AddKey

  // ---- Lists of strings --------------------------------------------------------------------------

  predicate AllAscii(list: seq<Bytes>) { forall i :: 0 <= i < |list| ==> Ascii(list[i]) }

  function StringItems(list: seq<Bytes>): Items
    requires list != [] && AllAscii(list)
  {
    Items("", StringValue(list[0]), if |list| == 1 then EndItems("") else NextItem("", StringItems(list[1..])))
  }

  function StringsValue(list: seq<Bytes>): Value
    requires AllAscii(list)
  {
    if list == [] then EmptyArray("") else Array(StringItems(list))
  }

  lemma {:induction false} StringItemsRead(list: seq<Bytes>)
    requires list != [] && AllAscii(list)
    ensures var i := StringItems(list);
      WellFormedItems(i) && CleanItems(i) && DepthItems(i) == 0 && ItemStrings(i) == Some(list)
  {
    hide QuoteBody, Unquote, WellFormedBody, ValidUtf8;
    QuoteDecodes(list[0]);
    AsciiIsValid(QuoteBody(list[0]));
    if |list| > 1 {
      StringItemsRead(list[1..]);
      assert list == [list[0]] + list[1..];
    } else {
      assert list == [list[0]];
    }
  }

  /** A printed list of strings decodes to the list. */
  lemma StringsRead(list: seq<Bytes>)
    requires AllAscii(list)
    ensures var v := StringsValue(list);
      WellFormed(v) && Clean(v) && Depth(v) <= 1 && UnmarshalStrings(TextOf(v)) == Some(list)
  {
    hide Decode, Emit, ItemStrings;
    if list != [] { StringItemsRead(list); }
    DecodeText(StringsValue(list));
  }

  // ---- The add-key answer ------------------------------------------------------------------------

  predicate PrintableAnswer(r: AddKeyResult) {
    && Ascii(r.status) && Ascii(r.serverKey) && Ascii(r.serverIP) && Ascii(r.serverVIP)
    && Ascii(r.peerIP) && Ascii(r.peerPubKey)
    && AllAscii(r.dns) && 0 <= r.serverPort <= MAX_INT
  }

  function AnswerFields(r: AddKeyResult): seq<(Bytes, Value)>
    requires PrintableAnswer(r)
  {
    [ ("status", StringValue(r.status)),
      ("server_key", StringValue(r.serverKey)),
      ("server_port", NatValue(r.serverPort)),
      ("server_ip", StringValue(r.serverIP)),
      ("server_vip", StringValue(r.serverVIP)),
      ("peer_ip", StringValue(r.peerIP)),
      ("peer_pubkey", StringValue(r.peerPubKey)),
      ("dns_servers", StringsValue(r.dns))]
  }

  function AnswerText(r: AddKeyResult): Bytes
    requires PrintableAnswer(r)
  {
    TextOf(Compact(AnswerFields(r)))
  }

  lemma AnswerKeysPlain()
    ensures PlainKey("status") && PlainKey("server_key") && PlainKey("server_port") && PlainKey("server_ip")
    ensures PlainKey("server_vip") && PlainKey("peer_ip") && PlainKey("peer_pubkey") && PlainKey("dns_servers")
  {}

  lemma AnswerFieldsPlain(r: AddKeyResult)
    requires PrintableAnswer(r)
    ensures PlainFields(AnswerFields(r), ADD_KEY_KEYS, {})
  {
    hide StringValue, NatValue, StringsValue, PlainKey, Ascii, AllAscii;
    AnswerKeysPlain();
    var f := AnswerFields(r);
    assert "server_key"[7] == 'k' && "server_vip"[7] == 'v';
    assert "server_port"[0] == 's' && "peer_pubkey"[0] == 'p' && "dns_servers"[0] == 'd';
    forall i, j | 0 <= i < j < |f| ensures f[i].0 != f[j].0 {
      assert |f[i].0| == |f[j].0| && |f[i].0| > 7 ==> f[i].0[0] != f[j].0[0] || f[i].0[7] != f[j].0[7];
    }
  }

  lemma AnswerValuesGood(r: AddKeyResult)
    requires PrintableAnswer(r)
    ensures GoodValues(AnswerFields(r), 1)
    ensures var f := AnswerFields(r);
      && UnmarshalString(TextOf(f[0].1)) == Some(r.status) && UnmarshalString(TextOf(f[1].1)) == Some(r.serverKey)
      && UnmarshalInt(TextOf(f[2].1)) == Some(r.serverPort) && UnmarshalString(TextOf(f[3].1)) == Some(r.serverIP)
      && UnmarshalString(TextOf(f[4].1)) == Some(r.serverVIP) && UnmarshalString(TextOf(f[5].1)) == Some(r.peerIP)
      && UnmarshalString(TextOf(f[6].1)) == Some(r.peerPubKey) && UnmarshalStrings(TextOf(f[7].1)) == Some(r.dns)
  {
    hide Clean, Depth, WellFormed, StringValue, NatValue, StringsValue, UnmarshalString, UnmarshalStrings, UnmarshalInt,
      Emit, Ascii;
    StringReads(r.status);
    StringReads(r.serverKey);
    NatReads(r.serverPort);
    StringReads(r.serverIP);
    StringReads(r.serverVIP);
    StringReads(r.peerIP);
    StringReads(r.peerPubKey);
    StringsRead(r.dns);
  }

  /** Every printable answer, printed, parses to itself. */
  lemma AnswerRoundTrip(r: AddKeyResult)
    requires PrintableAnswer(r)
    ensures ParseAddKey(AnswerText(r)) == Good(r)
  {
    hide StrictObject, AllFields, UnmarshalString, UnmarshalStrings, UnmarshalInt, Emit, PlainFields, GoodValues,
      StringValue, NatValue, StringsValue, Compact, WellFormed, Clean, Depth, Acceptable, PrintableAnswer;
    var fields := AnswerFields(r);
    AnswerFieldsPlain(r);
    AnswerValuesGood(r);
    CompactAccepted(fields, ADD_KEY_KEYS, 1);
    assert fields[0].0 == "status" && fields[1].0 == "server_key" && fields[2].0 == "server_port" &&
           fields[3].0 == "server_ip";
    assert fields[4].0 == "server_vip" && fields[5].0 == "peer_ip" && fields[6].0 == "peer_pubkey" &&
           fields[7].0 == "dns_servers";
    CompactAllFields(fields, ADD_KEY_KEYS, 1);
  }

  // ---- The token and the credentials -------------------------------------------------------------

  function TokenText(token: Bytes): Bytes
    requires Ascii(token)
  {
    TextOf(Compact([("token", StringValue(token))]))
  }

  /** Every token within the rules, printed, parses to itself. */
  lemma TokenRoundTrip(token: Bytes)
    requires VisibleAscii(token, MAX_TOKEN)
    ensures Ascii(token) && ParseToken(TokenText(token)) == Good(token)
  {
    hide StrictObject, AllFields, UnmarshalString, Emit, StringValue, Compact, WellFormed, Clean, Depth, Acceptable;
    var fields := [("token", StringValue(token))];
    StringReads(token);
    assert PlainKey("token");
    assert fields[0].0 == "token";
    CompactAccepted(fields, {"token"}, 0);
    CompactAllFields(fields, {"token"}, 0);
  }

  /** A string body with only what must be escaped among ASCII escaped, and every other byte as it is. */
  function Written(s: Bytes): (b: Bytes)
    ensures |b| <= 6 * |s|
  {
    if s == "" then "" else (if s[0] as int < 0x80 then QuoteByte(s[0]) else [s[0]]) + Written(s[1..])
  }

  lemma {:induction false} WrittenDecodes(s: Bytes)
    ensures WellFormedBody(Written(s)) && Unquote(Written(s)) == s
  {
    hide QuoteByte;
    if s != "" {
      var rest := Written(s[1..]);
      WrittenDecodes(s[1..]);
      assert s == [s[0]] + s[1..];
      if s[0] as int < 0x80 {
        QuoteByteDecodes(s[0], rest);
      } else {
        assert ([s[0]] + rest)[1..] == rest;
      }
    }
  }

  lemma {:induction false} WrittenRun(s: Bytes, n: nat)
    requires n <= |s| && forall i :: 0 <= i < n ==> s[i] as int >= 0x80
    ensures Written(s) == s[..n] + Written(s[n..])
  {
    hide QuoteByte;
    if n == 0 {
      assert s[..0] == "" && s[0..] == s;
    } else {
      WrittenRun(s[1..], n - 1);
      Slices(s, n);
      assert Written(s) == [s[0]] + Written(s[1..]);
    }
  }

  lemma {:induction false} WrittenIsValid(s: Bytes)
    requires ValidUtf8(s)
    ensures ValidUtf8(Written(s))
    decreases |s|
  {
    hide RuneLength, QuoteByte;
    if s != "" {
      var n := RuneLength(s);
      RuneAlone(s);
      RuneBytes(s);
      WrittenIsValid(s[n..]);
      if n == 1 {
        QuoteByteUnit(s[0], "");
        AsciiThen(QuoteByte(s[0]), Written(s[1..]));
      } else {
        WrittenRun(s, n);
        ValidPrefix(s[..n], Written(s[n..]));
      }
    }
  }

  lemma {:induction false} WrittenAscii(s: Bytes)
    requires Ascii(s)
    ensures Written(s) == QuoteBody(s)
  {
    if s != "" { WrittenAscii(s[1..]); }
  }

  lemma WrittenReads(s: Bytes)
    requires ValidUtf8(s)
    ensures var v := Str(Written(s));
      WellFormed(v) && Clean(v) && Depth(v) == 0 && UnmarshalString(TextOf(v)) == Some(s)
  {
    hide Decode, Emit, ValidUtf8;
    WrittenDecodes(s);
    WrittenIsValid(s);
    DecodeText(Str(Written(s)));
  }

  function LoginText(c: Credentials): Bytes {
    TextOf(Compact([("username", Str(Written(c.username))), ("password", Str(Written(c.password)))]))
  }

  /** All credentials of valid UTF-8 with neither part empty, written down, are read back. */
  lemma LoginRoundTrip(c: Credentials)
    requires ValidUtf8(c.username) && ValidUtf8(c.password) && c.username != "" && c.password != ""
    ensures ParseCredentials(LoginText(c)) == Some(c)
  {
    hide StrictObject, UnmarshalString, Emit, Written, Compact, WellFormed, Clean, Depth, Acceptable, ValidUtf8;
    var fields := [("username", Str(Written(c.username))), ("password", Str(Written(c.password)))];
    WrittenReads(c.username);
    WrittenReads(c.password);
    assert PlainKey("username") && PlainKey("password") && "username"[0] == 'u' && "password"[0] == 'p';
    assert fields[0].0 == "username" && fields[1].0 == "password";
    CompactAccepted(fields, CREDENTIAL_KEYS, 0);
  }

  /** And nothing else is ever read. */
  lemma LoginsAreText(raw: Bytes)
    requires ParseCredentials(raw).Some?
    ensures var c := ParseCredentials(raw).value;
      ValidUtf8(c.username) && ValidUtf8(c.password) && c.username != "" && c.password != ""
  {
    hide StrictObject, UnmarshalString, ValidUtf8;
    DecodedStringsAreValid(raw, CREDENTIAL_KEYS, "username");
    DecodedStringsAreValid(raw, CREDENTIAL_KEYS, "password");
  }
}
