/**
 The credential reader. It repeats the strict object reader by hand, decoding each value
 as it goes; `ParseCredentials` defines it from the strict reader instead, and
 `ReadCredentials` is proved to agree on every input.
 */
module CredentialInput {
  import opened Text
  import opened Utf8
  import opened JsonGrammar
  import opened JsonParser
  import opened JsonDecode
  import opened StrictJson

  datatype Credentials = Credentials(username: Bytes, password: Bytes)

  const CREDENTIAL_KEYS: set<Bytes> := {"username", "password"}

  /** The field is present and decodes to a string that is not empty. */
  predicate NonEmptyString(fields: Fields, key: Bytes) {
    && key in fields
    && UnmarshalString(fields[key]).Some?
    && UnmarshalString(fields[key]).value != ""
  }

  /** What the credential input means, by way of the strict reader. */
  function ParseCredentials(raw: Bytes): Option<Credentials> {
    match StrictObject(raw, CREDENTIAL_KEYS)
    case Accepted(f) =>
      if NonEmptyString(f, "username") && NonEmptyString(f, "password")
      then Some(Credentials(UnmarshalString(f["username"]).value, UnmarshalString(f["password"]).value))
      else None
    case _ => None
  }

  /** The values decoded so far are the stored fields, decoded. */
  ghost predicate Mirrors(values: map<Bytes, Bytes>, fields: Fields) {
    && values.Keys == fields.Keys
    && forall k :: k in fields ==> values[k] != "" && UnmarshalString(fields[k]) == Some(values[k])
  }

  method ReadCredentials(raw: Bytes) returns (r: Option<Credentials>)
    ensures r == ParseCredentials(raw)
  {
    hide KeyAt, ReadValue, Skip, ValidUtf8, Awaits, ScanStart, WellFormed, TextOf, IsSpace;
    hide UnmarshalString, AsString, ParseCredentials, Mirrors, ScanMember, ScanTail;
    Rejected(raw);
    NothingMirrored();
    if |raw| == 0 || !ValidUtf8(raw) { return None; }
    var decoder := new Decoder(raw);
    assert raw[0..] == raw;
    var token := decoder.NextToken();
    if token != OpenBrace { return None; }
    var values: map<Bytes, Bytes> := map[];
    ghost var fields: Fields := map[];
    ghost var goal := StrictObject(raw, CREDENTIAL_KEYS);
    StartAwaits(Skip(raw)[1..], CREDENTIAL_KEYS);
    var more := decoder.More();
    while more
      invariant decoder.Valid() && decoder.raw == raw && fresh(decoder)
      invariant decoder.state == ObjectStart || decoder.state == ObjectComma
      invariant Awaits(decoder.state == ObjectStart, decoder.Rest(), fields, CREDENTIAL_KEYS, goal)
      invariant more == MoreAt(decoder.Rest())
      invariant fields.Keys == values.Keys <= CREDENTIAL_KEYS && Mirrors(values, fields)
      decreases |decoder.Rest()|
    {
      Turn(decoder.state == ObjectStart, decoder.Rest(), fields, CREDENTIAL_KEYS, goal);
      AwaitsSkipped(decoder.state == ObjectStart, decoder.Rest(), fields, CREDENTIAL_KEYS, goal);
      token := decoder.NextToken();
      if !token.Key? || (token.text != "username" && token.text != "password") { return None; }
      if token.text in values { return None; }
      var value := decoder.DecodeRaw();
      if value == None { return None; }
      var text := AsString(value.value);
      StoredText(Skip(decoder.Rest()), value.value, fields, token.text, raw);
      if text == None || text.value == "" { return None; }
      MirrorOneMore(values, fields, token.text, text.value, TextOf(value.value));
      values := values[token.text := text.value];
      fields := fields[token.text := TextOf(value.value)];
      more := decoder.More();
    }
    Turn(decoder.state == ObjectStart, decoder.Rest(), fields, CREDENTIAL_KEYS, goal);
    AwaitsSkipped(decoder.state == ObjectStart, decoder.Rest(), fields, CREDENTIAL_KEYS, goal);
    token := decoder.NextToken();
    if token != CloseBrace { return None; }
    if decoder.pos != |raw| { return None; }
    Finished(raw, values, fields);
    if |values| != 2 { return None; }
    return Some(Credentials(values["username"], values["password"]));
  }

  lemma NothingMirrored()
    ensures Mirrors(map[], map[])
  {}

  lemma MirrorOneMore(values: map<Bytes, Bytes>, fields: Fields, key: Bytes, text: Bytes, raw: Bytes)
    requires Mirrors(values, fields) && text != "" && UnmarshalString(raw) == Some(text)
    ensures Mirrors(values[key := text], fields[key := raw])
  {
    hide UnmarshalString;
  }

  lemma Rejected(raw: Bytes)
    ensures !StrictObject(raw, CREDENTIAL_KEYS).Accepted? ==> ParseCredentials(raw) == None
    ensures raw == "" || !ValidUtf8(raw) || !At(Skip(raw), '{') ==> ParseCredentials(raw) == None
  {
    hide ScanStart;
  }

  lemma Finished(raw: Bytes, values: map<Bytes, Bytes>, fields: Fields)
    requires StrictObject(raw, CREDENTIAL_KEYS) == Accepted(fields)
    requires fields.Keys <= CREDENTIAL_KEYS && Mirrors(values, fields)
    ensures |values| == 2 ==> values.Keys == CREDENTIAL_KEYS
    ensures ParseCredentials(raw) ==
      if |values| == 2 then Some(Credentials(values["username"], values["password"])) else None
  {
    hide UnmarshalString, StrictObject;
    assert |values| == |values.Keys|;
    if |values| == 2 {
      FullSet(values.Keys, CREDENTIAL_KEYS);
    } else {
      assert fields.Keys != CREDENTIAL_KEYS;
    }
  }

  /** A stored value reads back as it was decoded, and a bad one rules the input out. */
  lemma StoredText(s: Bytes, v: Value, fields: Fields, key: Bytes, raw: Bytes)
    requires WellFormed(v) && Depth(v) <= MAX_DEPTH
    requires key in CREDENTIAL_KEYS && fields.Keys <= CREDENTIAL_KEYS
    requires Awaits(false, s, fields[key := TextOf(v)], CREDENTIAL_KEYS, StrictObject(raw, CREDENTIAL_KEYS))
    ensures UnmarshalString(TextOf(v)) == AsString(v)
    ensures AsString(v) == None || AsString(v) == Some("") ==> ParseCredentials(raw) == None
  {
    hide ScanTail, AsString, WellFormed;
    DecodeText(v);
    var more := fields[key := TextOf(v)];
    if ScanTail(s, more, CREDENTIAL_KEYS).Accepted? {
      TailKeeps(s, more, CREDENTIAL_KEYS);
    }
  }
}
