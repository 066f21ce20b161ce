/** The result records read back: what a caller learns from them. */
module RecordReading {
  import opened Text
  import opened Utf8
  import opened JsonGrammar
  import opened JsonDecode
  import opened JsonLayout
  import opened JsonPrint
  import opened StrictJson
  import opened Ipv4
  import opened Failure
  import opened Plan
  import opened PlanPrint
  import opened AddKey
  import opened Records

  const SUCCESS_KEYS: set<Bytes> := {
    "schema", "status", "region", "port_forward_enabled", "selected_registration_cn", "selected_registration_ipv4",
    "wireguard_endpoint_ipv4", "wireguard_endpoint_udp_port", "port_forward_gateway_ipv4"}

  const FAILURE_KEYS: set<Bytes> := {"schema", "status", "failure_class", "failure_detail"}

  /** A string member of an object as the strict reader returns it. */
  predicate HasString(f: Fields, key: Bytes, s: Bytes) { key in f && UnmarshalString(f[key]) == Some(s) }

  // ---- Success -----------------------------------------------------------------------------------

  lemma SuccessKeysPlain1()
    ensures PlainKey("schema") && PlainKey("status") && PlainKey("region") && PlainKey("port_forward_enabled")
  {}

  lemma SuccessKeysPlain2()
    ensures PlainKey("selected_registration_cn") && PlainKey("selected_registration_ipv4")
  {}

  lemma SuccessKeysPlain3()
    ensures PlainKey("wireguard_endpoint_ipv4") && PlainKey("wireguard_endpoint_udp_port") &&
            PlainKey("port_forward_gateway_ipv4")
  {}

  /** The keys are told apart by their length, but for three that differ in a letter. */
  lemma SuccessFieldsPlain(p: Plan, r: AddKeyResult)
    requires RecordInput(p, r)
    ensures PlainFields(SuccessFields(p, r), SUCCESS_KEYS, {})
  {
    hide StringValue, NatValue, PlainKey, Printable, Ascii;
    SuccessKeysPlain1();
    SuccessKeysPlain2();
    SuccessKeysPlain3();
    AsciiSchema();
    var f := SuccessFields(p, r);
    assert "schema"[1] == 'c' && "status"[1] == 't' && "region"[1] == 'e';
    forall i, j | 0 <= i < j < |f| ensures f[i].0 != f[j].0 {
      assert |f[i].0| == |f[j].0| ==> f[i].0[1] != f[j].0[1];
    }
  }

  lemma SuccessValuesGood(p: Plan, r: AddKeyResult)
    requires RecordInput(p, r) && r.serverPort <= 65535
    ensures GoodValues(SuccessFields(p, r), 0)
  {
    hide Clean, Depth, WellFormed, StringValue, NatValue, UnmarshalString, UnmarshalBool, UnmarshalInt, Emit, Ascii;
    AsciiSchema();
    StringReads(SCHEMA);
    SuccessIsAscii();
    StringReads("success");
    StringReads(p.region);
    BoolReads(p.portForwarding);
    StringReads(p.candidate.commonName);
    StringReads(p.candidate.ipv4);
    StringReads(r.serverIP);
    NatReads(r.serverPort);
    StringReads(r.serverVIP);
  }

  lemma SuccessIsAscii()
    ensures Ascii("success") && Ascii("failure")
  {}

  /**
   The success record is one strict JSON object that says what was chosen, and the gateway just when
   ports are forwarded.
   */
  lemma SuccessReads(p: Plan, r: AddKeyResult, publicKey: Bytes, v6: Ipv6Parser)
    requires ValidPlan(p, v6) && Validate(p.portForwarding, r, publicKey, v6) == None
    ensures RecordInput(p, r) && StrictObject(SuccessRecord(p, r), SUCCESS_KEYS).Accepted?
    ensures var f := StrictObject(SuccessRecord(p, r), SUCCESS_KEYS).fields;
      && HasString(f, "schema", SCHEMA) && HasString(f, "status", "success") && HasString(f, "region", p.region)
      && "port_forward_enabled" in f && UnmarshalBool(f["port_forward_enabled"]) == Some(p.portForwarding)
      && HasString(f, "selected_registration_cn", p.candidate.commonName)
      && HasString(f, "selected_registration_ipv4", p.candidate.ipv4)
      && HasString(f, "wireguard_endpoint_ipv4", r.serverIP)
      && "wireguard_endpoint_udp_port" in f && UnmarshalInt(f["wireguard_endpoint_udp_port"]) == Some(r.serverPort)
    ensures var f := StrictObject(SuccessRecord(p, r), SUCCESS_KEYS).fields;
      if p.portForwarding then HasString(f, "port_forward_gateway_ipv4", r.serverVIP)
      else "port_forward_gateway_ipv4" !in f
  {
    hide Validate, ValidPlan, StrictObject, UnmarshalString, UnmarshalBool, UnmarshalInt, Emit, PlainFields, GoodValues,
      StringValue, NatValue, Compact, WellFormed, Clean, Depth, Acceptable, Ascii, Printable;
    ValidatedInput(p, r, publicKey, v6);
    GatewayGiven(p, r, publicKey, v6);
    SuccessFieldsPlain(p, r);
    SuccessValuesGood(p, r);
    CompactAccepted(SuccessFields(p, r), SUCCESS_KEYS, 0);
    SuccessValuesRead(p, r);
    var fields := SuccessFields(p, r);
    assert fields[0].0 == "schema" && fields[1].0 == "status" && fields[2].0 == "region" &&
           fields[3].0 == "port_forward_enabled";
    assert fields[4].0 == "selected_registration_cn" && fields[5].0 == "selected_registration_ipv4";
    assert fields[6].0 == "wireguard_endpoint_ipv4" && fields[7].0 == "wireguard_endpoint_udp_port";
    if p.portForwarding {
      assert fields[8].0 == "port_forward_gateway_ipv4";
    } else {
      assert forall i :: 0 <= i < |fields| ==> |fields[i].0| != |"port_forward_gateway_ipv4"|;
    }
  }

  lemma GatewayGiven(p: Plan, r: AddKeyResult, publicKey: Bytes, v6: Ipv6Parser)
    requires Validate(p.portForwarding, r, publicKey, v6) == None
    ensures p.portForwarding <==> r.serverVIP != ""
  {
    hide ValidPeerIP, KeyText, Dotted;
    if p.portForwarding {
      var a := ValidIPv4Unique(r.serverVIP, v6);
      DottedChars(a);
    }
  }

  /** What the values of a success record decode to. */
  lemma SuccessValuesRead(p: Plan, r: AddKeyResult)
    requires RecordInput(p, r) && r.serverPort <= 65535
    ensures var f := SuccessFields(p, r);
      && UnmarshalString(TextOf(f[0].1)) == Some(SCHEMA) && UnmarshalString(TextOf(f[1].1)) == Some("success")
      && UnmarshalString(TextOf(f[2].1)) == Some(p.region) && UnmarshalBool(TextOf(f[3].1)) == Some(p.portForwarding)
      && UnmarshalString(TextOf(f[4].1)) == Some(p.candidate.commonName)
      && UnmarshalString(TextOf(f[5].1)) == Some(p.candidate.ipv4)
      && UnmarshalString(TextOf(f[6].1)) == Some(r.serverIP)
      && UnmarshalInt(TextOf(f[7].1)) == Some(r.serverPort)
      && (|f| == 9 ==> UnmarshalString(TextOf(f[8].1)) == Some(r.serverVIP))
  {
    hide Clean, Depth, WellFormed, StringValue, NatValue, UnmarshalString, UnmarshalBool, UnmarshalInt, Emit, Ascii;
    AsciiSchema();
    StringReads(SCHEMA);
    SuccessIsAscii();
    StringReads("success");
    StringReads(p.region);
    BoolReads(p.portForwarding);
    StringReads(p.candidate.commonName);
    StringReads(p.candidate.ipv4);
    StringReads(r.serverIP);
    NatReads(r.serverPort);
    StringReads(r.serverVIP);
  }

  // ---- Failure -----------------------------------------------------------------------------------

  lemma FailureFieldsPlain(kind: Class, detail: Option<Detail>)
    ensures PlainFields(FailureFields(kind, detail), FAILURE_KEYS, {})
  {
    hide StringValue, PlainKey, ClassText, DetailText;
    FailureKeysPlain();
    assert "schema"[1] == 'c' && "status"[1] == 't';
  }

  lemma FailureKeysPlain()
    ensures PlainKey("schema") && PlainKey("status") && PlainKey("failure_class") && PlainKey("failure_detail")
  {}

  /** The failure record is one strict JSON object with the class, and with the detail just when there is one. */
  lemma FailureReads(kind: Class, detail: Option<Detail>)
    ensures StrictObject(FailureRecord(kind, detail), FAILURE_KEYS).Accepted?
    ensures var f := StrictObject(FailureRecord(kind, detail), FAILURE_KEYS).fields;
      && HasString(f, "schema", SCHEMA) && HasString(f, "status", "failure")
      && HasString(f, "failure_class", ClassText(kind))
      && (match detail
          case None => "failure_detail" !in f
          case Some(d) => HasString(f, "failure_detail", DetailText(d)))
  {
    hide StrictObject, UnmarshalString, Emit, PlainFields, StringValue, Compact, WellFormed, Clean, Depth, Acceptable,
      Ascii, ClassText, DetailText;
    var fields := FailureFields(kind, detail);
    FailureFieldsPlain(kind, detail);
    AsciiSchema();
    SuccessIsAscii();
    AsciiClass(kind);
    StringReads(SCHEMA);
    StringReads("failure");
    StringReads(ClassText(kind));
    if detail.Some? {
      AsciiDetail(detail.value);
      StringReads(DetailText(detail.value));
    }
    CompactAccepted(fields, FAILURE_KEYS, 0);
    assert fields[0].0 == "schema" && fields[1].0 == "status" && fields[2].0 == "failure_class";
    if detail.Some? {
      assert fields[3].0 == "failure_detail";
    } else {
      assert forall i :: 0 <= i < |fields| ==> |fields[i].0| != |"failure_detail"|;
    }
  }

  // ---- The reason from the record ----------------------------------------------------------------

  lemma ClassTextInjective(a: Class, b: Class)
    requires ClassText(a) == ClassText(b)
    ensures a == b
  {
    assert ClassText(a)[0] == ClassText(b)[0];
  }

  /** Which letter each text begins with. */
  function FirstLetter(d: Detail): char {
    if d.MarkInvalid? || d.MarkUnsupported? || d.MarkRefused? then 's'
    else if d.PublicCaBundle? then 'p'
    else if d.RegionalCaBundle? then 'r'
    else if d.MissingCertificate? then 'm'
    else if d.CaChain? then 'c'
    else if d.EndpointIdentity? then 'e'
    else if d.TokenHttpStatus? || d.TokenBodyReadFailed? || d.TokenBodyTooLarge? || d.TokenJsonParseFailed? ||
            d.TokenUnexpectedField? || d.TokenMissingField? || d.TokenInvalidToken? then 't'
    else 'a'
  }

  function Head(s: Bytes): char { if s == "" then ' ' else s[0] }

  lemma FirstLetterIs(d: Detail)
    ensures Head(DetailText(d)) == FirstLetter(d)
  {}

  predicate AnswerDetail(d: Detail) {
    d.AddKeyHttpStatus? || d.AddKeyBodyReadFailed? || d.AddKeyBodyTooLarge? || d.AddKeyJsonParseFailed? ||
    d.AddKeyUnexpectedField? || d.AddKeyMissingField? || d.AddKeyFieldDecodeFailed?
  }

  /** The texts with a common first letter differ in length or in the third letter from the end. */
  lemma LocalInjective(a: Detail, b: Detail)
    requires DetailText(a) == DetailText(b) && FirstLetter(a) == FirstLetter(b) && FirstLetter(a) !in {'a', 't'}
    ensures a == b
  {
    var n := |DetailText(a)|;
    assert DetailText(a)[n - 3] == DetailText(b)[n - 3];
  }

  lemma TokenInjective(a: Detail, b: Detail)
    requires DetailText(a) == DetailText(b) && FirstLetter(a) == FirstLetter(b) == 't'
    ensures a == b
  {
    var n := |DetailText(a)|;
    assert DetailText(a)[n - 3] == DetailText(b)[n - 3];
  }

  lemma AnswerInjective(a: Detail, b: Detail)
    requires DetailText(a) == DetailText(b) && FirstLetter(a) == FirstLetter(b) == 'a' && AnswerDetail(a)
    ensures a == b
  {
    var n := |DetailText(a)|;
    assert DetailText(a)[n - 3] == DetailText(b)[n - 3];
  }

  lemma InvalidInjective(a: Detail, b: Detail)
    requires DetailText(a) == DetailText(b) && FirstLetter(a) == FirstLetter(b) == 'a' && !AnswerDetail(a) &&
             !AnswerDetail(b)
    ensures a == b
  {
    var n := |DetailText(a)|;
    assert DetailText(a)[n - 3] == DetailText(b)[n - 3];
  }

  /** Each text stands for one detail. */
  lemma DetailTextInjective(a: Detail, b: Detail)
    requires DetailText(a) == DetailText(b)
    ensures a == b
  {
    hide DetailText;
    FirstLetterIs(a);
    FirstLetterIs(b);
    if FirstLetter(a) == 't' { TokenInjective(a, b); }
    else if FirstLetter(a) != 'a' { LocalInjective(a, b); }
    else if AnswerDetail(a) { AnswerInjective(a, b); }
    else if AnswerDetail(b) { AnswerInjective(b, a); }
    else { InvalidInjective(a, b); }
  }

  /** A failure record determines the reason, class and detail. */
  lemma RecordTellsReason(k1: Class, d1: Option<Detail>, k2: Class, d2: Option<Detail>)
    requires FailureRecord(k1, d1) == FailureRecord(k2, d2)
    ensures k1 == k2 && d1 == d2
  {
    hide FailureRecord, StrictObject, UnmarshalString, ClassText, DetailText;
    FailureReads(k1, d1);
    FailureReads(k2, d2);
    ClassTextInjective(k1, k2);
    if d1.Some? && d2.Some? { DetailTextInjective(d1.value, d2.value); }
  }
}
