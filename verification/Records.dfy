/** The result records: json.Marshal of the success and failure structs. */
module Records {
  import opened Text
  import opened Utf8
  import opened JsonGrammar
  import opened JsonPrint
  import opened Ipv4
  import opened Plan
  import opened PlanPrint
  import opened Failure
  import opened AddKey

  const MAX_RESULT: nat := 4096

  type Entry = (Bytes, Value)

  predicate RecordInput(p: Plan, r: AddKeyResult) {
    Printable(p) && Ascii(r.serverIP) && Ascii(r.serverVIP) && r.serverPort >= 0
  }

  function SuccessFields(p: Plan, r: AddKeyResult): seq<Entry>
    requires RecordInput(p, r)
  {
    AsciiSchema();
    [ ("schema", StringValue(SCHEMA)),
      ("status", StringValue("success")),
      ("region", StringValue(p.region)),
      ("port_forward_enabled", if p.portForwarding then True else False),
      ("selected_registration_cn", StringValue(p.candidate.commonName)),
      ("selected_registration_ipv4", StringValue(p.candidate.ipv4)),
      ("wireguard_endpoint_ipv4", StringValue(r.serverIP)),
      ("wireguard_endpoint_udp_port", NatValue(r.serverPort))]
    + if p.portForwarding && r.serverVIP != "" then [("port_forward_gateway_ipv4", StringValue(r.serverVIP))] else []
  }

  /** The success record, without the newline written after it. */
  function SuccessRecord(p: Plan, r: AddKeyResult): Bytes
    requires RecordInput(p, r)
  {
    TextOf(Compact(SuccessFields(p, r)))
  }

  function FailureFields(kind: Class, detail: Option<Detail>): seq<Entry> {
    AsciiSchema();
    AsciiClass(kind);
    [ ("schema", StringValue(SCHEMA)),
      ("status", StringValue("failure")),
      ("failure_class", StringValue(ClassText(kind)))]
    + match detail {
        case None => []
        case Some(d) => AsciiDetail(d); [("failure_detail", StringValue(DetailText(d)))]
      }
  }

  function FailureRecord(kind: Class, detail: Option<Detail>): Bytes {
    TextOf(Compact(FailureFields(kind, detail)))
  }

  lemma AsciiClass(c: Class)
    ensures Ascii(ClassText(c)) && |ClassText(c)| <= 24
  {
    hide ClassText, Ascii;
    if c.InvalidInvocation? || c.InvalidPlan? || c.InvalidCredentials? || c.InvalidTrust? {
      InputClass(c);
    } else if c.TokenFailed? || c.AddKeyFailed? || c.ResponseInvalid? || c.EndpointReused? {
      RequestClass(c);
    } else {
      RunClass(c);
    }
  }

  lemma InputClass(c: Class)
    requires c.InvalidInvocation? || c.InvalidPlan? || c.InvalidCredentials? || c.InvalidTrust?
    ensures Ascii(ClassText(c)) && |ClassText(c)| <= 24
  {}

  lemma RequestClass(c: Class)
    requires c.TokenFailed? || c.AddKeyFailed? || c.ResponseInvalid? || c.EndpointReused?
    ensures Ascii(ClassText(c)) && |ClassText(c)| <= 24
  {}

  lemma RunClass(c: Class)
    requires c.ConfigWriteFailed? || c.DeadlineExceeded? || c.Cancelled? || c.ResultWriteFailed? || c.InternalFailure?
    ensures Ascii(ClassText(c)) && |ClassText(c)| <= 24
  {}

  lemma AsciiDetail(d: Detail)
    ensures Ascii(DetailText(d)) && |DetailText(d)| <= 64
  {
    hide DetailText;
    DetailsAreSafe(d);
    SafeIsAscii(DetailText(d));
  }

  lemma SafeIsAscii(s: Bytes)
    requires SafeDetail(s) == s != ""
    ensures Ascii(s) && |s| <= 64
  {}

  // ---- Lengths -----------------------------------------------------------------------------

  function Width(fields: seq<Entry>): nat {
    if fields == [] then 0 else |fields[0].0| + 4 + |TextOf(fields[0].1)| + Width(fields[1..])
  }

  lemma {:induction false} CompactWidth(fields: seq<Entry>)
    requires fields != []
    ensures |EmitMembers(CompactMembers(fields), "")| == Width(fields)
  {
    hide Emit;
    var m := CompactMembers(fields);
    EmitSplits(m.value, EmitMembersTail(m.tail, ""));
    if |fields| > 1 {
      CompactWidth(fields[1..]);
    } else {
      assert Width(fields[1..]) == 0;
    }
  }

  lemma RecordWidth(fields: seq<Entry>)
    requires fields != []
    ensures |TextOf(Compact(fields))| == 1 + Width(fields)
  {
    CompactWidth(fields);
  }

  lemma {:induction false} WidthAdds(a: seq<Entry>, b: seq<Entry>)
    ensures Width(a + b) == Width(a) + Width(b)
  {
    hide Emit;
    if a == [] {
      assert a + b == b;
    } else {
      assert (a + b)[1..] == a[1..] + b;
      WidthAdds(a[1..], b);
    }
  }

  lemma WidthOne(key: Bytes, v: Value)
    ensures Width([(key, v)]) == |key| + 4 + |TextOf(v)|
  {
    assert Width([(key, v)][1..]) == 0;
  }

  /** A string of n bytes is at most 6n + 2 bytes of JSON. */
  lemma StringWidth(key: Bytes, s: Bytes)
    requires Ascii(s)
    ensures Width([(key, StringValue(s))]) <= |key| + 6 + 6 * |s|
  {
    WidthOne(key, StringValue(s));
  }

  lemma ValueWidths(b: bool, n: nat)
    requires n <= 65535
    ensures |TextOf(if b then True else False)| <= 5 && |TextOf(NatValue(n))| <= 5
  {
    DecimalWidth(n);
  }

  /** Every failure record and its newline fit the limit. */
  lemma FailureRecordFits(kind: Class, detail: Option<Detail>)
    ensures |FailureRecord(kind, detail)| + 1 <= MAX_RESULT
  {
    hide Width, TextOf, ClassText, DetailText, StringValue;
    AsciiSchema();
    AsciiClass(kind);
    var a, b, c := [("schema", StringValue(SCHEMA))], [("status", StringValue("failure"))],
      [("failure_class", StringValue(ClassText(kind)))];
    StringWidth("schema", SCHEMA);
    StringWidth("status", "failure");
    StringWidth("failure_class", ClassText(kind));
    WidthAdds(a, b);
    WidthAdds(a + b, c);
    var d: seq<Entry> := [];
    NoWidth();
    if detail.Some? {
      AsciiDetail(detail.value);
      d := [("failure_detail", StringValue(DetailText(detail.value)))];
      StringWidth("failure_detail", DetailText(detail.value));
    }
    WidthAdds(a + b + c, d);
    assert FailureFields(kind, detail) == a + b + c + d;
    RecordWidth(FailureFields(kind, detail));
  }

  lemma NoWidth()
    ensures Width([]) == 0
  {}

  /** A validated plan and response have what a record needs. */
  lemma ValidatedInput(p: Plan, r: AddKeyResult, publicKey: Bytes, v6: Ipv6Parser)
    requires ValidPlan(p, v6) && Validate(p.portForwarding, r, publicKey, v6) == None
    ensures RecordInput(p, r) && r.serverPort <= 65535
    ensures |p.tokenIPv4| <= 15 && |p.candidate.ipv4| <= 15 && |r.serverIP| <= 15 && |r.serverVIP| <= 15
  {
    hide ValidIPv4, ValidPeerIP, KeyText, ValidCommonName, ValidRegion, Dotted;
    ValidPlanPrintable(p, v6);
    ValidIPv4IsAscii(r.serverIP, v6);
    var t := ValidIPv4Unique(p.tokenIPv4, v6);
    var c := ValidIPv4Unique(p.candidate.ipv4, v6);
    var s := ValidIPv4Unique(r.serverIP, v6);
    if p.portForwarding {
      ValidIPv4IsAscii(r.serverVIP, v6);
      var g := ValidIPv4Unique(r.serverVIP, v6);
    }
  }

  /** Every success record and its newline fit the limit, however many bytes of the common name need escapes. */
  lemma SuccessRecordFits(p: Plan, r: AddKeyResult, publicKey: Bytes, v6: Ipv6Parser)
    requires ValidPlan(p, v6) && Validate(p.portForwarding, r, publicKey, v6) == None
    ensures RecordInput(p, r) && |SuccessRecord(p, r)| + 1 <= MAX_RESULT
  {
    hide Width, TextOf, StringValue, NatValue, Validate, ValidIPv4, Printable, Ascii;
    ValidatedInput(p, r, publicKey, v6);
    InputLengths(p, r, v6);
    PrintableParts(p);
    SuccessWidth(p, r);
    RecordWidth(SuccessFields(p, r));
  }

  lemma InputLengths(p: Plan, r: AddKeyResult, v6: Ipv6Parser)
    requires ValidPlan(p, v6)
    ensures |p.region| <= 64 && |p.candidate.commonName| <= 253
  {}

  lemma PrintableParts(p: Plan)
    requires Printable(p)
    ensures Ascii(p.region) && Ascii(p.candidate.ipv4) && Ascii(p.candidate.commonName)
  {}

  lemma SuccessWidth(p: Plan, r: AddKeyResult)
    requires RecordInput(p, r) && r.serverPort <= 65535
    requires |p.region| <= 64 && |p.candidate.commonName| <= 253 && |p.candidate.ipv4| <= 15
    requires |r.serverIP| <= 15 && |r.serverVIP| <= 15
    ensures Width(SuccessFields(p, r)) <= 3000
  {
    hide Width, TextOf, StringValue, NatValue;
    AsciiSchema();
    var flag := if p.portForwarding then True else False;
    var a, b, c, d := ("schema", StringValue(SCHEMA)), ("status", StringValue("success")),
      ("region", StringValue(p.region)), ("port_forward_enabled", flag);
    var e, f, g, h := ("selected_registration_cn", StringValue(p.candidate.commonName)),
      ("selected_registration_ipv4", StringValue(p.candidate.ipv4)),
      ("wireguard_endpoint_ipv4", StringValue(r.serverIP)), ("wireguard_endpoint_udp_port", NatValue(r.serverPort));
    StringWidth("schema", SCHEMA);
    StringWidth("status", "success");
    StringWidth("region", p.region);
    WidthOne("port_forward_enabled", flag);
    StringWidth("selected_registration_cn", p.candidate.commonName);
    StringWidth("selected_registration_ipv4", p.candidate.ipv4);
    StringWidth("wireguard_endpoint_ipv4", r.serverIP);
    WidthOne("wireguard_endpoint_udp_port", NatValue(r.serverPort));
    ValueWidths(p.portForwarding, r.serverPort);
    var i: seq<Entry> := [];
    NoWidth();
    if p.portForwarding && r.serverVIP != "" {
      i := [("port_forward_gateway_ipv4", StringValue(r.serverVIP))];
      StringWidth("port_forward_gateway_ipv4", r.serverVIP);
    }
    WidthAdds([a], [b]);
    WidthAdds([a] + [b], [c]);
    WidthAdds([a] + [b] + [c], [d]);
    WidthAdds([a] + [b] + [c] + [d], [e]);
    WidthAdds([a] + [b] + [c] + [d] + [e], [f]);
    WidthAdds([a] + [b] + [c] + [d] + [e] + [f], [g]);
    WidthAdds([a] + [b] + [c] + [d] + [e] + [f] + [g], [h]);
    WidthAdds([a] + [b] + [c] + [d] + [e] + [f] + [g] + [h], i);
    assert SuccessFields(p, r) == [a] + [b] + [c] + [d] + [e] + [f] + [g] + [h] + i;
  }
}
