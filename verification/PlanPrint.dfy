/** Plans printed and read back. */
module PlanPrint {
  import opened Text
  import opened Utf8
  import opened JsonGrammar
  import opened JsonString
  import opened JsonDecode
  import opened JsonLayout
  import opened JsonPrint
  import opened StrictJson
  import opened Ipv4
  import opened Plan

  predicate Printable(p: Plan) {
    && Ascii(p.region) && Ascii(p.tokenIPv4) && Ascii(p.candidate.ipv4) && Ascii(p.candidate.commonName)
    && (p.excluded.Some? ==> Ascii(p.excluded.value.ipv4) && p.excluded.value.port >= 0)
  }

  function CandidateFields(c: Candidate): seq<(Bytes, Value)>
    requires Ascii(c.ipv4) && Ascii(c.commonName)
  {
    [("ipv4", StringValue(c.ipv4)), ("tls_common_name", StringValue(c.commonName))]
  }

  function EndpointFields(e: Endpoint): seq<(Bytes, Value)>
    requires Ascii(e.ipv4) && e.port >= 0
  {
    [("ipv4", StringValue(e.ipv4)), ("udp_port", NatValue(e.port))]
  }

  function PlanFields(p: Plan): seq<(Bytes, Value)>
    requires Printable(p)
  {
    AsciiSchema();
    [ ("schema", StringValue(SCHEMA)),
      ("region", StringValue(p.region)),
      ("port_forwarding", if p.portForwarding then True else False),
      ("token_destination_ipv4", StringValue(p.tokenIPv4)),
      ("registration_candidate", Compact(CandidateFields(p.candidate)))]
    + if p.excluded.Some? then [("excluded_wireguard_endpoint", Compact(EndpointFields(p.excluded.value)))] else []
  }

  /** The syntax tree of a plan written without whitespace, strings quoted as json.Marshal does. */
  function PlanTree(p: Plan): Value
    requires Printable(p)
  {
    Compact(PlanFields(p))
  }

  lemma AsciiSchema()
    ensures Ascii(SCHEMA)
  {}

  lemma ValidIPv4IsAscii(s: Bytes, v6: Ipv6Parser)
    requires ValidIPv4(s, v6)
    ensures Ascii(s)
  {
    var a := ValidIPv4Unique(s, v6);
    DottedChars(a);
  }

  lemma ValidPlanPrintable(p: Plan, v6: Ipv6Parser)
    requires ValidPlan(p, v6)
    ensures Printable(p)
  {
    hide ValidIPv4;
    ValidIPv4IsAscii(p.tokenIPv4, v6);
    ValidIPv4IsAscii(p.candidate.ipv4, v6);
    if p.excluded.Some? { ValidIPv4IsAscii(p.excluded.value.ipv4, v6); }
  }

  lemma CandidateReads(c: Candidate, v6: Ipv6Parser)
    requires Ascii(c.ipv4) && Ascii(c.commonName)
    requires ValidIPv4(c.ipv4, v6) && ValidCommonName(c.commonName, v6)
    ensures var v := Compact(CandidateFields(c));
      WellFormed(v) && Clean(v) && Depth(v) <= 1 && ParseCandidate(TextOf(v), v6) == Some(c)
  {
    hide AllFields, StrictObject, Emit, UnmarshalString, ValidIPv4, ValidCommonName, QuoteBody, Acceptable, Clean,
      Depth, WellFormed;
    var fields := CandidateFields(c);
    StringReads(c.ipv4);
    StringReads(c.commonName);
    assert "ipv4"[0] != "tls_common_name"[0];
    assert fields[0].0 == "ipv4" && fields[1].0 == "tls_common_name";
    CompactAccepted(fields, CANDIDATE_KEYS, 0);
    CompactAllFields(fields, CANDIDATE_KEYS, 0);
  }

  lemma EndpointReads(e: Endpoint, v6: Ipv6Parser)
    requires Ascii(e.ipv4) && ValidIPv4(e.ipv4, v6) && 1 <= e.port <= 65535
    ensures var v := Compact(EndpointFields(e));
      WellFormed(v) && Clean(v) && Depth(v) <= 1 && ParseEndpoint(TextOf(v), v6) == Some(e)
  {
    hide AllFields, StrictObject, Emit, UnmarshalString, UnmarshalInt, ValidIPv4, QuoteBody, Acceptable, Clean, Depth,
      WellFormed;
    var fields := EndpointFields(e);
    StringReads(e.ipv4);
    NatReads(e.port);
    assert "ipv4"[0] != "udp_port"[0];
    assert fields[0].0 == "ipv4" && fields[1].0 == "udp_port";
    CompactAccepted(fields, ENDPOINT_KEYS, 0);
    CompactAllFields(fields, ENDPOINT_KEYS, 0);
  }

  lemma PlanFieldsPlain(p: Plan)
    requires Printable(p)
    ensures PlainFields(PlanFields(p), PLAN_KEYS, {})
  {
    hide Compact, StringValue, CandidateFields, EndpointFields, PlainKey;
    PlanKeysPlain();
    assert "schema"[0] == 's' && "region"[0] == 'r' && "port_forwarding"[0] == 'p' &&
           "token_destination_ipv4"[0] == 't';
    assert "registration_candidate"[1] == 'e' && "registration_candidate"[2] == 'g' &&
           "excluded_wireguard_endpoint"[0] == 'e';
    assert |"region"| != |"registration_candidate"|;
  }

  lemma PlanKeysPlain()
    ensures PlainKey("schema") && PlainKey("region") && PlainKey("port_forwarding")
    ensures PlainKey("token_destination_ipv4") && PlainKey("registration_candidate")
    ensures PlainKey("excluded_wireguard_endpoint")
  {
    hide PlainKey;
    ShortKeysPlain();
    LongKeysPlain();
  }

  lemma ShortKeysPlain()
    ensures PlainKey("schema") && PlainKey("region") && PlainKey("port_forwarding")
  {}

  lemma LongKeysPlain()
    ensures PlainKey("token_destination_ipv4") && PlainKey("registration_candidate")
    ensures PlainKey("excluded_wireguard_endpoint")
  {}

  lemma PlanValuesGood(p: Plan, v6: Ipv6Parser)
    requires ValidPlan(p, v6) && Printable(p)
    ensures GoodValues(PlanFields(p), 1)
  {
    hide Compact, CandidateFields, EndpointFields, Clean, Depth, WellFormed, ValidIPv4, ValidCommonName, StringValue;
    hide ParseCandidate, ParseEndpoint, UnmarshalString, UnmarshalBool, Emit;
    AsciiSchema();
    StringReads(SCHEMA);
    StringReads(p.region);
    StringReads(p.tokenIPv4);
    BoolReads(p.portForwarding);
    CandidateReads(p.candidate, v6);
    if p.excluded.Some? { EndpointReads(p.excluded.value, v6); }
  }

  /** Every valid plan is printed to a text the parser reads back as that plan. */
  lemma PlanRoundTrip(p: Plan, v6: Ipv6Parser)
    requires ValidPlan(p, v6)
    ensures Printable(p) && WellFormed(PlanTree(p)) && ParsePlan(TextOf(PlanTree(p)), v6) == Some(p)
  {
    hide StrictObject, Emit, Clean, Depth, WellFormed, ValidIPv4, ValidCommonName, ValidRegion, PlainFields, GoodValues;
    hide Compact, CandidateFields, EndpointFields, StringValue, UnmarshalString, UnmarshalBool, ParseCandidate,
      ParseEndpoint;
    hide Acceptable;
    ValidPlanPrintable(p, v6);
    AsciiSchema();
    PlanFieldsPlain(p);
    PlanValuesGood(p, v6);
    var fields := PlanFields(p);
    CompactAccepted(fields, PLAN_KEYS, 1);
    StringReads(SCHEMA);
    StringReads(p.region);
    StringReads(p.tokenIPv4);
    BoolReads(p.portForwarding);
    CandidateReads(p.candidate, v6);
    assert fields[0].0 == "schema" && fields[1].0 == "region" && fields[2].0 == "port_forwarding";
    assert fields[3].0 == "token_destination_ipv4" && fields[4].0 == "registration_candidate";
    if p.excluded.Some? {
      EndpointReads(p.excluded.value, v6);
      assert fields[5].0 == "excluded_wireguard_endpoint";
    } else {
      NoExclusion(fields);
    }
  }

  lemma NoExclusion(fields: seq<(Bytes, Value)>)
    requires |fields| == 5
    requires fields[0].0 == "schema" && fields[1].0 == "region" && fields[2].0 == "port_forwarding"
    requires fields[3].0 == "token_destination_ipv4" && fields[4].0 == "registration_candidate"
    ensures !exists i :: 0 <= i < |fields| && fields[i].0 == "excluded_wireguard_endpoint"
  {
    assert "excluded_wireguard_endpoint"[0] == 'e' && "schema"[0] == 's' && "region"[0] == 'r';
    assert "port_forwarding"[0] == 'p' && "token_destination_ipv4"[0] == 't' && "registration_candidate"[0] == 'r';
  }

  /** Any text that differs from the printed plan only in whitespace reads back as the plan. */
  lemma PlanLayoutRoundTrip(p: Plan, gap: Bytes, w: Value, v6: Ipv6Parser)
    requires ValidPlan(p, v6) && Printable(p)
    requires Blank(gap) && WellFormed(w) && Alike(PlanTree(p), w)
    ensures ParsePlan(gap + TextOf(w), v6) == Some(p)
  {
    hide ParsePlan, PlanTree, Emit, ValidPlan, Printable;
    PlanRoundTrip(p, v6);
    PlanIgnoresWhitespace("", PlanTree(p), gap, w, v6);
    assert "" + TextOf(PlanTree(p)) == TextOf(PlanTree(p));
  }
}
