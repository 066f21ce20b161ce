/** The constrained plan: one strict JSON object with two strict objects inside. */
module Plan {
  import opened Text
  import opened JsonGrammar
  import opened JsonParser
  import opened JsonString
  import opened JsonDecode
  import opened JsonLayout
  import opened StrictJson
  import opened Ipv4

  const SCHEMA: Bytes := "pia-wg-config-constrained-plan/v1"

  datatype Candidate = Candidate(ipv4: Bytes, commonName: Bytes)

  datatype Endpoint = Endpoint(ipv4: Bytes, port: int)

  datatype Plan = Plan(
    region: Bytes, portForwarding: bool, tokenIPv4: Bytes, candidate: Candidate, excluded: Option<Endpoint>)

  const PLAN_KEYS: set<Bytes> := {
    "schema", "region", "port_forwarding", "token_destination_ipv4",
    "registration_candidate", "excluded_wireguard_endpoint"}

  const CANDIDATE_KEYS: set<Bytes> := {"ipv4", "tls_common_name"}

  const ENDPOINT_KEYS: set<Bytes> := {"ipv4", "udp_port"}

  predicate RegionChar(c: char) {
    'a' <= c <= 'z' || 'A' <= c <= 'Z' || '0' <= c <= '9' || c == '_' || c == '-'
  }

  predicate ValidRegion(s: Bytes) {
    0 < |s| <= 64 && forall i :: 0 <= i < |s| ==> RegionChar(s[i])
  }

  predicate NameChar(c: char) { ' ' < c && c as int <= 127 && c != '/' && c != ':' && c != '@' }

  /** validTLSCommonName: printable ASCII without / : @, and not an IP address. */
  predicate ValidCommonName(s: Bytes, v6: Ipv6Parser) {
    0 < |s| <= 253 && ParseIP(s, v6).NotAnAddress? && forall i :: 0 <= i < |s| ==> NameChar(s[i])
  }

  function ParseCandidate(raw: Bytes, v6: Ipv6Parser): Option<Candidate> {
    match AllFields(raw, CANDIDATE_KEYS)
    case Some(f) => CandidateOf(f, v6)
    case None => None
  }

  function CandidateOf(f: Fields, v6: Ipv6Parser): Option<Candidate>
    requires f.Keys == CANDIDATE_KEYS
  {
    match (UnmarshalString(f["ipv4"]), UnmarshalString(f["tls_common_name"]))
    case (Some(ip), Some(cn)) =>
      if ValidIPv4(ip, v6) && ValidCommonName(cn, v6) then Some(Candidate(ip, cn)) else None
    case _ => None
  }

  function ParseEndpoint(raw: Bytes, v6: Ipv6Parser): Option<Endpoint> {
    match AllFields(raw, ENDPOINT_KEYS)
    case Some(f) => EndpointOf(f, v6)
    case None => None
  }

  function EndpointOf(f: Fields, v6: Ipv6Parser): Option<Endpoint>
    requires f.Keys == ENDPOINT_KEYS
  {
    match (UnmarshalString(f["ipv4"]), UnmarshalInt(f["udp_port"]))
    case (Some(ip), Some(port)) =>
      if ValidIPv4(ip, v6) && 1 <= port <= 65535 then Some(Endpoint(ip, port)) else None
    case _ => None
  }

  /** parseConstrainedPlan. */
  function ParsePlan(raw: Bytes, v6: Ipv6Parser): Option<Plan> {
    match StrictObject(raw, PLAN_KEYS)
    case Accepted(f) => PlanOf(f, v6)
    case _ => None
  }

  function PlanOf(f: Fields, v6: Ipv6Parser): Option<Plan> {
    if "schema" !in f || "region" !in f || "port_forwarding" !in f || "token_destination_ipv4" !in f ||
       "registration_candidate" !in f then None
    else if UnmarshalString(f["schema"]) != Some(SCHEMA) then None
    else
      match (UnmarshalString(f["region"]), UnmarshalBool(f["port_forwarding"]),
             UnmarshalString(f["token_destination_ipv4"]), ParseCandidate(f["registration_candidate"], v6))
      case (Some(region), Some(forward), Some(ip), Some(candidate)) =>
        if !ValidRegion(region) || !ValidIPv4(ip, v6) then None
        else if "excluded_wireguard_endpoint" !in f then Some(Plan(region, forward, ip, candidate, None))
        else
          (match ParseEndpoint(f["excluded_wireguard_endpoint"], v6)
           case Some(e) => Some(Plan(region, forward, ip, candidate, Some(e)))
           case None => None)
      case _ => None
  }

  /** What a plan accepted by the parser satisfies. */
  predicate ValidPlan(p: Plan, v6: Ipv6Parser) {
    && ValidRegion(p.region) && ValidIPv4(p.tokenIPv4, v6)
    && ValidIPv4(p.candidate.ipv4, v6) && ValidCommonName(p.candidate.commonName, v6)
    && (p.excluded.Some? ==> ValidIPv4(p.excluded.value.ipv4, v6) && 1 <= p.excluded.value.port <= 65535)
  }

  lemma ParsedPlanIsValid(raw: Bytes, v6: Ipv6Parser)
    requires ParsePlan(raw, v6).Some?
    ensures ValidPlan(ParsePlan(raw, v6).value, v6)
  {
    hide StrictObject, UnmarshalString, UnmarshalInt, UnmarshalBool, ValidIPv4, ValidRegion, ValidCommonName;
  }

  // ---- Whitespace ------------------------------------------------------------------------

  /** Whitespace does not change what the fields decode to. */
  lemma AlikeText(a: Values, b: Values, key: Bytes)
    requires AlikeValues(a, b) && key in a && Depth(a[key]) <= MAX_DEPTH
    ensures UnmarshalString(TextMap(a)[key]) == UnmarshalString(TextMap(b)[key])
    ensures UnmarshalBool(TextMap(a)[key]) == UnmarshalBool(TextMap(b)[key])
    ensures UnmarshalInt(TextMap(a)[key]) == UnmarshalInt(TextMap(b)[key])
  {
    hide Decode, Emit, AsString, AsInt, AsBool;
    AlikeShape(a[key], b[key]);
    DecodeText(a[key]);
    DecodeText(b[key]);
    AlikeScalars(a[key], b[key]);
  }

  lemma {:induction false} CollectDepth(values: Values, m: Members, depth: nat)
    requires WellFormedMembers(m) && DepthMembers(m) <= depth
    requires forall k :: k in values ==> Depth(values[k]) <= depth
    ensures forall k :: k in Collect(values, m) ==> Depth(Collect(values, m)[k]) <= depth
    decreases m
  {
    hide Unquote, WellFormed, WellFormedBody, Depth;
    if m.tail.NextMember? {
      CollectDepth(values[Unquote(m.key) := m.value], m.tail.next, depth);
    }
  }

  ghost predicate Shallow(values: Values) { forall k :: k in values ==> Depth(values[k]) <= MAX_DEPTH }

  lemma AcceptedShallow(v: Value, allowed: set<Bytes>)
    requires WellFormed(v) && Acceptable(v, allowed)
    ensures Shallow(ObjectFields(v, allowed).value)
  {
    hide Collect, Judged, Clean, Depth;
    if v.Object? {
      assert Depth(v) == 1 + DepthMembers(v.members) by { ObjectDepth(v); }
      CollectDepth(map[], v.members, MAX_DEPTH);
    }
  }

  lemma ObjectDepth(v: Value)
    requires v.Object?
    ensures Depth(v) == 1 + DepthMembers(v.members)
  {}

  /** The strict reader on two texts that differ in whitespace only. */
  lemma StrictAlike(g: Bytes, v: Value, h: Bytes, w: Value, allowed: set<Bytes>) returns (a: Values, b: Values)
    requires Blank(g) && Blank(h) && WellFormed(v) && WellFormed(w) && Alike(v, w)
    ensures var r, s := StrictObject(g + TextOf(v), allowed), StrictObject(h + TextOf(w), allowed);
      && (r.Accepted? <==> s.Accepted?)
      && (r.Accepted? ==> r.fields == TextMap(a) && s.fields == TextMap(b) && AlikeValues(a, b) && Shallow(a))
  {
    hide StrictObject, Acceptable, ObjectFields, Emit, AlikeValues, Shallow, Alike, TextMap;
    a, b := map[], map[];
    AlikeObjects(v, w, allowed);
    StrictOfTree(g, v, allowed);
    StrictOfTree(h, w, allowed);
    if Acceptable(v, allowed) {
      AcceptableFields(v, allowed);
      AcceptableFields(w, allowed);
      a, b := ObjectFields(v, allowed).value, ObjectFields(w, allowed).value;
      AcceptedShallow(v, allowed);
    }
  }

  lemma AcceptableFields(v: Value, allowed: set<Bytes>)
    requires WellFormed(v) && Acceptable(v, allowed)
    ensures ObjectFields(v, allowed).Some?
  {}

  lemma CandidateAlike(v: Value, w: Value, v6: Ipv6Parser)
    requires WellFormed(v) && WellFormed(w) && Alike(v, w)
    ensures ParseCandidate(TextOf(v), v6) == ParseCandidate(TextOf(w), v6)
  {
    hide StrictObject, Emit, Alike, Shallow, UnmarshalString, ValidIPv4, ValidCommonName;
    var a, b := StrictAlike("", v, "", w, CANDIDATE_KEYS);
    Unpadded(v);
    Unpadded(w);
    if StrictObject(TextOf(v), CANDIDATE_KEYS).Accepted? {
      AlikeFields(a, b, "ipv4");
      AlikeFields(a, b, "tls_common_name");
    }
  }

  lemma Unpadded(v: Value)
    ensures "" + TextOf(v) == TextOf(v)
  {}

  lemma AlikeFields(a: Values, b: Values, key: Bytes)
    requires AlikeValues(a, b) && Shallow(a)
    ensures key in TextMap(a) <==> key in TextMap(b)
    ensures key in TextMap(a) ==>
      && UnmarshalString(TextMap(a)[key]) == UnmarshalString(TextMap(b)[key])
      && UnmarshalBool(TextMap(a)[key]) == UnmarshalBool(TextMap(b)[key])
      && UnmarshalInt(TextMap(a)[key]) == UnmarshalInt(TextMap(b)[key])
  {
    hide UnmarshalString, UnmarshalBool, UnmarshalInt, Emit;
    if key in a { AlikeText(a, b, key); }
  }

  lemma EndpointAlike(v: Value, w: Value, v6: Ipv6Parser)
    requires WellFormed(v) && WellFormed(w) && Alike(v, w)
    ensures ParseEndpoint(TextOf(v), v6) == ParseEndpoint(TextOf(w), v6)
  {
    hide StrictObject, Emit, Alike, Shallow, UnmarshalString, UnmarshalInt, ValidIPv4;
    var a, b := StrictAlike("", v, "", w, ENDPOINT_KEYS);
    Unpadded(v);
    Unpadded(w);
    if StrictObject(TextOf(v), ENDPOINT_KEYS).Accepted? {
      AlikeFields(a, b, "ipv4");
      AlikeFields(a, b, "udp_port");
    }
  }

  /** Insignificant whitespace, at any depth and before the object, does not change the plan read. */
  lemma PlanIgnoresWhitespace(g: Bytes, v: Value, h: Bytes, w: Value, v6: Ipv6Parser)
    requires Blank(g) && Blank(h) && WellFormed(v) && WellFormed(w) && Alike(v, w)
    ensures ParsePlan(g + TextOf(v), v6) == ParsePlan(h + TextOf(w), v6)
  {
    hide StrictObject, Emit, Alike, Shallow, UnmarshalString, UnmarshalBool, ValidIPv4, ValidRegion;
    hide ParseCandidate, ParseEndpoint, PlanOf;
    var a, b := StrictAlike(g, v, h, w, PLAN_KEYS);
    if StrictObject(g + TextOf(v), PLAN_KEYS).Accepted? {
      PlanFieldsAlike(a, b, v6);
    }
  }

  lemma PlanFieldsAlike(a: Values, b: Values, v6: Ipv6Parser)
    requires AlikeValues(a, b) && Shallow(a)
    ensures PlanOf(TextMap(a), v6) == PlanOf(TextMap(b), v6)
  {
    hide Emit, Alike, Shallow, UnmarshalString, UnmarshalBool, ValidIPv4, ValidRegion, ParseCandidate, ParseEndpoint;
    hide TextMap, AlikeValues;
    AlikeFields(a, b, "schema");
    AlikeFields(a, b, "region");
    AlikeFields(a, b, "port_forwarding");
    AlikeFields(a, b, "token_destination_ipv4");
    NestedAlike(a, b, "registration_candidate", v6);
    NestedAlike(a, b, "excluded_wireguard_endpoint", v6);
  }

  lemma NestedAlike(a: Values, b: Values, key: Bytes, v6: Ipv6Parser)
    requires AlikeValues(a, b)
    ensures key in TextMap(a) <==> key in TextMap(b)
    ensures key in TextMap(a) ==>
      && ParseCandidate(TextMap(a)[key], v6) == ParseCandidate(TextMap(b)[key], v6)
      && ParseEndpoint(TextMap(a)[key], v6) == ParseEndpoint(TextMap(b)[key], v6)
  {
    hide ParseCandidate, ParseEndpoint, Emit, Alike;
    if key in a {
      CandidateAlike(a[key], b[key], v6);
      EndpointAlike(a[key], b[key], v6);
    }
  }
}
