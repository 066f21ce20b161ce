/** The token and add-key responses, their validation, and the config rendered from them. */
module AddKey {
  import opened Text
  import opened JsonDecode
  import opened StrictJson
  import opened Ipv4
  import opened Plan
  import opened Failure

  datatype Answer<+T> = Good(value: T) | Bad(detail: Detail)

  const MAX_TOKEN: nat := 4096

  predicate VisibleAscii(s: Bytes, limit: nat) {
    0 < |s| <= limit && forall i :: 0 <= i < |s| ==> 0x21 <= s[i] as int <= 0x7e
  }

  /** parseConstrainedTokenDetailed. */
  function ParseToken(raw: Bytes): Answer<Bytes> {
    match StrictObject(raw, {"token"})
    case Unexpected(_) => Bad(TokenUnexpectedField)
    case Malformed => Bad(TokenJsonParseFailed)
    case Accepted(f) =>
      match AllFields(raw, {"token"})
      case None => Bad(TokenMissingField)
      case Some(f) =>
        match UnmarshalString(f["token"])
        case Some(t) => if VisibleAscii(t, MAX_TOKEN) then Good(t) else Bad(TokenInvalidToken)
        case None => Bad(TokenInvalidToken)
  }

  datatype AddKeyResult = AddKeyResult(
    status: Bytes, serverKey: Bytes, serverPort: int, serverIP: Bytes,
    serverVIP: Bytes, peerIP: Bytes, peerPubKey: Bytes, dns: seq<Bytes>)

  const ADD_KEY_KEYS: set<Bytes> := {
    "status", "server_key", "server_port", "server_ip", "server_vip", "peer_ip", "peer_pubkey", "dns_servers"}

  /** parseConstrainedAddKeyDetailed. */
  function ParseAddKey(raw: Bytes): Answer<AddKeyResult> {
    match StrictObject(raw, ADD_KEY_KEYS)
    case Unexpected(_) => Bad(AddKeyUnexpectedField)
    case Malformed => Bad(AddKeyJsonParseFailed)
    case Accepted(f) =>
      match AllFields(raw, ADD_KEY_KEYS)
      case None => Bad(AddKeyMissingField)
      case Some(f) => AddKeyOf(f)
  }

  function AddKeyOf(f: Fields): Answer<AddKeyResult>
    requires f.Keys == ADD_KEY_KEYS
  {
    match (UnmarshalString(f["status"]), UnmarshalString(f["server_key"]), UnmarshalString(f["server_ip"]),
           UnmarshalString(f["server_vip"]), UnmarshalString(f["peer_ip"]), UnmarshalString(f["peer_pubkey"]))
    case (Some(status), Some(key), Some(ip), Some(vip), Some(peer), Some(pub)) =>
      (match (UnmarshalInt(f["server_port"]), UnmarshalStrings(f["dns_servers"]))
       case (Some(port), Some(dns)) => Good(AddKeyResult(status, key, port, ip, vip, peer, pub, dns))
       case _ => Bad(AddKeyFieldDecodeFailed))
    case _ => Bad(AddKeyFieldDecodeFailed)
  }

  // ---- Validation --------------------------------------------------------------------------

  predicate Base64Char(c: char) {
    'a' <= c <= 'z' || 'A' <= c <= 'Z' || '0' <= c <= '9' || c == '+' || c == '/'
  }

  function StripNewlines(s: Bytes): Bytes {
    if s == "" then ""
    else if s[0] == '\n' || s[0] == '\r' then StripNewlines(s[1..])
    else [s[0]] + StripNewlines(s[1..])
  }

  /** wgtypes.ParseKey succeeds: base64 of 32 bytes, with newlines skipped wherever they are. */
  predicate KeyText(s: Bytes) {
    var t := StripNewlines(s);
    |t| == 44 && t[43] == '=' && forall i :: 0 <= i < 43 ==> Base64Char(t[i])
  }

  /** Where the first slash is. */
  function SlashIndex(s: Bytes): (i: nat)
    ensures i <= |s| && (i < |s| ==> s[i] == '/')
  {
    if s == "" || s[0] == '/' then 0 else 1 + SlashIndex(s[1..])
  }

  /** The prefix length after the slash: all digits, leading zeros allowed, at most `bits`. */
  predicate PrefixLength(s: Bytes, bits: nat) {
    s != "" && AllDigits(s) && (DigitsAreNumeral(s); NumberOf(s, 10) <= bits)
  }

  /** validConstrainedPeerIP: an IPv4 address, or one with a prefix length, in any text ParseIP and ParseCIDR take. */
  predicate ValidPeerIP(s: Bytes, v6: Ipv6Parser) {
    match ParseIP(s, v6)
    case MappedIpv4(_) => true
    case Ipv6Address => false
    case NotAnAddress =>
      var i := SlashIndex(s);
      && i < |s| && ParseIP(s[..i], v6).MappedIpv4?
      && PrefixLength(s[i + 1..], if FirstSeparator(s[..i]) == Some('.') then 32 else 128)
  }

  /** validateConstrainedAddKey: the first complaint, in the order the fields are checked. */
  function Validate(portForwarding: bool, r: AddKeyResult, publicKey: Bytes, v6: Ipv6Parser): (d: Option<Detail>)
    ensures d == None ==> |r.dns| >= 1 && r.serverPort >= 1
  {
    hide ValidIPv4, ValidPeerIP, KeyText;
    if r.status != "OK" then Some(AddKeyInvalidStatus)
    else if !KeyText(r.serverKey) then Some(AddKeyInvalidServerKey)
    else if r.serverPort < 1 || r.serverPort > 65535 then Some(AddKeyInvalidServerPort)
    else if !ValidIPv4(r.serverIP, v6) then Some(AddKeyInvalidServerIP)
    else if !ValidPeerIP(r.peerIP, v6) then Some(AddKeyInvalidPeerIP)
    else if !KeyText(r.peerPubKey) || r.peerPubKey != publicKey then Some(AddKeyInvalidPeerPubKey)
    else if |r.dns| < 1 || |r.dns| > 8 then Some(AddKeyInvalidDNS)
    else if exists i :: 0 <= i < |r.dns| && !ValidIPv4(r.dns[i], v6) then Some(AddKeyInvalidDNS)
    else if portForwarding then if ValidIPv4(r.serverVIP, v6) then None else Some(AddKeyInvalidServerVIP)
    else if r.serverVIP != "" then Some(AddKeyInvalidServerVIP)
    else None
  }

  /** The string comparison of the excluded endpoint with the returned one. */
  predicate Reused(p: Plan, r: AddKeyResult) {
    p.excluded.Some? && p.excluded.value.ipv4 == r.serverIP && p.excluded.value.port == r.serverPort
  }

  /** After parsing and validation the comparison holds exactly when the two are the same address and port. */
  lemma ReuseIsExact(p: Plan, r: AddKeyResult, publicKey: Bytes, v6: Ipv6Parser) returns (server: Address)
    requires ValidPlan(p, v6) && Validate(p.portForwarding, r, publicKey, v6) == None
    ensures r.serverIP == Dotted(server)
    ensures p.excluded.Some? ==> exists a: Address ::
      p.excluded.value.ipv4 == Dotted(a) && (Reused(p, r) <==> a == server && p.excluded.value.port == r.serverPort)
  {
    hide ValidIPv4, KeyText, ValidPeerIP, Dotted;
    server := ValidIPv4Unique(r.serverIP, v6);
    if p.excluded.Some? {
      var a := ValidIPv4Unique(p.excluded.value.ipv4, v6);
      if Dotted(a) == Dotted(server) { DottedInjective(a, server); }
    }
  }

  // ---- Rendering ---------------------------------------------------------------------------

  const MAX_BODY: nat := 65536
  const MAX_CONFIG: nat := 65536

  function PeerAddress(s: Bytes, v6: Ipv6Parser): Bytes {
    match ParseIP(s, v6)
    case MappedIpv4(a) => Dotted(a) + "/32"
    case _ => s
  }

  function HostPort(ip: Bytes, port: nat): Bytes { ip + ":" + Decimal(port) }

  function Line(name: Bytes, value: Bytes): Bytes { name + " = " + value + "\n" }

  /** renderConstrainedConfig. */
  function RenderConfig(privateKey: Bytes, r: AddKeyResult, v6: Ipv6Parser): Bytes
    requires |r.dns| >= 1 && r.serverPort >= 0
  {
    "[Interface]\n"
    + Line("PrivateKey", privateKey)
    + Line("Address", PeerAddress(r.peerIP, v6))
    + Line("DNS", r.dns[0])
    + "[Peer]\n"
    + Line("PublicKey", r.serverKey)
    + Line("AllowedIPs", "0.0.0.0/0")
    + Line("Endpoint", HostPort(r.serverIP, r.serverPort))
    + Line("PersistentKeepalive", "25")
  }
}
