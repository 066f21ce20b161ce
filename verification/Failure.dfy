/** Failure classes and details, and the texts they have in a result record. */
module Failure {
  import opened Text

  datatype Class =
    | InvalidInvocation | InvalidPlan | InvalidCredentials | InvalidTrust
    | TokenFailed | AddKeyFailed | ResponseInvalid | EndpointReused
    | ConfigWriteFailed | DeadlineExceeded | Cancelled | ResultWriteFailed | InternalFailure

  datatype Detail =
    | MarkInvalid | MarkUnsupported | MarkRefused
    | PublicCaBundle | RegionalCaBundle
    | MissingCertificate | CaChain | EndpointIdentity
    | TokenHttpStatus | TokenBodyReadFailed | TokenBodyTooLarge | TokenJsonParseFailed
    | TokenUnexpectedField | TokenMissingField | TokenInvalidToken
    | AddKeyHttpStatus | AddKeyBodyReadFailed | AddKeyBodyTooLarge | AddKeyJsonParseFailed
    | AddKeyUnexpectedField | AddKeyMissingField | AddKeyFieldDecodeFailed
    | AddKeyInvalidStatus | AddKeyInvalidServerKey | AddKeyInvalidServerPort | AddKeyInvalidServerIP
    | AddKeyInvalidServerVIP | AddKeyInvalidPeerIP | AddKeyInvalidPeerPubKey | AddKeyInvalidDNS

  /** The outcome of a run or of one of its steps. */
  datatype Reason = Nothing | Because(kind: Class, detail: Option<Detail>)

  function Fail(c: Class): Reason { Because(c, None) }

  function FailWith(c: Class, d: Detail): Reason { Because(c, Some(d)) }

  function ClassText(c: Class): Bytes {
    match c
    case InvalidInvocation => "invalid_invocation"
    case InvalidPlan => "invalid_plan"
    case InvalidCredentials => "invalid_credentials"
    case InvalidTrust => "invalid_trust"
    case TokenFailed => "token_request_failed"
    case AddKeyFailed => "add_key_request_failed"
    case ResponseInvalid => "response_invalid"
    case EndpointReused => "endpoint_reused"
    case ConfigWriteFailed => "config_write_failed"
    case DeadlineExceeded => "deadline_exceeded"
    case Cancelled => "cancelled"
    case ResultWriteFailed => "result_write_failed"
    case InternalFailure => "internal_failure"
  }

  function DetailText(d: Detail): Bytes {
    match d
    case MarkInvalid => "socket_mark_invalid"
    case MarkUnsupported => "socket_mark_unsupported"
    case MarkRefused => "socket_mark_refused"
    case PublicCaBundle => "public_ca_bundle"
    case RegionalCaBundle => "regional_ca_bundle"
    case MissingCertificate => "missing_certificate"
    case CaChain => "ca_chain"
    case EndpointIdentity => "endpoint_identity"
    case TokenHttpStatus => "token_http_status"
    case TokenBodyReadFailed => "token_body_read_failed"
    case TokenBodyTooLarge => "token_body_too_large"
    case TokenJsonParseFailed => "token_json_parse_failed"
    case TokenUnexpectedField => "token_unexpected_field"
    case TokenMissingField => "token_missing_field"
    case TokenInvalidToken => "token_invalid_token"
    case AddKeyHttpStatus => "add_key_http_status"
    case AddKeyBodyReadFailed => "add_key_body_read_failed"
    case AddKeyBodyTooLarge => "add_key_body_too_large"
    case AddKeyJsonParseFailed => "add_key_json_parse_failed"
    case AddKeyUnexpectedField => "add_key_unexpected_field"
    case AddKeyMissingField => "add_key_missing_field"
    case AddKeyFieldDecodeFailed => "add_key_field_decode_failed"
    case AddKeyInvalidStatus => "add_key_invalid_status"
    case AddKeyInvalidServerKey => "add_key_invalid_server_key"
    case AddKeyInvalidServerPort => "add_key_invalid_server_port"
    case AddKeyInvalidServerIP => "add_key_invalid_server_ip"
    case AddKeyInvalidServerVIP => "add_key_invalid_server_vip"
    case AddKeyInvalidPeerIP => "add_key_invalid_peer_ip"
    case AddKeyInvalidPeerPubKey => "add_key_invalid_peer_pubkey"
    case AddKeyInvalidDNS => "add_key_invalid_dns"
  }

  predicate DetailChar(c: char) { 'a' <= c <= 'z' || '0' <= c <= '9' || c == '_' }

  predicate DetailChars(s: Bytes) { forall i :: 0 <= i < |s| ==> DetailChar(s[i]) }

  /** validConstrainedFailureDetail: a detail that is not 1 to 64 bytes of [a-z0-9_] is dropped. */
  function SafeDetail(s: Bytes): Bytes {
    if s == "" || |s| > 64 || !DetailChars(s) then "" else s
  }

  lemma MarkDetails(d: Detail)
    requires d.MarkInvalid? || d.MarkUnsupported? || d.MarkRefused?
    ensures DetailChars(DetailText(d)) && 1 <= |DetailText(d)| <= 32
  {}

  lemma TrustDetails(d: Detail)
    requires d.PublicCaBundle? || d.RegionalCaBundle? || d.MissingCertificate? || d.CaChain? || d.EndpointIdentity?
    ensures DetailChars(DetailText(d)) && 1 <= |DetailText(d)| <= 32
  {}

  lemma TokenReadDetails(d: Detail)
    requires d.TokenHttpStatus? || d.TokenBodyReadFailed? || d.TokenBodyTooLarge?
    ensures DetailChars(DetailText(d)) && 1 <= |DetailText(d)| <= 32
  {}

  lemma TokenFieldDetails(d: Detail)
    requires d.TokenJsonParseFailed? || d.TokenUnexpectedField? || d.TokenMissingField? || d.TokenInvalidToken?
    ensures DetailChars(DetailText(d)) && 1 <= |DetailText(d)| <= 32
  {}

  lemma AddKeyReadDetails(d: Detail)
    requires d.AddKeyHttpStatus? || d.AddKeyBodyReadFailed? || d.AddKeyBodyTooLarge?
    ensures DetailChars(DetailText(d)) && 1 <= |DetailText(d)| <= 32
  {}

  lemma AddKeyFieldDetails(d: Detail)
    requires d.AddKeyJsonParseFailed? || d.AddKeyUnexpectedField? || d.AddKeyMissingField? || d.AddKeyFieldDecodeFailed?
    ensures DetailChars(DetailText(d)) && 1 <= |DetailText(d)| <= 32
  {
    hide DetailChars;
    AddKeyFieldTexts();
  }

  lemma AddKeyFieldTexts()
    ensures DetailChars("add_key_json_parse_failed") && DetailChars("add_key_unexpected_field")
    ensures DetailChars("add_key_missing_field") && DetailChars("add_key_field_decode_failed")
  {
    hide DetailChars;
    AddKeyFieldTexts1();
    AddKeyFieldTexts2();
  }

  lemma AddKeyFieldTexts1()
    ensures DetailChars("add_key_json_parse_failed") && DetailChars("add_key_unexpected_field")
  {}

  lemma AddKeyFieldTexts2()
    ensures DetailChars("add_key_missing_field") && DetailChars("add_key_field_decode_failed")
  {}

  lemma AddKeyServerDetails(d: Detail)
    requires d.AddKeyInvalidServerKey? || d.AddKeyInvalidServerPort? || d.AddKeyInvalidServerIP? ||
             d.AddKeyInvalidServerVIP?
    ensures DetailChars(DetailText(d)) && 1 <= |DetailText(d)| <= 32
  {
    hide DetailChars;
    AddKeyServerTexts();
  }

  lemma AddKeyServerTexts()
    ensures DetailChars("add_key_invalid_server_key") && DetailChars("add_key_invalid_server_port")
    ensures DetailChars("add_key_invalid_server_ip") && DetailChars("add_key_invalid_server_vip")
  {
    hide DetailChars;
    AddKeyServerTexts1();
    AddKeyServerTexts2();
  }

  lemma AddKeyServerTexts1()
    ensures DetailChars("add_key_invalid_server_key") && DetailChars("add_key_invalid_server_port")
  {}

  lemma AddKeyServerTexts2()
    ensures DetailChars("add_key_invalid_server_ip") && DetailChars("add_key_invalid_server_vip")
  {}

  lemma AddKeyPeerDetails(d: Detail)
    requires d.AddKeyInvalidStatus? || d.AddKeyInvalidPeerIP? || d.AddKeyInvalidPeerPubKey? || d.AddKeyInvalidDNS?
    ensures DetailChars(DetailText(d)) && 1 <= |DetailText(d)| <= 32
  {
    hide DetailChars;
    AddKeyPeerTexts();
  }

  lemma AddKeyPeerTexts()
    ensures DetailChars("add_key_invalid_status")
    ensures DetailChars("add_key_invalid_peer_ip")
    ensures DetailChars("add_key_invalid_peer_pubkey")
    ensures DetailChars("add_key_invalid_dns")
  {}

  /** Every detail the runner reports survives the filter. */
  lemma DetailsAreSafe(d: Detail)
    ensures SafeDetail(DetailText(d)) == DetailText(d) && 1 <= |DetailText(d)| <= 32
  {
    hide DetailText, DetailChars;
    match d
    case MarkInvalid => MarkDetails(d);
    case MarkUnsupported => MarkDetails(d);
    case MarkRefused => MarkDetails(d);
    case PublicCaBundle => TrustDetails(d);
    case RegionalCaBundle => TrustDetails(d);
    case MissingCertificate => TrustDetails(d);
    case CaChain => TrustDetails(d);
    case EndpointIdentity => TrustDetails(d);
    case TokenHttpStatus => TokenReadDetails(d);
    case TokenBodyReadFailed => TokenReadDetails(d);
    case TokenBodyTooLarge => TokenReadDetails(d);
    case TokenJsonParseFailed => TokenFieldDetails(d);
    case TokenUnexpectedField => TokenFieldDetails(d);
    case TokenMissingField => TokenFieldDetails(d);
    case TokenInvalidToken => TokenFieldDetails(d);
    case AddKeyHttpStatus => AddKeyReadDetails(d);
    case AddKeyBodyReadFailed => AddKeyReadDetails(d);
    case AddKeyBodyTooLarge => AddKeyReadDetails(d);
    case AddKeyJsonParseFailed => AddKeyFieldDetails(d);
    case AddKeyUnexpectedField => AddKeyFieldDetails(d);
    case AddKeyMissingField => AddKeyFieldDetails(d);
    case AddKeyFieldDecodeFailed => AddKeyFieldDetails(d);
    case AddKeyInvalidServerKey => AddKeyServerDetails(d);
    case AddKeyInvalidServerPort => AddKeyServerDetails(d);
    case AddKeyInvalidServerIP => AddKeyServerDetails(d);
    case AddKeyInvalidServerVIP => AddKeyServerDetails(d);
    case AddKeyInvalidStatus => AddKeyPeerDetails(d);
    case AddKeyInvalidPeerIP => AddKeyPeerDetails(d);
    case AddKeyInvalidPeerPubKey => AddKeyPeerDetails(d);
    case AddKeyInvalidDNS => AddKeyPeerDetails(d);
  }
}
