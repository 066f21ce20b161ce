/**
 A constrained run as a timed step machine: sixteen stages, each with the events it causes,
 the time it takes, what it learns and the reason it may stop for. The environment is a
 script: every answer, every delay and the instant of cancellation, all arbitrary.
 Local computation takes no time; reads, requests and writes are cut off by their timeouts.
 */
module Machine {
  import opened Text
  import opened Clock
  import opened Utf8
  import opened Ipv4
  import opened SocketMark
  import opened Failure
  import opened Plan
  import opened CredentialInput
  import opened AddKey
  import opened Records
  import opened Transport
  import opened Url
  import opened Argv

  const LIFETIME: nat := 60 * SECOND
  const FILE_TIMEOUT: nat := 5 * SECOND

  const MAX_PLAN: nat := 16384
  const MAX_CREDENTIALS: nat := 8192
  const MAX_CA_BUNDLE: nat := 131072
  const MAX_TOKEN_BODY: nat := 8192

  /** The print of a WireGuard key. */
  type KeyPrint = s: Bytes | |s| == 44 && SingleBytes(s) witness "AAAAAAAAAAAAAAAAAAAAAAAAAAAAAAAAAAAAAAAAAAA="

  datatype KeyPair = KeyPair(private: KeyPrint, public: KeyPrint)

  /** A descriptor read: how long it takes and what it yields, if not an error. */
  datatype ReadScript = ReadScript(elapsed: nat, data: Option<Bytes>)

  /** A descriptor write: how long it takes, how many bytes go through, whether an error is reported. */
  datatype WriteScript = WriteScript(elapsed: nat, accepted: nat, ok: bool)

  datatype Env = Env(
    args: seq<Bytes>, markSupported: bool, v6: Ipv6Parser, brackets: BracketParser, takesHost: Bytes -> bool,
    start: nat, cancelAt: Option<nat>,
    planRead: ReadScript, credentialsRead: ReadScript, publicCaRead: ReadScript, regionalCaRead: ReadScript,
    publicCaOk: bool, regionalCaOk: bool,
    tokenExchange: Exchange, keys: Option<KeyPair>, addKeyExchange: Exchange,
    configWrite: WriteScript, resultWrite: WriteScript, failureWrite: WriteScript)

  function Deadline(e: Env): nat { e.start + LIFETIME }

  datatype Context = Alive | Canceled | Expired

  /** ctx.Err() at an instant: the first of interrupt and deadline decides for good. */
  function ContextAt(e: Env, t: nat): Context {
    if e.cancelAt.Some? && e.cancelAt.value <= t && e.cancelAt.value < Deadline(e) then Canceled
    else if t >= Deadline(e) then Expired
    else Alive
  }

  predicate Admit(e: Env, t: nat, budget: nat) { Deadline(e) - t >= budget && ContextAt(e, t) == Alive }

  function ContextClass(e: Env, t: nat): Class {
    if ContextAt(e, t) == Canceled then Cancelled else DeadlineExceeded
  }

  /** classifyNetworkError. */
  function NetworkClass(e: Env, t: nat, fallback: Class): Class {
    match ContextAt(e, t)
    case Canceled => Cancelled
    case Expired => DeadlineExceeded
    case Alive => fallback
  }

  /** readLimitedFile. */
  function ReadResult(r: ReadScript, limit: nat): Option<Bytes> {
    if r.elapsed <= FILE_TIMEOUT && r.data.Some? && |r.data.value| <= limit then r.data else None
  }

  function FileTime(elapsed: nat): nat { Least(elapsed, FILE_TIMEOUT) }

  predicate WriteDone(w: WriteScript, body: Bytes) { w.elapsed <= FILE_TIMEOUT && w.ok && w.accepted >= |body| }

  function WrittenBytes(w: WriteScript, body: Bytes): Bytes {
    if WriteDone(w, body) then body else body[..Least(w.accepted, |body|)]
  }

  predicate ValidCredential(s: Bytes) {
    0 < |s| <= 256 && ValidUtf8(s) && forall i :: 0 <= i < |s| ==> s[i] != '\0' && s[i] != '\r' && s[i] != '\n'
  }

  // ---- Stages ------------------------------------------------------------------------------------

  /** What a run has learned so far. */
  datatype Data = Data(
    plan: Option<Plan>, credentials: Option<Credentials>, token: Option<Bytes>, body: Option<Bytes>,
    answer: Option<AddKeyResult>)

  datatype Effect = Effect(events: seq<Event>, elapsed: nat, data: Data, reason: Reason)

  const NO_DATA: Data := Data(None, None, None, None, None)

  function Pass(d: Data): Effect { Effect([], 0, d, Nothing) }

  function Stop(d: Data, r: Reason): Effect { Effect([], 0, d, r) }

  const LAST: nat := 16

  /** The plan in the plan input, if it can be read. */
  function PlanGiven(e: Env): Option<Plan> {
    match ReadResult(e.planRead, MAX_PLAN) case None => None case Some(raw) => ParsePlan(raw, e.v6)
  }

  function CredentialsGiven(e: Env): Option<Credentials> {
    match ReadResult(e.credentialsRead, MAX_CREDENTIALS)
    case None => None
    case Some(raw) =>
      match ParseCredentials(raw)
      case None => None
      case Some(c) => if ValidCredential(c.username) && ValidCredential(c.password) then Some(c) else None
  }

  /** The body a request was answered with. */
  predicate BodyIs(x: Exchange, raw: Bytes) { x.reply.Answered? && x.reply.body == Some(raw) }

  /** The token server's answer carries this token. */
  predicate TokenGiven(e: Env, token: Bytes) {
    var r := e.tokenExchange.reply;
    r.Answered? && r.body.Some? && ParseToken(r.body.value) == Good(token)
  }

  /** What is known when stage n begins. */
  predicate Known(n: nat, d: Data, e: Env) {
    && (n > 1 && MarkFlag(e).Some? ==> MarkValue(e).Some?)
    && (n > 3 ==> d.plan.Some? && d.plan == PlanGiven(e) && ValidPlan(d.plan.value, e.v6))
    && (n > 4 ==> d.credentials.Some? && d.credentials == CredentialsGiven(e))
    && (n > 8 ==> d.token.Some? && TokenGiven(e, d.token.value))
    && (n > 10 ==> e.keys.Some? && d.answer.Some? && d.body.Some? && |d.body.value| <= MAX_BODY &&
                   BodyIs(e.addKeyExchange, d.body.value) && ParseAddKey(d.body.value) == Good(d.answer.value))
    && (n > 11 ==> Validate(d.plan.value.portForwarding, d.answer.value, e.keys.value.public, e.v6) == None &&
                   !Reused(d.plan.value, d.answer.value))
  }

  function MarkFlag(e: Env): Option<Bytes> { ParseCommandLine(e.args).mark }

  function MarkValue(e: Env): Option<nat> {
    match MarkFlag(e) case None => None case Some(s) => ParseSocketMark(s)
  }

  function InvocationStage(d: Data, e: Env): Effect {
    if Repeats(e.args, {}) then Stop(d, Fail(InvalidInvocation)) else Pass(d)
  }

  /** constrainedSocketControl. */
  function MarkStage(d: Data, e: Env): Effect {
    if MarkFlag(e) == None then Pass(d)
    else if MarkValue(e) == None then Stop(d, FailWith(InvalidInvocation, MarkInvalid))
    else if !e.markSupported then Stop(d, FailWith(InvalidInvocation, MarkUnsupported))
    else Pass(d)
  }

  function Gate(d: Data, e: Env, t: nat, budget: nat): Effect {
    if Admit(e, t, budget) then Pass(d) else Stop(d, Fail(ContextClass(e, t)))
  }

  function PlanStage(d: Data, e: Env): Effect {
    var p := PlanGiven(e);
    Effect([ReadInput(PlanInput)], FileTime(e.planRead.elapsed), if p == None then d else d.(plan := p),
           if p == None then Fail(InvalidPlan) else Nothing)
  }

  function CredentialsStage(d: Data, e: Env): Effect {
    var c := CredentialsGiven(e);
    Effect([ReadInput(CredentialsInput)], FileTime(e.credentialsRead.elapsed),
           if c == None then d else d.(credentials := c),
           if c == None then Fail(InvalidCredentials) else Nothing)
  }

  /** A CA bundle: the certificate parser's verdict on what was read. */
  function BundleStage(d: Data, input: Input, r: ReadScript, verdict: bool, detail: Detail): Effect {
    var read := Effect([ReadInput(input)], FileTime(r.elapsed), d, FailWith(InvalidTrust, detail));
    match ReadResult(r, MAX_CA_BUNDLE)
    case None => read
    case Some(raw) => if raw != "" && verdict then read.(reason := Nothing) else read
  }

  const TOKEN_HOST: Bytes := "www.privateinternetaccess.com"

  function TokenTarget(d: Data, e: Env): Target
    requires d.plan.Some?
  {
    Target(TokenRequest, d.plan.value.tokenIPv4, 443, MarkValue(e))
  }

  function TokenOutcome(d: Data, e: Env): Outcome
    requires d.plan.Some?
  {
    OutcomeOf(e.tokenExchange, DialResults(e.tokenExchange.dials, TokenTarget(d, e), 0), TOKEN_HOST, false, true,
              MAX_TOKEN_BODY, e.v6)
  }

  /** Time passes until the headers are in or the client gives up, and if the body is read until that is done. */
  function Elapsed(x: Exchange, o: Outcome): nat {
    match o
    case BodyUnreadable => ExchangeTime(x)
    case BodyTooLarge => ExchangeTime(x)
    case Body(_) => ExchangeTime(x)
    case _ => Least(x.headerTime, REQUEST_TIMEOUT)
  }

  function TokenReason(o: Outcome, e: Env, end: nat): Reason {
    match o
    case TrustRefused(_) => Fail(InvalidTrust)
    case MarkWasRefused => FailWith(TokenFailed, MarkRefused)
    case NetworkError => Fail(NetworkClass(e, end, TokenFailed))
    case BadStatus => FailWith(TokenFailed, TokenHttpStatus)
    case BodyUnreadable => FailWith(ResponseInvalid, TokenBodyReadFailed)
    case BodyTooLarge => FailWith(ResponseInvalid, TokenBodyTooLarge)
    case Body(raw) =>
      match ParseToken(raw) case Good(_) => Nothing case Bad(detail) => FailWith(ResponseInvalid, detail)
  }

  /** constrainedTokenRequest. */
  function TokenStage(d: Data, e: Env, t: nat): Effect
    requires d.plan.Some? && d.credentials.Some?
  {
    var o := TokenOutcome(d, e);
    var elapsed := Elapsed(e.tokenExchange, o);
    var c := d.credentials.value;
    Effect([Started(TokenRequest, Login(c.username, c.password), t)]
             + DialEvents(e.tokenExchange.dials, TokenTarget(d, e), 0),
           elapsed,
           if o.Body? && ParseToken(o.raw).Good? then d.(token := Some(ParseToken(o.raw).value)) else d,
           TokenReason(o, e, t + elapsed))
  }

  function AddKeyTarget(d: Data, e: Env): Target
    requires d.plan.Some?
  {
    Target(AddKeyRequest, d.plan.value.candidate.ipv4, 1337, MarkValue(e))
  }

  /** The URL of the add-key request: it begins with the candidate's common name. */
  function AddKeyUrlOf(d: Data, e: Env): Option<Url>
    requires d.plan.Some? && d.token.Some? && e.keys.Some?
  {
    AddKeyUrl(d.plan.value.candidate.commonName, d.token.value, e.keys.value.public, e.brackets)
  }

  /** The host that the candidate's name gives the request, if a request can be built with it at all. */
  function HostGiven(e: Env): Option<Bytes> {
    match PlanGiven(e) case None => None case Some(p) => RequestHost(p.candidate.commonName, e.brackets)
  }

  lemma HostKnown(d: Data, e: Env)
    requires Known(10, d, e) && e.keys.Some?
    ensures AddKeyUrlOf(d, e).Some? <==> HostGiven(e).Some?
    ensures AddKeyUrlOf(d, e).Some? ==> HostGiven(e) == Some(AddKeyUrlOf(d, e).value.host)
  {
    hide MarkFlag, MarkValue, PlanGiven, CredentialsGiven, TokenGiven, AddKeyUrl, RequestHost, ValidIPv4, ValidRegion,
      ParseIP;
    var name := d.plan.value.candidate.commonName;
    assert forall i :: 0 <= i < |name| ==> NameChar(name[i]);
    HostIsRequestHost(name, d.token.value, e.keys.value.public, e.brackets);
  }

  /** A host of ASCII bytes can always be written into a request; one with others if the library can convert it. */
  predicate Writable(host: Bytes, e: Env) { Ascii(host) || e.takesHost(host) }

  function AddKeyOutcome(d: Data, e: Env, host: Bytes): Outcome
    requires d.plan.Some?
  {
    OutcomeOf(e.addKeyExchange, DialResults(e.addKeyExchange.dials, AddKeyTarget(d, e), 0),
              d.plan.value.candidate.commonName, true, Writable(host, e), MAX_BODY, e.v6)
  }

  function AddKeyReason(o: Outcome, e: Env, end: nat): Reason {
    match o
    case TrustRefused(detail) => FailWith(InvalidTrust, detail)
    case MarkWasRefused => FailWith(AddKeyFailed, MarkRefused)
    case NetworkError => Fail(NetworkClass(e, end, AddKeyFailed))
    case BadStatus => FailWith(AddKeyFailed, AddKeyHttpStatus)
    case BodyUnreadable => FailWith(ResponseInvalid, AddKeyBodyReadFailed)
    case BodyTooLarge => FailWith(ResponseInvalid, AddKeyBodyTooLarge)
    case Body(raw) =>
      match ParseAddKey(raw) case Good(_) => Nothing case Bad(detail) => FailWith(ResponseInvalid, detail)
  }

  /**
   Key generation and constrainedAddKeyRequest. A URL that does not parse is an internal
   failure; one without a host is refused by the client before it dials.
   */
  function AddKeyStage(d: Data, e: Env, t: nat): Effect
    requires d.plan.Some? && d.token.Some?
  {
    if e.keys == None || AddKeyUrlOf(d, e) == None then Stop(d, Fail(InternalFailure))
    else
      var url := AddKeyUrlOf(d, e).value;
      var start := Started(AddKeyRequest, Get(url), t);
      if url.host == "" then Effect([start], 0, d, AddKeyReason(NetworkError, e, t))
      else
        var o := AddKeyOutcome(d, e, url.host);
        var elapsed := Elapsed(e.addKeyExchange, o);
        Effect([start] + DialEvents(e.addKeyExchange.dials, AddKeyTarget(d, e), 0),
               elapsed,
               if o.Body? && ParseAddKey(o.raw).Good?
               then d.(body := Some(o.raw), answer := Some(ParseAddKey(o.raw).value)) else d,
               AddKeyReason(o, e, t + elapsed))
  }

  function ValidationStage(d: Data, e: Env): Effect
    requires d.plan.Some? && d.answer.Some? && e.keys.Some?
  {
    match Validate(d.plan.value.portForwarding, d.answer.value, e.keys.value.public, e.v6)
    case Some(detail) => Stop(d, FailWith(ResponseInvalid, detail))
    case None => if Reused(d.plan.value, d.answer.value) then Stop(d, Fail(EndpointReused)) else Pass(d)
  }

  function ConfigText(d: Data, e: Env): Bytes
    requires Known(12, d, e)
  {
    RenderConfig(e.keys.value.private, d.answer.value, e.v6)
  }

  function ConfigStage(d: Data, e: Env, t: nat): Effect
    requires Known(12, d, e)
  {
    var config := ConfigText(d, e);
    var w := e.configWrite;
    if |config| > MAX_CONFIG then Stop(d, Fail(InternalFailure))
    else
      Effect([WroteConfig(WrittenBytes(w, config), WriteDone(w, config), t)], FileTime(w.elapsed), d,
             if WriteDone(w, config) then Nothing else Fail(ConfigWriteFailed))
  }

  function RecordText(d: Data, e: Env): Bytes
    requires Known(12, d, e)
  {
    ValidatedInput(d.plan.value, d.answer.value, e.keys.value.public, e.v6);
    SuccessRecord(d.plan.value, d.answer.value)
  }

  function ResultStage(d: Data, e: Env, t: nat): Effect
    requires Known(12, d, e)
  {
    var record := RecordText(d, e);
    var w := e.resultWrite;
    if |record| > MAX_RESULT then Stop(d, Fail(InternalFailure))
    else if |record + "\n"| > MAX_RESULT then Stop(d, Fail(ResultWriteFailed))
    else
      Effect([WroteRecord(WrittenBytes(w, record + "\n"), WriteDone(w, record + "\n"), t)], FileTime(w.elapsed), d,
             if WriteDone(w, record + "\n") then Nothing else Fail(ResultWriteFailed))
  }

  /** The stages in order. */
  function StageEffect(n: nat, d: Data, e: Env, t: nat): Effect
    requires n < LAST && Known(n, d, e)
  {
    if n == 0 then InvocationStage(d, e)
    else if n == 1 then MarkStage(d, e)
    else if n == 2 then Gate(d, e, t, 45 * SECOND)
    else if n == 3 then PlanStage(d, e)
    else if n == 4 then CredentialsStage(d, e)
    else if n == 5 then BundleStage(d, PublicCaInput, e.publicCaRead, e.publicCaOk, PublicCaBundle)
    else if n == 6 then BundleStage(d, RegionalCaInput, e.regionalCaRead, e.regionalCaOk, RegionalCaBundle)
    else if n == 7 then Gate(d, e, t, 45 * SECOND)
    else if n == 8 then TokenStage(d, e, t)
    else if n == 9 then Gate(d, e, t, 30 * SECOND)
    else if n == 10 then AddKeyStage(d, e, t)
    else if n == 11 then ValidationStage(d, e)
    else if n == 12 then Gate(d, e, t, 15 * SECOND)
    else if n == 13 then ConfigStage(d, e, t)
    else if n == 14 then Gate(d, e, t, 10 * SECOND)
    else ResultStage(d, e, t)
  }

  // ---- Runs --------------------------------------------------------------------------------------

  /** A run under way: it stands before `stage`, or has stopped in it. */
  datatype State = State(stage: nat, now: nat, data: Data, trace: seq<Event>, stopped: Reason)

  function Initial(e: Env): State { State(0, e.start, NO_DATA, [], Nothing) }

  predicate Running(s: State, e: Env) { s.stopped == Nothing && s.stage < LAST && Known(s.stage, s.data, e) }

  function Step(s: State, e: Env): State
    requires Running(s, e)
  {
    var x := StageEffect(s.stage, s.data, e, s.now);
    State(if x.reason == Nothing then s.stage + 1 else s.stage, s.now + x.elapsed, x.data, s.trace + x.events, x.reason)
  }

  function RunFrom(s: State, e: Env): State
    decreases LAST - s.stage, if s.stopped == Nothing then 1 else 0
  {
    if Running(s, e) then RunFrom(Step(s, e), e) else s
  }

  /** execute. */
  function Run(e: Env): State { RunFrom(Initial(e), e) }
}
