/**
 What a single stage can do: how long it takes, what it learns, which events it causes,
 in which order and with which content, and what a reason to stop in it looks like.
 */
module RunFacts {
  import opened Text
  import opened Clock
  import opened JsonDecode
  import opened StrictJson
  import opened Ipv4
  import opened Failure
  import opened Plan
  import opened CredentialInput
  import opened AddKey
  import opened ConfigSize
  import opened Records
  import opened Transport
  import opened Url
  import opened Machine

  // ---- Time ----------------------------------------------------------------------------------

  /** The latest a stage can begin, counted from the start of the run. */
  function Latest(n: nat): nat {
    (if n <= 3 then 0 else if n == 4 then 5 else if n == 5 then 10 else if n == 6 then 15 else if n == 7 then 20
     else if n == 8 then 15 else if n <= 10 then 30 else if n <= 13 then 45 else if n <= 15 then 50 else 55) * SECOND
  }

  /** The most a stage can take. */
  function StageTime(n: nat): nat {
    (if 3 <= n <= 6 || n == 13 || n == 15 then 5 else if n == 8 || n == 10 then 15 else 0) * SECOND
  }

  predicate OnTime(n: nat, e: Env, t: nat) { e.start <= t <= e.start + Latest(n) }

  /**
   A gate that lets the run through leaves time for all that follows; only the one before the token
   request needs to.
   */
  lemma GateTime(n: nat, e: Env, t: nat, budget: nat)
    requires OnTime(n, e, t)
    requires (n, budget) in {(2, 45 * SECOND), (7, 45 * SECOND), (9, 30 * SECOND), (12, 15 * SECOND), (14, 10 * SECOND)}
    ensures Admit(e, t, budget) ==> OnTime(n + 1, e, t)
    ensures n != 7 ==> (Admit(e, t, budget) <==> ContextAt(e, t) != Canceled)
    ensures n == 7 ==> (Admit(e, t, budget) <==> ContextAt(e, t) != Canceled && t <= e.start + 15 * SECOND)
    ensures ContextAt(e, t) != Expired
  {}

  // ---- Events --------------------------------------------------------------------------------

  function InputStage(i: Input): nat {
    match i case PlanInput => 3 case CredentialsInput => 4 case PublicCaInput => 5 case RegionalCaInput => 6
  }

  function RequestStage(r: Request): nat { if r == TokenRequest then 8 else 10 }

  function EventStage(v: Event): nat {
    match v
    case ReadInput(i) => InputStage(i)
    case Started(r, _, _) => RequestStage(r)
    case MarkSet(r, _, _, _) => RequestStage(r)
    case Connect(r, _, _, _, _) => RequestStage(r)
    case WroteConfig(_, _, _) => 13
    case WroteRecord(_, _, _) => 15
  }

  /** Every kind of event has its place in a run; a request is started, then its socket marked, then connected. */
  function Slot(v: Event): nat {
    3 * EventStage(v) + if v.MarkSet? then 1 else if v.Connect? then 2 else 0
  }

  ghost predicate Increasing(trace: seq<Event>) {
    forall i, j :: 0 <= i < j < |trace| ==> Slot(trace[i]) < Slot(trace[j])
  }

  /** The answer to the add-key request, as far as it reads. */
  function AnswerGiven(e: Env): Option<AddKeyResult> {
    var r := e.addKeyExchange.reply;
    if !r.Answered? || r.body == None then None
    else match ParseAddKey(r.body.value) case Good(a) => Some(a) case Bad(_) => None
  }

  /** The answer passes validation and is not the excluded endpoint. */
  predicate Approved(e: Env) {
    && PlanGiven(e).Some? && ValidPlan(PlanGiven(e).value, e.v6) && e.keys.Some? && AnswerGiven(e).Some?
    && Validate(PlanGiven(e).value.portForwarding, AnswerGiven(e).value, e.keys.value.public, e.v6) == None
    && !Reused(PlanGiven(e).value, AnswerGiven(e).value)
  }

  function ApprovedConfig(e: Env): Bytes
    requires Approved(e)
  {
    RenderConfig(e.keys.value.private, AnswerGiven(e).value, e.v6)
  }

  function ApprovedRecord(e: Env): Bytes
    requires Approved(e)
  {
    ValidatedInput(PlanGiven(e).value, AnswerGiven(e).value, e.keys.value.public, e.v6);
    SuccessRecord(PlanGiven(e).value, AnswerGiven(e).value) + "\n"
  }

  /** These bytes are the start of the approved config; all of it if the write is complete. */
  predicate ConfigPart(bytes: Bytes, complete: bool, e: Env) {
    Approved(e) && bytes <= ApprovedConfig(e) && (complete ==> bytes == ApprovedConfig(e))
  }

  predicate RecordPart(bytes: Bytes, complete: bool, e: Env) {
    Approved(e) && bytes <= ApprovedRecord(e) && (complete ==> bytes == ApprovedRecord(e))
  }

  /** The event is one the inputs call for, at a time the budget allows. */
  ghost predicate Grounded(v: Event, e: Env) {
    match v
    case ReadInput(_) => true
    case Started(TokenRequest, Login(u, p), at) =>
      Admit(e, at, 45 * SECOND) && PlanGiven(e).Some? && CredentialsGiven(e) == Some(Credentials(u, p))
    case Started(AddKeyRequest, Get(url), at) =>
      && Admit(e, at, 30 * SECOND) && PlanGiven(e).Some? && e.keys.Some?
      && exists token :: TokenGiven(e, token) &&
           AddKeyUrl(PlanGiven(e).value.candidate.commonName, token, e.keys.value.public, e.brackets) == Some(url)
    case Started(_, _, _) => false
    case MarkSet(_, _, m, _) => MarkValue(e) == Some(m)
    case Connect(TokenRequest, _, ip, port, _) =>
      PlanGiven(e).Some? && ip == PlanGiven(e).value.tokenIPv4 && port == 443
    case Connect(AddKeyRequest, _, ip, port, _) =>
      PlanGiven(e).Some? && ip == PlanGiven(e).value.candidate.ipv4 && port == 1337
    case WroteConfig(bytes, complete, at) =>
      Admit(e, at, 15 * SECOND) && ConfigPart(bytes, complete, e)
    case WroteRecord(bytes, complete, at) =>
      Admit(e, at, 10 * SECOND) && RecordPart(bytes, complete, e)
  }

  // ---- Milestones ----------------------------------------------------------------------------

  datatype Milestone =
    | InputRead(input: Input)
    | RequestStarted(request: Request)
    | ConfigTried
    | ConfigDone
    | RecordTried
    | RecordDone

  predicate Is(v: Event, m: Milestone) {
    match m
    case InputRead(i) => v == ReadInput(i)
    case RequestStarted(r) => v.Started? && v.request == r
    case ConfigTried => v.WroteConfig?
    case ConfigDone => v.WroteConfig? && v.complete
    case RecordTried => v.WroteRecord?
    case RecordDone => v.WroteRecord? && v.complete
  }

  ghost predicate Seen(trace: seq<Event>, m: Milestone) { exists i :: 0 <= i < |trace| && Is(trace[i], m) }

  ghost predicate ConnectedFor(trace: seq<Event>, r: Request) {
    exists i :: 0 <= i < |trace| && trace[i].Connect? && trace[i].request == r && trace[i].ok
  }

  ghost predicate Unconnected(trace: seq<Event>) { forall i :: 0 <= i < |trace| ==> !trace[i].Connect? }

  function MilestoneStage(m: Milestone): nat {
    match m
    case InputRead(i) => InputStage(i)
    case RequestStarted(r) => RequestStage(r)
    case ConfigTried => 13
    case ConfigDone => 13
    case RecordTried => 15
    case RecordDone => 15
  }

  /** Whether a run that stops in the milestone's stage has still reached it. */
  predicate Earned(m: Milestone, r: Reason) {
    match m
    case RequestStarted(AddKeyRequest) => r.Because? && r.kind != InternalFailure
    case ConfigDone => false
    case RecordDone => false
    case _ => true
  }

  // ---- Reasons -------------------------------------------------------------------------------

  function TrustStage(d: Option<Detail>): nat {
    match d
    case Some(PublicCaBundle) => 5
    case Some(RegionalCaBundle) => 6
    case Some(_) => 10
    case None => 8
  }

  function ResponseStage(d: Option<Detail>): nat {
    match d
    case None => 0
    case Some(x) =>
      if x.TokenBodyReadFailed? || x.TokenBodyTooLarge? || x.TokenJsonParseFailed? || x.TokenUnexpectedField? ||
         x.TokenMissingField? || x.TokenInvalidToken? then 8
      else if x.AddKeyBodyReadFailed? || x.AddKeyBodyTooLarge? || x.AddKeyJsonParseFailed? ||
        x.AddKeyUnexpectedField? ||
              x.AddKeyMissingField? || x.AddKeyFieldDecodeFailed? then 10
      else 11
  }

  /** The stage a reason points to. */
  function StageOf(kind: Class, detail: Option<Detail>): Option<nat> {
    match kind
    case InvalidInvocation => Some(if detail == None then 0 else 1)
    case InvalidPlan => Some(3)
    case InvalidCredentials => Some(4)
    case InvalidTrust => Some(TrustStage(detail))
    case TokenFailed => Some(8)
    case AddKeyFailed => Some(10)
    case ResponseInvalid => Some(ResponseStage(detail))
    case EndpointReused => Some(11)
    case ConfigWriteFailed => Some(13)
    case DeadlineExceeded => Some(7)
    case ResultWriteFailed => Some(15)
    case InternalFailure => Some(10)
    case Cancelled => None
  }

  // ---- What a stage may do -------------------------------------------------------------------

  ghost predicate Learns(n: nat, d: Data, e: Env, x: Effect) {
    if x.reason == Nothing then Known(n + 1, x.data, e) else x.data == d
  }

  ghost predicate KeepsTime(n: nat, e: Env, t: nat, x: Effect) {
    x.elapsed <= StageTime(n) && (x.reason == Nothing ==> OnTime(n + 1, e, t + x.elapsed))
  }

  ghost predicate Behaves(n: nat, e: Env, x: Effect) {
    && Increasing(x.events)
    && (forall i :: 0 <= i < |x.events| ==> EventStage(x.events[i]) == n && Grounded(x.events[i], e))
    && (MarkValue(e).Some? ==> Marked(x.events, MarkValue(e).value))
  }

  ghost predicate Reports(n: nat, x: Effect) {
    && (forall m :: Seen(x.events, m) <==> n == MilestoneStage(m) && (x.reason == Nothing || Earned(m, x.reason)))
    && (x.reason == Nothing && n == 8 ==> ConnectedFor(x.events, TokenRequest))
    && (x.reason == Nothing && n == 10 ==> ConnectedFor(x.events, AddKeyRequest))
    && (MarkWasTheReason(x.reason) ==> Unconnected(x.events))
  }

  /** A request failed because its socket could not be marked. */
  predicate MarkWasTheReason(r: Reason) {
    r == FailWith(TokenFailed, MarkRefused) || r == FailWith(AddKeyFailed, MarkRefused) }

  ghost predicate Explains(n: nat, x: Effect) {
    x.reason.Because? && x.reason.kind != Cancelled ==> StageOf(x.reason.kind, x.reason.detail) == Some(n)
  }

  ghost predicate StageSound(n: nat, d: Data, e: Env, t: nat, x: Effect) {
    Learns(n, d, e, x) && KeepsTime(n, e, t, x) && Behaves(n, e, x) && Reports(n, x) && Explains(n, x)
  }

  /** A stage without events. */
  lemma Quiet(n: nat, e: Env, x: Effect)
    requires x.events == [] && n in {0, 1, 2, 7, 9, 11, 12, 14}
    ensures Behaves(n, e, x) && Reports(n, x)
  {}

  /** A stage that causes one event, always the same kind. */
  lemma OneEvent(n: nat, e: Env, x: Effect, v: Event)
    requires x.events == [v] && EventStage(v) == n && Grounded(v, e) && !v.MarkSet? && !v.Connect? && !v.Started?
    requires v.WroteConfig? || v.WroteRecord? ==> v.complete == (x.reason == Nothing)
    ensures Behaves(n, e, x) && Reports(n, x)
  {
    hide Grounded, MarkValue;
    forall m ensures Seen([v], m) <==> Is(v, m) {
      if Is(v, m) { assert [v][0] == v; }
    }
    forall m ensures Is(v, m) <==> n == MilestoneStage(m) && (x.reason == Nothing || Earned(m, x.reason)) {}
  }

  lemma GateFacts(n: nat, d: Data, e: Env, t: nat, budget: nat)
    requires Known(n, d, e) && OnTime(n, e, t)
    requires (n, budget) in {(2, 45 * SECOND), (7, 45 * SECOND), (9, 30 * SECOND), (12, 15 * SECOND), (14, 10 * SECOND)}
    ensures StageSound(n, d, e, t, Gate(d, e, t, budget))
  {
    hide Behaves, Reports, Admit, MarkFlag, MarkValue, PlanGiven, CredentialsGiven, TokenGiven, ParseAddKey, Validate,
      ValidPlan, ContextAt;
    GateTime(n, e, t, budget);
    Quiet(n, e, Gate(d, e, t, budget));
  }

  lemma InvocationFacts(n: nat, d: Data, e: Env, t: nat)
    requires n <= 1 && Known(n, d, e) && OnTime(n, e, t)
    ensures StageSound(n, d, e, t, if n == 0 then InvocationStage(d, e) else MarkStage(d, e))
  {
    hide Behaves, Reports, MarkFlag, MarkValue, PlanGiven, CredentialsGiven, TokenGiven, ParseAddKey, Validate,
      ValidPlan;
    Quiet(n, e, if n == 0 then InvocationStage(d, e) else MarkStage(d, e));
  }

  lemma InputFacts(n: nat, d: Data, e: Env, t: nat)
    requires 3 <= n <= 4 && Known(n, d, e) && OnTime(n, e, t)
    ensures StageSound(n, d, e, t, if n == 3 then PlanStage(d, e) else CredentialsStage(d, e))
  {
    hide Behaves, Reports, MarkFlag, MarkValue, CredentialsGiven, TokenGiven, ParseAddKey, Validate, ValidPlan,
      ParsePlan;
    var x := if n == 3 then PlanStage(d, e) else CredentialsStage(d, e);
    OneEvent(n, e, x, x.events[0]);
    if n == 3 && x.reason == Nothing {
      ParsedPlanIsValid(ReadResult(e.planRead, MAX_PLAN).value, e.v6);
    }
  }

  lemma BundleFacts(n: nat, d: Data, e: Env, t: nat)
    requires 5 <= n <= 6 && Known(n, d, e) && OnTime(n, e, t)
    ensures StageSound(n, d, e, t,
      if n == 5 then BundleStage(d, PublicCaInput, e.publicCaRead, e.publicCaOk, PublicCaBundle)
      else BundleStage(d, RegionalCaInput, e.regionalCaRead, e.regionalCaOk, RegionalCaBundle))
  {
    hide Behaves, Reports, MarkFlag, MarkValue, PlanGiven, CredentialsGiven, TokenGiven, ParseAddKey, Validate,
      ValidPlan;
    var x := if n == 5 then BundleStage(d, PublicCaInput, e.publicCaRead, e.publicCaOk, PublicCaBundle)
             else BundleStage(d, RegionalCaInput, e.regionalCaRead, e.regionalCaOk, RegionalCaBundle);
    OneEvent(n, e, x, x.events[0]);
  }

  lemma ValidationFacts(d: Data, e: Env, t: nat)
    requires Known(11, d, e) && OnTime(11, e, t)
    ensures StageSound(11, d, e, t, ValidationStage(d, e))
  {
    hide Behaves, Reports, MarkFlag, MarkValue, PlanGiven, CredentialsGiven, TokenGiven, ParseAddKey, ValidPlan;
    hide ValidIPv4, KeyText, ValidPeerIP;
    Quiet(11, e, ValidationStage(d, e));
  }

  // ---- Requests ------------------------------------------------------------------------------

  /** The events of a request: it is started, then at most one socket is marked and connected. */
  lemma DialFacts(v: Event, dials: seq<DialAttempt>, t: Target, e: Env)
    requires v.Started? && v.request == t.request && Grounded(v, e) && t.mark == MarkValue(e)
    requires PlanGiven(e).Some?
    requires t.ip == if t.request == TokenRequest then PlanGiven(e).value.tokenIPv4
             else PlanGiven(e).value.candidate.ipv4
    requires t.port == if t.request == TokenRequest then 443 else 1337
    ensures var events := [v] + DialEvents(dials, t, 0);
      && Increasing(events)
      && (forall i :: 0 <= i < |events| ==> EventStage(events[i]) == RequestStage(t.request) && Grounded(events[i], e))
      && (t.mark.Some? ==> Marked(events, t.mark.value))
      && (forall m :: Seen(events, m) <==> m == RequestStarted(t.request))
      && (Connected in DialResults(dials, t, 0) ==> ConnectedFor(events, t.request))
      && (MarkRefusedError in DialResults(dials, t, 0) ==> Unconnected(events))
  {
    hide DialEvents, DialResults, Admit, TokenGiven, PlanGiven, CredentialsGiven, MarkValue, ConfigPart, RecordPart,
      AddKeyUrl;
    ClientIsTame(dials, t);
    var tail := DialEvents(dials, t, 0);
    var events := [v] + tail;
    if |tail| >= 1 { assert events[1] == tail[0]; }
    if |tail| == 2 { assert events[2] == tail[1]; }
    StartedOnly(v, tail);
  }

  lemma StartedOnly(v: Event, tail: seq<Event>)
    requires v.Started? && forall i :: 0 <= i < |tail| ==> tail[i].MarkSet? || tail[i].Connect?
    ensures forall m :: Seen([v] + tail, m) <==> m == RequestStarted(v.request)
  {
    var events := [v] + tail;
    forall m ensures Seen(events, m) <==> m == RequestStarted(v.request) {
      assert Is(events[0], m) <==> m == RequestStarted(v.request);
      assert forall i :: 0 < i < |events| ==> events[i] == tail[i - 1];
    }
  }

  /** What the outcome of a request says about its exchange. */
  lemma OutcomeFacts(x: Exchange, dials: seq<DialResult>, name: Bytes, allow: bool, writable: bool, limit: nat,
                     v6: Ipv6Parser)
    ensures var o := OutcomeOf(x, dials, name, allow, writable, limit, v6);
      && Elapsed(x, o) <= REQUEST_TIMEOUT
      && (o.Body? ==> BodyIs(x, o.raw) && |o.raw| <= limit && Connected in dials)
      && (o.TrustRefused? ==> o.detail.MissingCertificate? || o.detail.CaChain? || o.detail.EndpointIdentity?)
      && (o.MarkWasRefused? ==> MarkRefusedError in dials)
  {
    hide ValidCommonName;
  }

  lemma TokenReasons(o: Outcome, e: Env, end: nat)
    requires e.start <= end < Deadline(e)
    ensures Explains(8, Effect([], 0, NO_DATA, TokenReason(o, e, end)))
    ensures TokenReason(o, e, end) == Nothing <==> o.Body? && ParseToken(o.raw).Good?
    ensures MarkWasTheReason(TokenReason(o, e, end)) ==> o.MarkWasRefused?
  {
    hide ParseToken;
    if o.Body? { TokenDetails(o.raw); }
  }

  lemma TokenDetails(raw: Bytes)
    ensures match ParseToken(raw) case Good(_) => true case Bad(d) => ResponseStage(Some(d)) == 8
  {
    hide StrictObject, AllFields, UnmarshalString, VisibleAscii;
  }

  lemma TokenBytes(e: Env, token: Bytes)
    requires TokenGiven(e, token)
    ensures SingleBytes(token)
  {
    hide StrictObject, AllFields, UnmarshalString;
  }

  lemma AddKeyReasons(o: Outcome, e: Env, end: nat)
    requires e.start <= end < Deadline(e)
    requires o.TrustRefused? ==> o.detail.MissingCertificate? || o.detail.CaChain? || o.detail.EndpointIdentity?
    ensures Explains(10, Effect([], 0, NO_DATA, AddKeyReason(o, e, end)))
    ensures AddKeyReason(o, e, end).Because? ==> AddKeyReason(o, e, end).kind != InternalFailure
    ensures AddKeyReason(o, e, end) == Nothing <==> o.Body? && ParseAddKey(o.raw).Good?
    ensures MarkWasTheReason(AddKeyReason(o, e, end)) ==> o.MarkWasRefused?
  {
    hide ParseAddKey;
    if o.Body? { AddKeyDetails(o.raw); }
  }

  lemma AddKeyDetails(raw: Bytes)
    ensures match ParseAddKey(raw) case Good(_) => true case Bad(d) => ResponseStage(Some(d)) == 10
  {
    hide StrictObject, AllFields, UnmarshalString, UnmarshalInt, UnmarshalStrings;
  }

  lemma TokenFacts(d: Data, e: Env, t: nat)
    requires Known(8, d, e) && OnTime(8, e, t) && Admit(e, t, 45 * SECOND)
    ensures StageSound(8, d, e, t, TokenStage(d, e, t))
  {
    hide OutcomeOf, DialEvents, DialResults, ParseToken, ParseAddKey, TokenReason, Grounded, Increasing, Seen, Marked;
    hide MarkFlag, MarkValue, PlanGiven, CredentialsGiven, Validate, ValidPlan, ConnectedFor, Unconnected, ContextAt,
      Admit, Elapsed, StageOf;
    var c := d.credentials.value;
    var v := Started(TokenRequest, Login(c.username, c.password), t);
    var target := TokenTarget(d, e);
    var x := TokenStage(d, e, t);
    var o := TokenOutcome(d, e);
    assert Grounded(v, e) by { TokenGrounded(d, e, t); }
    DialFacts(v, e.tokenExchange.dials, target, e);
    OutcomeFacts(e.tokenExchange, DialResults(e.tokenExchange.dials, target, 0), TOKEN_HOST, false, true,
                 MAX_TOKEN_BODY, e.v6);
    TokenReasons(o, e, t + x.elapsed);
  }

  lemma TokenGrounded(d: Data, e: Env, t: nat)
    requires Known(8, d, e) && Admit(e, t, 45 * SECOND)
    ensures Grounded(Started(TokenRequest, Login(d.credentials.value.username, d.credentials.value.password), t), e)
  {
    hide MarkFlag, MarkValue, PlanGiven, CredentialsGiven, Validate, ValidPlan, Admit, TokenGiven, ParseAddKey;
  }

  lemma AddKeyFacts(d: Data, e: Env, t: nat)
    requires Known(10, d, e) && OnTime(10, e, t) && Admit(e, t, 30 * SECOND)
    ensures StageSound(10, d, e, t, AddKeyStage(d, e, t))
  {
    hide OutcomeOf, DialEvents, DialResults, ParseToken, ParseAddKey, AddKeyReason, Grounded, Increasing, Seen, Marked;
    hide MarkFlag, MarkValue, PlanGiven, CredentialsGiven, Validate, ValidPlan, ConnectedFor, Unconnected, ContextAt,
      Admit, Elapsed, StageOf, TokenGiven, AddKeyUrl, Writable;
    var x := AddKeyStage(d, e, t);
    if e.keys.Some? && AddKeyUrlOf(d, e).Some? {
      var url := AddKeyUrlOf(d, e).value;
      var v := Started(AddKeyRequest, Get(url), t);
      assert Grounded(v, e) by { AddKeyGrounded(d, e, t); }
      if url.host == "" {
        Hostless(d, e, t, v);
      } else {
        var target := AddKeyTarget(d, e);
        var o := AddKeyOutcome(d, e, url.host);
        DialFacts(v, e.addKeyExchange.dials, target, e);
        OutcomeFacts(e.addKeyExchange, DialResults(e.addKeyExchange.dials, target, 0),
          d.plan.value.candidate.commonName, true, Writable(url.host, e), MAX_BODY, e.v6);
        AddKeyReasons(o, e, t + x.elapsed);
      }
    } else {
      Unstarted(d, e, x);
    }
  }

  lemma AddKeyGrounded(d: Data, e: Env, t: nat)
    requires Known(10, d, e) && Admit(e, t, 30 * SECOND) && e.keys.Some? && AddKeyUrlOf(d, e).Some?
    ensures Grounded(Started(AddKeyRequest, Get(AddKeyUrlOf(d, e).value), t), e)
  {
    hide MarkFlag, MarkValue, PlanGiven, CredentialsGiven, Validate, ValidPlan, Admit, TokenGiven, ParseAddKey,
      AddKeyUrl;
  }

  /** The add-key request whose URL did not parse. */
  lemma Unstarted(d: Data, e: Env, x: Effect)
    requires x == Stop(d, Fail(InternalFailure))
    ensures Behaves(10, e, x) && Reports(10, x) && Explains(10, x)
  {}

  /** The add-key request whose URL has no host. */
  lemma Hostless(d: Data, e: Env, t: nat, v: Event)
    requires OnTime(10, e, t) && v.Started? && v.request == AddKeyRequest && Grounded(v, e)
    ensures AddKeyReason(NetworkError, e, t) != Nothing
    ensures var x := Effect([v], 0, d, AddKeyReason(NetworkError, e, t));
      Behaves(10, e, x) && Reports(10, x) && Explains(10, x)
  {
    hide Grounded, MarkValue;
    StartedOnly(v, []);
    assert [v] + [] == [v];
    AddKeyReasons(NetworkError, e, t);
  }

  // ---- Writes --------------------------------------------------------------------------------

  lemma WrittenPrefix(w: WriteScript, body: Bytes)
    ensures WrittenBytes(w, body) <= body && (WriteDone(w, body) ==> WrittenBytes(w, body) == body)
  {}

  lemma KnownApproved(n: nat, d: Data, e: Env)
    requires n >= 12 && Known(n, d, e)
    ensures Approved(e) && ApprovedConfig(e) == ConfigText(d, e) && ApprovedRecord(e) == RecordText(d, e) + "\n"
  {
    hide MarkFlag, MarkValue, PlanGiven, CredentialsGiven, Validate, ValidPlan, ParseAddKey, RenderConfig,
      SuccessRecord;
  }

  /** The size test on the config never fires. */
  lemma ConfigAlwaysFits(n: nat, d: Data, e: Env)
    requires n >= 12 && Known(n, d, e)
    ensures |ConfigText(d, e)| <= MAX_CONFIG
  {
    hide MarkFlag, MarkValue, PlanGiven, CredentialsGiven, Validate, ValidPlan, ParseAddKey, RenderConfig;
    ConfigFits(d.body.value, d.answer.value, d.plan.value.portForwarding, e.keys.value.private, e.keys.value.public,
               e.v6);
  }

  /** Nor do the two on the success record. */
  lemma RecordAlwaysFits(n: nat, d: Data, e: Env)
    requires n >= 12 && Known(n, d, e)
    ensures |RecordText(d, e)| + 1 <= MAX_RESULT
  {
    hide MarkFlag, MarkValue, PlanGiven, CredentialsGiven, Validate, ValidPlan, ParseAddKey, SuccessRecord;
    ValidatedInput(d.plan.value, d.answer.value, e.keys.value.public, e.v6);
    SuccessRecordFits(d.plan.value, d.answer.value, e.keys.value.public, e.v6);
  }

  lemma WriteFacts(n: nat, d: Data, e: Env, t: nat)
    requires (n == 13 && Admit(e, t, 15 * SECOND)) || (n == 15 && Admit(e, t, 10 * SECOND))
    requires Known(n, d, e) && OnTime(n, e, t)
    ensures StageSound(n, d, e, t, if n == 13 then ConfigStage(d, e, t) else ResultStage(d, e, t))
  {
    hide Behaves, Reports, MarkFlag, MarkValue, PlanGiven, CredentialsGiven, TokenGiven, ParseAddKey, Validate,
      ValidPlan;
    hide ConfigText, RecordText, WrittenBytes, WriteDone, Admit, Approved, ApprovedConfig, ApprovedRecord;
    KnownApproved(n, d, e);
    ConfigAlwaysFits(n, d, e);
    RecordAlwaysFits(n, d, e);
    var x := if n == 13 then ConfigStage(d, e, t) else ResultStage(d, e, t);
    WrittenPrefix(e.configWrite, ConfigText(d, e));
    WrittenPrefix(e.resultWrite, RecordText(d, e) + "\n");
    OneEvent(n, e, x, x.events[0]);
  }

  // ---- Every stage ---------------------------------------------------------------------------

  /** The instant a stage's work begins was admitted by the gate just before it. */
  predicate Gated(n: nat, e: Env, t: nat) {
    && (n == 8 ==> Admit(e, t, 45 * SECOND))
    && (n == 10 ==> Admit(e, t, 30 * SECOND))
    && (n == 13 ==> Admit(e, t, 15 * SECOND))
    && (n == 15 ==> Admit(e, t, 10 * SECOND))
  }

  lemma StageFacts(n: nat, d: Data, e: Env, t: nat)
    requires n < LAST && Known(n, d, e) && OnTime(n, e, t) && Gated(n, e, t)
    ensures StageSound(n, d, e, t, StageEffect(n, d, e, t))
    ensures var x := StageEffect(n, d, e, t); x.reason == Nothing ==> Gated(n + 1, e, t + x.elapsed)
  {
    hide StageSound, Known, InvocationStage, MarkStage, PlanStage, CredentialsStage, BundleStage, TokenStage,
      AddKeyStage, ValidationStage, ConfigStage, ResultStage, Admit;
    if n <= 1 { InvocationFacts(n, d, e, t); }
    else if n == 2 { GateFacts(n, d, e, t, 45 * SECOND); }
    else if n <= 4 { InputFacts(n, d, e, t); }
    else if n <= 6 { BundleFacts(n, d, e, t); }
    else if n == 7 { GateFacts(n, d, e, t, 45 * SECOND); }
    else if n == 8 { TokenFacts(d, e, t); }
    else if n == 9 { GateFacts(n, d, e, t, 30 * SECOND); }
    else if n == 10 { AddKeyFacts(d, e, t); }
    else if n == 11 { ValidationFacts(d, e, t); }
    else if n == 12 { GateFacts(n, d, e, t, 15 * SECOND); }
    else if n == 14 { GateFacts(n, d, e, t, 10 * SECOND); }
    else { WriteFacts(n, d, e, t); }
  }
}
