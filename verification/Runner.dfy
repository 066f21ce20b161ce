/**
 The runner as written: fields updated step by step, one early return after another. Its
 outcome, its clock and its effects on the world are proved to be those of the step machine.
 */
module Runner {
  import opened Text
  import opened Clock
  import opened Ipv4
  import opened SocketMark
  import opened Failure
  import opened Plan
  import opened CredentialInput
  import opened AddKey
  import opened Records
  import opened Transport
  import opened Url
  import opened Argv
  import opened Machine
  import opened RunSafety

  /** The machine's state, one step on. */
  lemma Advance(s: State, e: Env) returns (r: State)
    requires s.stopped == Nothing && s.stage < LAST && Sound(s, e)
    ensures Running(s, e) && r == Step(s, e) && Sound(r, e) && RunFrom(r, e) == RunFrom(s, e)
    ensures r.stopped != Nothing ==> RunFrom(s, e) == r
  {
    hide StageEffect, Known, TimeSound, TraceSound, ProgressSound, Located;
    r := Step(s, e);
    StepSound(s, e);
  }

  class ConstrainedRunner {
    const e: Env
    var now: nat
    ghost var trace: seq<Event>

    constructor (e: Env)
      ensures this.e == e && now == e.start && trace == []
    {
      this.e, now, trace := e, e.start, [];
    }

    /** The runner stands where the machine does. */
    ghost predicate At(s: State, n: nat)
      reads this
    {
      s.stage == n && s.stopped == Nothing && s.now == now && s.trace == trace && Sound(s, e) && RunFrom(s, e) == Run(e)
    }

    ghost predicate Ended(failure: Reason)
      reads this
    {
      var r := Run(e);
      failure == r.stopped && now == r.now && trace == r.trace
    }

    method CanAdmit(budget: nat) returns (ok: bool)
      ensures ok == Admit(e, now, budget)
    {
      ok := Deadline(e) - now >= budget && ContextAt(e, now) == Alive;
    }

    method ReadLimited(input: Input, r: ReadScript, limit: nat) returns (raw: Option<Bytes>)
      modifies this
      ensures raw == ReadResult(r, limit) && now == old(now) + FileTime(r.elapsed) &&
              trace == old(trace) + [ReadInput(input)]
    {
      trace := trace + [ReadInput(input)];
      if r.elapsed > FILE_TIMEOUT {
        now := now + FILE_TIMEOUT;
        return None;
      }
      now := now + r.elapsed;
      if r.data == None || |r.data.value| > limit { return None; }
      return r.data;
    }

    /** How many bytes went through, and whether the write is reported to have succeeded. */
    method WriteLimited(w: WriteScript, body: Bytes, limit: nat) returns (n: nat, ok: bool)
      requires |body| <= limit
      modifies this`now
      ensures n <= |body| && body[..n] == WrittenBytes(w, body) && ok == WriteDone(w, body)
      ensures now == old(now) + FileTime(w.elapsed)
    {
      n := Least(w.accepted, |body|);
      if w.elapsed > FILE_TIMEOUT {
        now := now + FILE_TIMEOUT;
        return n, false;
      }
      now := now + w.elapsed;
      if !w.ok { return n, false; }
      ok := n == |body|;
      assert ok ==> body[..n] == body;
    }

    /** client.Do: the transport dials as it likes, and then there is an answer or an error. */
    method Do(x: Exchange, t: Target, serverName: Bytes, allowCommonName: bool, writable: bool) returns (r: Response)
      modifies this
      ensures r == Respond(x, DialResults(x.dials, t, 0), serverName, allowCommonName, writable, e.v6)
      ensures trace == old(trace) + DialEvents(x.dials, t, 0) && now == old(now) + Least(x.headerTime, REQUEST_TIMEOUT)
    {
      hide DialEvents, DialResults, VerifyPeer;
      var client := new Client(t);
      var results := client.DialAll(x.dials);
      trace := trace + client.events;
      now := now + Least(x.headerTime, REQUEST_TIMEOUT);
      r := Respond(x, results, serverName, allowCommonName, writable, e.v6);
    }

    /** Reading the body takes the rest of the time, up to the client's timeout. */
    method ReadBody(x: Exchange)
      requires x.headerTime <= REQUEST_TIMEOUT
      modifies this`now
      ensures now == old(now) + ExchangeTime(x) - x.headerTime
    {
      now := now + Least(x.bodyTime, REQUEST_TIMEOUT - x.headerTime);
    }

    /** constrainedTokenRequest. */
    method RequestToken(plan: Plan, c: Credentials, mark: Option<nat>, ghost d: Data)
      returns (token: Bytes, failure: Reason)
      requires d.plan == Some(plan) && d.credentials == Some(c) && mark == MarkValue(e)
      modifies this
      ensures var x := TokenStage(d, e, old(now));
        && failure == x.reason && now == old(now) + x.elapsed && trace == old(trace) + x.events
        && (failure == Nothing ==> x.data == d.(token := Some(token)))
    {
      hide MarkValue, DialEvents, DialResults, ParseToken, Respond, ContextAt;
      token := "";
      var x, t := e.tokenExchange, Target(TokenRequest, plan.tokenIPv4, 443, mark);
      trace := trace + [Started(TokenRequest, Login(c.username, c.password), now)];
      var r := Do(x, t, TOKEN_HOST, false, true);
      match r
      case Untrusted(_) => failure := Fail(InvalidTrust);
      case Unmarked => failure := FailWith(TokenFailed, MarkRefused);
      case Lost => failure := Fail(NetworkClass(e, now, TokenFailed));
      case Got(status, body) =>
        GotInTime(x, DialResults(x.dials, t, 0), TOKEN_HOST, false, true, e.v6);
        if status != 200 { return token, FailWith(TokenFailed, TokenHttpStatus); }
        ReadBody(x);
        if body == None { return token, FailWith(ResponseInvalid, TokenBodyReadFailed); }
        if |body.value| > MAX_TOKEN_BODY { return token, FailWith(ResponseInvalid, TokenBodyTooLarge); }
        match ParseToken(body.value) {
          case Bad(detail) => failure := FailWith(ResponseInvalid, detail);
          case Good(t) => token, failure := t, Nothing;
        }
    }

    /** constrainedAddKeyRequest. */
    method RequestKey(plan: Plan, token: Bytes, publicKey: Bytes, mark: Option<nat>, ghost d: Data)
      returns (answer: Option<AddKeyResult>, failure: Reason)
      requires d.plan == Some(plan) && d.token == Some(token) && mark == MarkValue(e)
      requires e.keys.Some? && publicKey == e.keys.value.public
      modifies this
      ensures var x := AddKeyStage(d, e, old(now));
        && failure == x.reason && now == old(now) + x.elapsed && trace == old(trace) + x.events
        && (failure == Nothing ==> answer.Some? && x.data.answer == answer && x.data.plan == d.plan)
    {
      hide MarkValue, DialEvents, DialResults, ParseAddKey, Respond, ContextAt, AddKeyUrl, Writable;
      answer := None;
      var url := AddKeyUrl(plan.candidate.commonName, token, publicKey, e.brackets);
      if url == None { return answer, Fail(InternalFailure); }
      var x, t := e.addKeyExchange, Target(AddKeyRequest, plan.candidate.ipv4, 1337, mark);
      trace := trace + [Started(AddKeyRequest, Get(url.value), now)];
      if url.value.host == "" { return answer, Fail(NetworkClass(e, now, AddKeyFailed)); }
      var writable := Writable(url.value.host, e);
      var r := Do(x, t, plan.candidate.commonName, true, writable);
      match r
      case Untrusted(detail) => failure := FailWith(InvalidTrust, detail);
      case Unmarked => failure := FailWith(AddKeyFailed, MarkRefused);
      case Lost => failure := Fail(NetworkClass(e, now, AddKeyFailed));
      case Got(status, body) =>
        GotInTime(x, DialResults(x.dials, t, 0), plan.candidate.commonName, true, writable, e.v6);
        if status != 200 { return answer, FailWith(AddKeyFailed, AddKeyHttpStatus); }
        ReadBody(x);
        if body == None { return answer, FailWith(ResponseInvalid, AddKeyBodyReadFailed); }
        if |body.value| > MAX_BODY { return answer, FailWith(ResponseInvalid, AddKeyBodyTooLarge); }
        match ParseAddKey(body.value) {
          case Bad(detail) => failure := FailWith(ResponseInvalid, detail);
          case Good(a) => answer, failure := Some(a), Nothing;
        }
    }

    // ---- The stages, each at its place in the machine's run ----

    method CheckInvocation(ghost s: State) returns (failure: Reason, ghost r: State)
      requires At(s, 0)
      ensures failure == Nothing ==> At(r, 1) && r.data == s.data
      ensures failure != Nothing ==> Ended(failure)
    {
      hide Known, Sound, Repeats, RunFrom, Run;
      failure := Nothing;
      r := Advance(s, e);
      var repeated := ReadRepeats(e.args);
      if repeated { failure := Fail(InvalidInvocation); }
    }

    /** constrainedSocketControl. */
    method ReadMark(ghost s: State) returns (mark: Option<nat>, failure: Reason, ghost r: State)
      requires At(s, 1)
      ensures failure == Nothing ==> At(r, 2) && r.data == s.data && mark == MarkValue(e)
      ensures failure != Nothing ==> Ended(failure)
    {
      hide Known, Sound, ParseCommandLine, ParseSocketMark, RunFrom, Run;
      mark, failure := None, Nothing;
      r := Advance(s, e);
      var flag := MarkFlag(e);
      if flag == None { return; }
      mark := ParseSocketMark(flag.value);
      if mark == None { return mark, FailWith(InvalidInvocation, MarkInvalid), r; }
      if !e.markSupported { return mark, FailWith(InvalidInvocation, MarkUnsupported), r; }
    }

    method PassGate(n: nat, budget: nat, ghost s: State) returns (failure: Reason, ghost r: State)
      requires (n, budget) in {(2, 45 * SECOND), (7, 45 * SECOND), (9, 30 * SECOND), (12, 15 * SECOND),
                               (14, 10 * SECOND)}
      requires At(s, n)
      ensures failure == Nothing ==> At(r, n + 1) && r.data == s.data
      ensures failure != Nothing ==> Ended(failure)
    {
      hide Known, Sound, Admit, ContextClass, RunFrom, Run;
      failure := Nothing;
      r := Advance(s, e);
      var ok := CanAdmit(budget);
      if !ok { failure := Fail(ContextClass(e, now)); }
    }

    method ReadPlan(ghost s: State) returns (plan: Option<Plan>, failure: Reason, ghost r: State)
      requires At(s, 3)
      modifies this
      ensures failure == Nothing ==> At(r, 4) && plan.Some? && r.data == s.data.(plan := plan)
      ensures failure != Nothing ==> Ended(failure)
    {
      hide Known, Sound, ReadResult, FileTime, ParsePlan, RunFrom, Run;
      plan := None;
      r := Advance(s, e);
      var raw := ReadLimited(PlanInput, e.planRead, MAX_PLAN);
      if raw == None { return plan, Fail(InvalidPlan), r; }
      plan := ParsePlan(raw.value, e.v6);
      if plan == None { return plan, Fail(InvalidPlan), r; }
      failure := Nothing;
    }

    method ReadLogin(ghost s: State) returns (credentials: Option<Credentials>, failure: Reason, ghost r: State)
      requires At(s, 4)
      modifies this
      ensures failure == Nothing ==> At(r, 5) && credentials.Some? && r.data == s.data.(credentials := credentials)
      ensures failure != Nothing ==> Ended(failure)
    {
      hide Known, Sound, ReadResult, FileTime, ParseCredentials, ValidCredential, RunFrom, Run;
      credentials := None;
      r := Advance(s, e);
      var raw := ReadLimited(CredentialsInput, e.credentialsRead, MAX_CREDENTIALS);
      if raw == None { return credentials, Fail(InvalidCredentials), r; }
      credentials := ReadCredentials(raw.value);
      if credentials == None || !ValidCredential(credentials.value.username) ||
         !ValidCredential(credentials.value.password) {
        return credentials, Fail(InvalidCredentials), r;
      }
      failure := Nothing;
    }

    method ReadBundle(n: nat, input: Input, script: ReadScript, verdict: bool, detail: Detail, ghost s: State)
      returns (failure: Reason, ghost r: State)
      requires (n, input, script, verdict, detail) in {
        (5, PublicCaInput, e.publicCaRead, e.publicCaOk, PublicCaBundle),
        (6, RegionalCaInput, e.regionalCaRead, e.regionalCaOk, RegionalCaBundle)}
      requires At(s, n)
      modifies this
      ensures failure == Nothing ==> At(r, n + 1) && r.data == s.data
      ensures failure != Nothing ==> Ended(failure)
    {
      hide Known, Sound, ReadResult, FileTime, RunFrom, Run;
      failure := Nothing;
      r := Advance(s, e);
      var raw := ReadLimited(input, script, MAX_CA_BUNDLE);
      if raw == None || raw.value == "" || !verdict { failure := FailWith(InvalidTrust, detail); }
    }

    method GetToken(plan: Plan, c: Credentials, mark: Option<nat>, ghost s: State)
      returns (token: Bytes, failure: Reason, ghost r: State)
      requires At(s, 8) && s.data.plan == Some(plan) && s.data.credentials == Some(c) && mark == MarkValue(e)
      modifies this
      ensures failure == Nothing ==> At(r, 9) && r.data == s.data.(token := Some(token))
      ensures failure != Nothing ==> Ended(failure)
    {
      hide Known, Sound, TokenStage, MarkValue, RunFrom, Run;
      r := Advance(s, e);
      token, failure := RequestToken(plan, c, mark, s.data);
    }

    /** Key generation, and the add-key request with the public key. */
    method GetAnswer(plan: Plan, token: Bytes, mark: Option<nat>, ghost s: State)
      returns (keys: Option<KeyPair>, answer: Option<AddKeyResult>, failure: Reason, ghost r: State)
      requires At(s, 10) && s.data.plan == Some(plan) && s.data.token == Some(token) && mark == MarkValue(e)
      modifies this
      ensures failure == Nothing ==> At(r, 11) && keys.Some? && keys == e.keys && answer.Some?
      ensures failure == Nothing ==> r.data.plan == s.data.plan && r.data.answer == answer
      ensures failure != Nothing ==> Ended(failure)
    {
      hide Known, Sound, AddKeyStage, MarkValue, RunFrom, Run;
      r := Advance(s, e);
      keys, answer := e.keys, None;
      NoKeys(s.data, e, now);
      if keys == None { return keys, answer, Fail(InternalFailure), r; }
      answer, failure := RequestKey(plan, token, keys.value.public, mark, s.data);
    }

    method CheckAnswer(plan: Plan, answer: AddKeyResult, publicKey: Bytes, ghost s: State)
      returns (failure: Reason, ghost r: State)
      requires At(s, 11) && s.data.plan == Some(plan) && s.data.answer == Some(answer)
      requires e.keys.Some? && publicKey == e.keys.value.public
      ensures failure == Nothing ==> At(r, 12) && r.data == s.data
      ensures failure != Nothing ==> Ended(failure)
    {
      hide Known, Sound, Validate, Reused, RunFrom, Run;
      failure := Nothing;
      r := Advance(s, e);
      var complaint := Validate(plan.portForwarding, answer, publicKey, e.v6);
      if complaint.Some? { return FailWith(ResponseInvalid, complaint.value), r; }
      if Reused(plan, answer) { return Fail(EndpointReused), r; }
    }

    method WriteConfig(privateKey: Bytes, answer: AddKeyResult, ghost s: State)
      returns (failure: Reason, ghost r: State)
      requires At(s, 13) && Known(13, s.data, e) && s.data.answer == Some(answer) && privateKey == e.keys.value.private
      requires |answer.dns| >= 1 && answer.serverPort >= 0
      modifies this
      ensures failure == Nothing ==> At(r, 14) && r.data == s.data
      ensures failure != Nothing ==> Ended(failure)
    {
      hide Sound, Known, RenderConfig, WrittenBytes, WriteDone, FileTime, RunFrom, Run;
      failure := Nothing;
      r := Advance(s, e);
      var config := RenderConfig(privateKey, answer, e.v6);
      StillKnown(13, 12, s.data, e);
      assert config == ConfigText(s.data, e);
      if |config| > MAX_CONFIG { return Fail(InternalFailure), r; }
      var at := now;
      var n, ok := WriteLimited(e.configWrite, config, MAX_CONFIG);
      trace := trace + [WroteConfig(config[..n], ok, at)];
      if !ok { failure := Fail(ConfigWriteFailed); }
    }

    method WriteResult(plan: Plan, answer: AddKeyResult, ghost s: State) returns (failure: Reason, ghost r: State)
      requires At(s, 15) && Known(15, s.data, e) && s.data.plan == Some(plan) && s.data.answer == Some(answer)
      requires RecordInput(plan, answer)
      modifies this
      ensures Ended(failure)
    {
      hide Sound, Known, SuccessRecord, WrittenBytes, WriteDone, FileTime, RunFrom;
      failure := Nothing;
      r := Advance(s, e);
      if r.stage == LAST { Over(r, e); }
      var record := SuccessRecord(plan, answer);
      StillKnown(15, 12, s.data, e);
      assert record == RecordText(s.data, e);
      if |record| > MAX_RESULT { return Fail(InternalFailure), r; }
      if |record + "\n"| > MAX_RESULT { return Fail(ResultWriteFailed), r; }
      var at := now;
      var n, ok := WriteLimited(e.resultWrite, record + "\n", MAX_RESULT);
      trace := trace + [WroteRecord((record + "\n")[..n], ok, at)];
      if !ok { failure := Fail(ResultWriteFailed); }
    }

    /** execute: the stages in order, with an early return from each. */
    method Execute() returns (failure: Reason)
      requires now == e.start && trace == []
      modifies this
      ensures Ended(failure)
    {
      hide Known, Sound, RunFrom, Run, MarkValue, Ended;
      ghost var s := Initial(e);
      InitialSound(e);
      assert At(s, 0) by { Begun(e); }
      failure, s := CheckInvocation(s);
      if failure != Nothing { return; }
      var mark;
      mark, failure, s := ReadMark(s);
      if failure != Nothing { return; }
      failure, s := PassGate(2, 45 * SECOND, s);
      if failure != Nothing { return; }

      var plan, credentials;
      plan, failure, s := ReadPlan(s);
      if failure != Nothing { return; }
      credentials, failure, s := ReadLogin(s);
      if failure != Nothing { return; }
      failure, s := ReadBundle(5, PublicCaInput, e.publicCaRead, e.publicCaOk, PublicCaBundle, s);
      if failure != Nothing { return; }
      failure, s := ReadBundle(6, RegionalCaInput, e.regionalCaRead, e.regionalCaOk, RegionalCaBundle, s);
      if failure != Nothing { return; }

      failure, s := PassGate(7, 45 * SECOND, s);
      if failure != Nothing { return; }
      var token;
      token, failure, s := GetToken(plan.value, credentials.value, mark, s);
      if failure != Nothing { return; }

      failure, s := PassGate(9, 30 * SECOND, s);
      if failure != Nothing { return; }
      var keys, answer;
      keys, answer, failure, s := GetAnswer(plan.value, token, mark, s);
      if failure != Nothing { return; }
      failure, s := CheckAnswer(plan.value, answer.value, keys.value.public, s);
      if failure != Nothing { return; }

      failure, s := PassGate(12, 15 * SECOND, s);
      if failure != Nothing { return; }
      Validated(s, e);
      failure, s := WriteConfig(keys.value.private, answer.value, s);
      if failure != Nothing { return; }

      failure, s := PassGate(14, 10 * SECOND, s);
      if failure != Nothing { return; }
      Validated(s, e);
      failure, s := WriteResult(plan.value, answer.value, s);
    }

    /** writeFailure. It writes to the result descriptor, whatever went there before. */
    method WriteFailure(kind: Class, detail: Option<Detail>) returns (exit: Class)
      modifies this
      ensures now == old(now) + FileTime(e.failureWrite.elapsed)
      ensures var record := FailureRecord(kind, detail) + "\n";
        && trace == old(trace)
             + [WroteRecord(WrittenBytes(e.failureWrite, record), WriteDone(e.failureWrite, record), old(now))]
        && exit == if WriteDone(e.failureWrite, record) then kind else ResultWriteFailed
    {
      hide FailureRecord, WrittenBytes, WriteDone, FileTime;
      FailureRecordFits(kind, detail);
      var record := FailureRecord(kind, detail) + "\n";
      var at := now;
      var n, ok := WriteLimited(e.failureWrite, record, MAX_RESULT);
      trace := trace + [WroteRecord(record[..n], ok, at)];
      exit := if ok then kind else ResultWriteFailed;
    }

    /** constrainedAction: the run, and a failure record if it failed; all of it within the deadline. */
    method Act() returns (exit: Option<Class>)
      requires now == e.start && trace == []
      modifies this
      ensures exit == None <==> Run(e).stopped == Nothing
      ensures exit == None ==> trace == Run(e).trace
      ensures exit.Some? ==>
        var reason := Run(e).stopped;
        var record := FailureRecord(reason.kind, reason.detail) + "\n";
        && trace == Run(e).trace
             + [WroteRecord(WrittenBytes(e.failureWrite, record), WriteDone(e.failureWrite, record), Run(e).now)]
        && exit.value == if WriteDone(e.failureWrite, record) then reason.kind else ResultWriteFailed
      ensures now <= Deadline(e)
    {
      hide FailureRecord, WrittenBytes, WriteDone, FileTime, Run;
      var failure := Execute();
      RunsOnTime(e);
      if failure == Nothing { return None; }
      var kind := WriteFailure(failure.kind, failure.detail);
      exit := Some(kind);
    }
  }

  lemma GotInTime(x: Exchange, dials: seq<DialResult>, serverName: Bytes, allowCommonName: bool, writable: bool,
                  v6: Ipv6Parser)
    requires Respond(x, dials, serverName, allowCommonName, writable, v6).Got?
    ensures x.headerTime <= REQUEST_TIMEOUT
  {
    hide VerifyPeer;
  }

  lemma Begun(e: Env)
    ensures RunFrom(Initial(e), e) == Run(e)
  {}

  lemma Over(s: State, e: Env)
    requires s.stage == LAST
    ensures RunFrom(s, e) == s
  {}

  lemma NoKeys(d: Data, e: Env, t: nat)
    requires d.plan.Some? && d.token.Some?
    ensures e.keys == None ==> AddKeyStage(d, e, t) == Stop(d, Fail(InternalFailure))
  {
    hide AddKeyOutcome, AddKeyReason, Elapsed, DialEvents, ParseAddKey;
  }

  lemma StillKnown(n: nat, m: nat, d: Data, e: Env)
    requires m <= n && Known(n, d, e)
    ensures Known(m, d, e)
  {
    hide ParseAddKey, Validate, ValidPlan, MarkValue, MarkFlag, PlanGiven, CredentialsGiven, TokenGiven;
  }

  /** Past validation the answer can be rendered. */
  lemma Validated(s: State, e: Env)
    requires Sound(s, e) && s.stage >= 12
    ensures Known(s.stage, s.data, e) && e.keys.Some? && s.data.answer.Some?
    ensures |s.data.answer.value.dns| >= 1 && s.data.answer.value.serverPort >= 0
    ensures s.data.plan.Some? && RecordInput(s.data.plan.value, s.data.answer.value)
  {
    hide TimeSound, TraceSound, ProgressSound, Located, Validate, ValidPlan, MarkValue, MarkFlag, PlanGiven,
      CredentialsGiven, ParseAddKey;
    ValidatedInput(s.data.plan.value, s.data.answer.value, e.keys.value.public, e.v6);
  }
}
