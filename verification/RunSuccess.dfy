/** Exactly when a run succeeds, in terms of its environment alone. */
module RunSuccess {
  import opened Text
  import opened Clock
  import opened Ipv4
  import opened Failure
  import opened Plan
  import opened AddKey
  import opened Transport
  import opened Url
  import opened Argv
  import opened Machine
  import opened RunFacts
  import opened RunSafety

  /** How long the four inputs take to read. */
  function InputTime(e: Env): nat {
    FileTime(e.planRead.elapsed) + FileTime(e.credentialsRead.elapsed) + FileTime(e.publicCaRead.elapsed) +
      FileTime(e.regionalCaRead.elapsed)
  }

  /** The instants at which the two answers are in and the config is written, if things go that far. */
  function TokenIn(e: Env): nat { e.start + InputTime(e) + ExchangeTime(e.tokenExchange) }

  function AnswerIn(e: Env): nat { TokenIn(e) + ExchangeTime(e.addKeyExchange) }

  function ConfigOut(e: Env): nat { AnswerIn(e) + FileTime(e.configWrite.elapsed) }

  predicate MarkUsable(e: Env) { MarkFlag(e).Some? ==> MarkValue(e).Some? && e.markSupported }

  predicate BundleGood(r: ReadScript, verdict: bool) {
    ReadResult(r, MAX_CA_BUNDLE).Some? && ReadResult(r, MAX_CA_BUNDLE).value != "" && verdict
  }

  /** The dials come to a connection, the certificate is right, and the whole body is there in time. */
  predicate AnsweredTo(x: Exchange, t: Target, serverName: Bytes, allowCommonName: bool, limit: nat, v6: Ipv6Parser) {
    && x.reply.Answered? && x.headerTime + x.bodyTime <= REQUEST_TIMEOUT
    && Connected in DialResults(x.dials, t, 0)
    && VerifyPeer(x.reply.peer, serverName, allowCommonName, v6) == None
    && x.reply.status == 200 && x.reply.body.Some? && |x.reply.body.value| <= limit
  }

  predicate TokenOk(e: Env) {
    && PlanGiven(e).Some?
    && AnsweredTo(e.tokenExchange, Target(TokenRequest, PlanGiven(e).value.tokenIPv4, 443, MarkValue(e)), TOKEN_HOST,
                  false, MAX_TOKEN_BODY, e.v6)
    && ParseToken(e.tokenExchange.reply.body.value).Good?
  }

  /** The candidate's name gives a URL with a host that can be written into a request. */
  predicate Sendable(e: Env) { HostGiven(e).Some? && HostGiven(e).value != "" && Writable(HostGiven(e).value, e) }

  predicate AnswerOk(e: Env) {
    && PlanGiven(e).Some? && e.keys.Some? && Sendable(e)
    && AnsweredTo(e.addKeyExchange, Target(AddKeyRequest, PlanGiven(e).value.candidate.ipv4, 1337, MarkValue(e)),
                  PlanGiven(e).value.candidate.commonName, true, MAX_BODY, e.v6)
    && AnswerGiven(e).Some?
  }

  predicate CancelledBy(e: Env, t: nat) { e.cancelAt.Some? && e.cancelAt.value <= t }

  /** What the n-th stage asks of the environment. */
  predicate Passes(e: Env, n: nat) {
    if n == 0 then !Repeats(e.args, {})
    else if n == 1 then MarkUsable(e)
    else if n == 2 then !CancelledBy(e, e.start)
    else if n == 3 then PlanGiven(e).Some?
    else if n == 4 then CredentialsGiven(e).Some?
    else if n == 5 then BundleGood(e.publicCaRead, e.publicCaOk)
    else if n == 6 then BundleGood(e.regionalCaRead, e.regionalCaOk)
    else if n == 7 then InputTime(e) <= 15 * SECOND && !CancelledBy(e, e.start + InputTime(e))
    else if n == 8 then TokenOk(e)
    else if n == 9 then !CancelledBy(e, TokenIn(e))
    else if n == 10 then AnswerOk(e)
    else if n == 11 then Approved(e)
    else if n == 12 then !CancelledBy(e, AnswerIn(e))
    else if n == 13 then Approved(e) && WriteDone(e.configWrite, ApprovedConfig(e))
    else if n == 14 then !CancelledBy(e, ConfigOut(e))
    else Approved(e) && WriteDone(e.resultWrite, ApprovedRecord(e))
  }

  /** When the n-th stage begins in a run that gets there. */
  function Arrival(e: Env, n: nat): nat {
    if n <= 3 then e.start
    else if n == 4 then e.start + FileTime(e.planRead.elapsed)
    else if n == 5 then e.start + FileTime(e.planRead.elapsed) + FileTime(e.credentialsRead.elapsed)
    else if n == 6 then
      e.start + FileTime(e.planRead.elapsed) + FileTime(e.credentialsRead.elapsed) + FileTime(e.publicCaRead.elapsed)
    else if n <= 8 then e.start + InputTime(e)
    else if n <= 10 then TokenIn(e)
    else if n <= 13 then AnswerIn(e)
    else if n <= 15 then ConfigOut(e)
    else ConfigOut(e) + FileTime(e.resultWrite.elapsed)
  }

  /** A stage passes exactly when the environment does what it asks, and then takes the time it should. */
  ghost predicate Decided(e: Env, n: nat, x: Effect) {
    && (x.reason == Nothing <==> Passes(e, n))
    && (x.reason == Nothing ==> Arrival(e, n) + x.elapsed == Arrival(e, n + 1))
  }

  lemma LocalDecided(e: Env, n: nat, d: Data)
    requires n in {0, 1, 3, 4, 5, 6}
    ensures Decided(e, n,
      if n == 0 then InvocationStage(d, e)
      else if n == 1 then MarkStage(d, e)
      else if n == 3 then PlanStage(d, e)
      else if n == 4 then CredentialsStage(d, e)
      else if n == 5 then BundleStage(d, PublicCaInput, e.publicCaRead, e.publicCaOk, PublicCaBundle)
      else BundleStage(d, RegionalCaInput, e.regionalCaRead, e.regionalCaOk, RegionalCaBundle))
  {
    hide Repeats, MarkFlag, MarkValue, PlanGiven, CredentialsGiven, ReadResult, FileTime;
  }

  lemma GateDecided(e: Env, n: nat, d: Data, t: nat, budget: nat)
    requires OnTime(n, e, t) && t == Arrival(e, n)
    requires (n, budget) in {(2, 45 * SECOND), (7, 45 * SECOND), (9, 30 * SECOND), (12, 15 * SECOND), (14, 10 * SECOND)}
    ensures Decided(e, n, Gate(d, e, t, budget))
  {
    hide FileTime, ExchangeTime;
    GateTime(n, e, t, budget);
  }

  lemma AnsweredMeansBody(x: Exchange, t: Target, serverName: Bytes, allowCommonName: bool, writable: bool, limit: nat,
                          v6: Ipv6Parser)
    ensures var o := OutcomeOf(x, DialResults(x.dials, t, 0), serverName, allowCommonName, writable, limit, v6);
      && (o.Body? <==> writable && AnsweredTo(x, t, serverName, allowCommonName, limit, v6))
      && (o.Body? ==> x.reply.body == Some(o.raw))
  {
    hide DialResults, VerifyPeer;
  }

  lemma TokenDecided(e: Env, d: Data, t: nat)
    requires Known(8, d, e) && OnTime(8, e, t)
    ensures Decided(e, 8, TokenStage(d, e, t))
  {
    hide OutcomeOf, AnsweredTo, DialResults, DialEvents, ParseToken, MarkValue, MarkFlag, PlanGiven, CredentialsGiven,
      ValidPlan, ParseAddKey, Validate, FileTime, ExchangeTime, TokenReason, ContextAt;
    var plan := d.plan.value;
    AnsweredMeansBody(e.tokenExchange, Target(TokenRequest, plan.tokenIPv4, 443, MarkValue(e)), TOKEN_HOST, false, true,
                      MAX_TOKEN_BODY, e.v6);
    var x := TokenStage(d, e, t);
    OutcomeFacts(e.tokenExchange, DialResults(e.tokenExchange.dials, TokenTarget(d, e), 0), TOKEN_HOST, false, true,
                 MAX_TOKEN_BODY, e.v6);
    TokenReasons(TokenOutcome(d, e), e, t + x.elapsed);
  }

  lemma AddKeyDecided(e: Env, d: Data, t: nat)
    requires Known(10, d, e) && OnTime(10, e, t)
    ensures Decided(e, 10, AddKeyStage(d, e, t))
  {
    hide OutcomeOf, AnsweredTo, DialResults, DialEvents, ParseToken, MarkValue, MarkFlag, PlanGiven, CredentialsGiven,
      ValidPlan, ParseAddKey, Validate, FileTime, ExchangeTime, AddKeyReason, ContextAt, TokenGiven, AddKeyUrl,
      Writable, HostGiven;
    var plan := d.plan.value;
    var x := AddKeyStage(d, e, t);
    if e.keys.Some? {
      HostKnown(d, e);
      if HostGiven(e).Some? {
        var taken := Writable(HostGiven(e).value, e);
        AnsweredMeansBody(e.addKeyExchange, Target(AddKeyRequest, plan.candidate.ipv4, 1337, MarkValue(e)),
                          plan.candidate.commonName, true, taken, MAX_BODY, e.v6);
        OutcomeFacts(e.addKeyExchange, DialResults(e.addKeyExchange.dials, AddKeyTarget(d, e), 0),
                     plan.candidate.commonName, true, taken, MAX_BODY, e.v6);
        AddKeyReasons(AddKeyOutcome(d, e, HostGiven(e).value), e, t + x.elapsed);
        AddKeyReasons(NetworkError, e, t);
      }
    }
  }

  lemma ValidationDecided(e: Env, d: Data)
    requires Known(11, d, e)
    ensures Decided(e, 11, ValidationStage(d, e))
  {
    hide MarkValue, MarkFlag, PlanGiven, CredentialsGiven, ValidPlan, ParseAddKey, Validate, TokenGiven, Reused,
      FileTime, ExchangeTime;
  }

  lemma WriteDecided(e: Env, n: nat, d: Data, t: nat)
    requires (n == 13 || n == 15) && Known(n, d, e)
    ensures Decided(e, n, if n == 13 then ConfigStage(d, e, t) else ResultStage(d, e, t))
  {
    hide MarkValue, MarkFlag, PlanGiven, CredentialsGiven, ValidPlan, ParseAddKey, Validate, TokenGiven, Reused,
      FileTime, ExchangeTime, ConfigText, RecordText, WriteDone, WrittenBytes, Approved, ApprovedConfig, ApprovedRecord;
    KnownApproved(n, d, e);
    ConfigAlwaysFits(n, d, e);
    RecordAlwaysFits(n, d, e);
  }

  lemma StageDecided(e: Env, n: nat, d: Data, t: nat)
    requires n < LAST && Known(n, d, e) && OnTime(n, e, t) && t == Arrival(e, n)
    ensures Decided(e, n, StageEffect(n, d, e, t))
  {
    hide Decided, Known, OnTime, Arrival, InvocationStage, MarkStage, PlanStage, CredentialsStage, BundleStage,
      TokenStage, AddKeyStage, ValidationStage, ConfigStage, ResultStage, Gate;
    if n == 2 { GateDecided(e, n, d, t, 45 * SECOND); }
    else if n <= 6 { LocalDecided(e, n, d); }
    else if n == 7 { GateDecided(e, n, d, t, 45 * SECOND); }
    else if n == 8 { TokenDecided(e, d, t); }
    else if n == 9 { GateDecided(e, n, d, t, 30 * SECOND); }
    else if n == 10 { AddKeyDecided(e, d, t); }
    else if n == 11 { ValidationDecided(e, d); }
    else if n == 12 { GateDecided(e, n, d, t, 15 * SECOND); }
    else if n == 14 { GateDecided(e, n, d, t, 10 * SECOND); }
    else { WriteDecided(e, n, d, t); }
  }

  /** A run gets past its first n stages exactly when the environment does what each of them asks. */
  lemma {:induction false} GetsPast(e: Env, n: nat)
    requires n <= LAST
    ensures After(e, n).stopped == Nothing <==> forall k :: 0 <= k < n ==> Passes(e, k)
    ensures After(e, n).stopped == Nothing ==> After(e, n).now == Arrival(e, n)
  {
    hide StageEffect, Known, Passes, Arrival, TraceSound, ProgressSound, Located, Gated;
    if n == 0 {
      assert Arrival(e, 0) == e.start by { StartsAt(e); }
    } else {
      GetsPast(e, n - 1);
      EveryState(e, n - 1);
      StillRunning(e, n - 1);
      var s := After(e, n - 1);
      if s.stopped == Nothing { StageDecided(e, n - 1, s.data, s.now); }
    }
  }

  lemma StartsAt(e: Env)
    ensures Arrival(e, 0) == e.start
  {}

  /** Everything a run needs of its environment. The times of the later gates are not among it. */
  predicate Favourable(e: Env) {
    && !Repeats(e.args, {}) && MarkUsable(e)
    && PlanGiven(e).Some? && CredentialsGiven(e).Some?
    && BundleGood(e.publicCaRead, e.publicCaOk) && BundleGood(e.regionalCaRead, e.regionalCaOk)
    && InputTime(e) <= 15 * SECOND
    && TokenOk(e) && AnswerOk(e) && Approved(e)
    && WriteDone(e.configWrite, ApprovedConfig(e)) && WriteDone(e.resultWrite, ApprovedRecord(e))
    && !CancelledBy(e, ConfigOut(e))
  }

  lemma FavourableMeans(e: Env)
    ensures Favourable(e) <==> forall k :: 0 <= k < LAST ==> Passes(e, k)
  {
    hide Repeats, MarkUsable, PlanGiven, CredentialsGiven, BundleGood, TokenOk, AnswerOk, Approved, WriteDone,
      ApprovedConfig, ApprovedRecord, FileTime, ExchangeTime;
    if forall k :: 0 <= k < LAST ==> Passes(e, k) {
      assert Passes(e, 0) && Passes(e, 1) && Passes(e, 3) && Passes(e, 4) && Passes(e, 5) && Passes(e, 6) &&
             Passes(e, 7);
      assert Passes(e, 8) && Passes(e, 10) && Passes(e, 11) && Passes(e, 13) && Passes(e, 14) && Passes(e, 15);
    }
  }

  /**
   A run succeeds exactly when its inputs are good and take at most 15 seconds, both answers
   come in full and are approved, both writes go through, and it is not cancelled before the
   config is written.
   */
  lemma SucceedsExactly(e: Env)
    ensures Run(e).stopped == Nothing <==> Favourable(e)
  {
    hide Run, After, Favourable, Passes, Sound, Arrival;
    RunEnds(e);
    GetsPast(e, LAST);
    FavourableMeans(e);
  }

  // ---- Whom a run has talked to ------------------------------------------------------------------

  lemma {:induction false} PassedStage(e: Env, k: nat, n: nat)
    requires n < After(e, k).stage
    ensures n < LAST && Passes(e, n)
  {
    hide StageEffect, Known, Passes, Arrival, TraceSound, ProgressSound, TimeSound, Located;
    if k > 0 {
      EveryState(e, k);
      if n < After(e, k - 1).stage {
        PassedStage(e, k - 1, n);
      } else {
        StillRunning(e, k - 1);
        GetsPast(e, k);
      }
    }
  }

  /**
   A run gets past a request only if the server's certificate chain is good and names the
   host; for the candidate alone, a certificate without names may carry its name instead.
   */
  lemma PeersAreTrusted(s: State, e: Env)
    requires Reached(s, e)
    ensures s.stage > 8 ==>
      var r := e.tokenExchange.reply; r.Answered? && r.peer.certificates > 0 && r.peer.chainOk && r.peer.hostnameOk
    ensures s.stage > 10 ==>
      && PlanGiven(e).Some?
      && var r := e.addKeyExchange.reply;
         && r.Answered? && r.peer.certificates > 0 && r.peer.chainOk
         && (r.peer.hostnameOk ||
             (r.peer.names == 0 && r.peer.addresses == 0 &&
              r.peer.commonName == PlanGiven(e).value.candidate.commonName))
  {
    hide After, PlanGiven, MarkValue, DialResults, ParseToken, ParseAddKey, ValidCommonName;
    var k: nat :| After(e, k) == s;
    if s.stage > 8 { PassedStage(e, k, 8); }
    if s.stage > 10 { PassedStage(e, k, 10); }
  }
}
