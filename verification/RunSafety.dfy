/** What holds in every state of every run, and what it says about time, order, content and reasons. */
module RunSafety {
  import opened Text
  import opened Clock
  import opened Ipv4
  import opened Failure
  import opened Plan
  import opened AddKey
  import opened Records
  import opened RecordReading
  import opened Transport
  import opened Url
  import opened Argv
  import opened Machine
  import opened RunFacts

  /** The state after k steps, or where the run ended before. */
  function After(e: Env, k: nat): State {
    if k == 0 then Initial(e) else var s := After(e, k - 1); if Running(s, e) then Step(s, e) else s
  }

  ghost predicate Reached(s: State, e: Env) { exists k: nat :: After(e, k) == s }

  /** The milestone lies in a stage that is over, or the run stopped in its stage having reached it. */
  predicate Due(m: Milestone, s: State) {
    s.stage > MilestoneStage(m) || (s.stage == MilestoneStage(m) && s.stopped != Nothing && Earned(m, s.stopped))
  }

  ghost predicate TimeSound(s: State, e: Env) {
    if s.stopped == Nothing then OnTime(s.stage, e, s.now) && Gated(s.stage, e, s.now)
    else e.start <= s.now <= e.start + Latest(s.stage) + StageTime(s.stage)
  }

  ghost predicate TraceSound(s: State, e: Env) {
    && Increasing(s.trace)
    && (forall i :: 0 <= i < |s.trace| ==> Grounded(s.trace[i], e))
    && (forall i :: 0 <= i < |s.trace| ==> EventStage(s.trace[i]) < s.stage + if s.stopped == Nothing then 0 else 1)
    && (MarkValue(e).Some? ==> Marked(s.trace, MarkValue(e).value))
  }

  ghost predicate ProgressSound(s: State) {
    && (forall m :: Seen(s.trace, m) <==> Due(m, s))
    && (s.stage > 8 ==> ConnectedFor(s.trace, TokenRequest))
    && (s.stage > 10 ==> ConnectedFor(s.trace, AddKeyRequest))
    && (MarkWasTheReason(s.stopped) ==>
        forall i :: 0 <= i < |s.trace| && EventStage(s.trace[i]) == s.stage ==> !s.trace[i].Connect?)
  }

  predicate Located(s: State) {
    s.stopped.Because? && s.stopped.kind != Cancelled ==> StageOf(s.stopped.kind, s.stopped.detail) == Some(s.stage)
  }

  /** The invariant of a run. */
  ghost predicate Sound(s: State, e: Env) {
    && s.stage <= LAST && (s.stage == LAST ==> s.stopped == Nothing)
    && Known(s.stage, s.data, e) && TimeSound(s, e) && TraceSound(s, e) && ProgressSound(s) && Located(s)
  }

  lemma InitialSound(e: Env)
    ensures Sound(Initial(e), e)
  {
    hide MarkFlag, MarkValue, PlanGiven, CredentialsGiven, Validate, ValidPlan, ParseAddKey;
  }

  lemma {:induction false} MarkedTogether(a: seq<Event>, b: seq<Event>, m: nat)
    requires Marked(a, m) && Marked(b, m)
    ensures Marked(a + b, m)
  {
    forall i | 0 <= i < |a + b| && (a + b)[i].Connect?
      ensures exists j :: 0 <= j < i && (a + b)[j] == MarkSet((a + b)[i].request, (a + b)[i].fd, m, true)
    {
      if i < |a| {
        var j :| 0 <= j < i && a[j] == MarkSet(a[i].request, a[i].fd, m, true);
        assert (a + b)[j] == a[j];
      } else {
        var k := i - |a|;
        var j :| 0 <= j < k && b[j] == MarkSet(b[k].request, b[k].fd, m, true);
        assert (a + b)[|a| + j] == b[j];
      }
    }
  }

  lemma SeenTogether(a: seq<Event>, b: seq<Event>)
    ensures forall m :: Seen(a + b, m) <==> Seen(a, m) || Seen(b, m)
    ensures forall r :: ConnectedFor(a, r) || ConnectedFor(b, r) ==> ConnectedFor(a + b, r)
  {
    forall m ensures Seen(a + b, m) <==> Seen(a, m) || Seen(b, m) {
      if Seen(a, m) {
        var i :| 0 <= i < |a| && Is(a[i], m);
        assert (a + b)[i] == a[i];
      }
      if Seen(b, m) {
        var i :| 0 <= i < |b| && Is(b[i], m);
        assert (a + b)[|a| + i] == b[i];
      }
    }
    forall r | ConnectedFor(a, r) || ConnectedFor(b, r) ensures ConnectedFor(a + b, r) {
      if ConnectedFor(a, r) {
        var i :| 0 <= i < |a| && a[i].Connect? && a[i].request == r && a[i].ok;
        assert (a + b)[i] == a[i];
      } else {
        var i :| 0 <= i < |b| && b[i].Connect? && b[i].request == r && b[i].ok;
        assert (a + b)[|a| + i] == b[i];
      }
    }
  }

  lemma StepTrace(s: State, e: Env)
    requires Running(s, e) && TraceSound(s, e) && Behaves(s.stage, e, StageEffect(s.stage, s.data, e, s.now))
    ensures TraceSound(Step(s, e), e)
  {
    hide StageEffect, Known, Grounded, MarkValue, EventStage, Marked;
    var b := StageEffect(s.stage, s.data, e, s.now).events;
    if MarkValue(e).Some? { MarkedTogether(s.trace, b, MarkValue(e).value); }
    var t := s.trace + b;
    assert forall i :: 0 <= i < |t| ==> t[i] == if i < |s.trace| then s.trace[i] else b[i - |s.trace|];
  }

  lemma StepProgress(s: State, e: Env)
    requires Running(s, e) && ProgressSound(s) && TraceSound(s, e) &&
             Reports(s.stage, StageEffect(s.stage, s.data, e, s.now))
    ensures ProgressSound(Step(s, e))
  {
    hide StageEffect, Known, Seen, ConnectedFor, MilestoneStage, Earned, EventStage, Grounded, Marked,
      Increasing, MarkValue, MarkWasTheReason;
    SeenTogether(s.trace, StageEffect(s.stage, s.data, e, s.now).events);
  }

  /** Every step keeps the invariant. */
  lemma StepSound(s: State, e: Env)
    requires Running(s, e) && Sound(s, e)
    ensures Sound(Step(s, e), e)
  {
    hide StageEffect, Known, TraceSound, ProgressSound, Behaves, Reports, StageOf;
    StageFacts(s.stage, s.data, e, s.now);
    StepTrace(s, e);
    StepProgress(s, e);
  }

  lemma {:induction false} EveryState(e: Env, k: nat)
    ensures Sound(After(e, k), e)
  {
    hide Sound, Step, Running;
    if k == 0 {
      InitialSound(e);
    } else {
      EveryState(e, k - 1);
      if Running(After(e, k - 1), e) { StepSound(After(e, k - 1), e); }
    }
  }

  lemma {:induction false} StillRunning(e: Env, k: nat)
    ensures After(e, k).stopped == Nothing ==> After(e, k).stage == if k < LAST then k else LAST
    ensures RunFrom(After(e, k), e) == Run(e)
  {
    hide StageEffect, Known, TraceSound, ProgressSound, TimeSound, Located;
    if k > 0 {
      StillRunning(e, k - 1);
      EveryState(e, k - 1);
      EveryState(e, k);
    }
  }

  /** A run ends, after sixteen steps at most: it stops for a reason or has passed the last stage. */
  lemma RunEnds(e: Env)
    ensures Run(e) == After(e, LAST) && Sound(Run(e), e)
    ensures Run(e).stopped == Nothing <==> Run(e).stage == LAST
  {
    hide StageEffect, Known, TraceSound, ProgressSound, TimeSound, Located, Step;
    StillRunning(e, LAST);
    EveryState(e, LAST);
  }

  lemma ReachedSound(s: State, e: Env)
    requires Reached(s, e)
    ensures Sound(s, e)
  {
    hide Sound, After;
    var k: nat :| After(e, k) == s;
    EveryState(e, k);
  }

  // ---- Time ----------------------------------------------------------------------------------

  /**
   Timed safety: a run is over within 55 seconds and its failure record, if any, is written
   within the deadline; only the gate before the token request ever fails on time, and only
   if the inputs took more than 15 seconds.
   */
  lemma RunsOnTime(e: Env)
    ensures Run(e).now <= e.start + 55 * SECOND
    ensures Run(e).now + FileTime(e.failureWrite.elapsed) <= Deadline(e)
    ensures Run(e).stopped.Because? && Run(e).stopped.kind == DeadlineExceeded ==> Run(e).stage == 7
  {
    hide Known, TraceSound, ProgressSound, Reached;
    RunEnds(e);
  }

  /** A gate that fails on time is the one before the token request, more than 15 seconds into the run. */
  lemma OnlyOneGateFailsOnTime(s: State, e: Env)
    requires Reached(s, e) && s.stopped == Nothing && s.stage in {2, 7, 9, 12, 14}
    ensures Running(s, e)
    ensures Step(s, e).stopped != Nothing && ContextAt(e, s.now) != Canceled ==>
            s.stage == 7 && s.now > e.start + 15 * SECOND
  {
    hide Known, TraceSound, ProgressSound, ContextAt, Reached;
    ReachedSound(s, e);
    GateTime(s.stage, e, s.now,
             (if s.stage <= 7 then 45 else if s.stage == 9 then 30 else if s.stage == 12 then 15 else 10) * SECOND);
  }

  // ---- Order and number ----------------------------------------------------------------------

  lemma Ordered(t: seq<Event>, i: nat, j: nat)
    requires Increasing(t) && i < |t| && j < |t|
    ensures i < j <==> Slot(t[i]) < Slot(t[j])
  {
    if j < i { assert Slot(t[j]) < Slot(t[i]); }
  }

  /** At most two connects in any state: to the token address first, then to the candidate. */
  lemma AtMostTwoConnects(s: State, e: Env, i: nat, j: nat)
    requires Reached(s, e) && i < j < |s.trace| && s.trace[i].Connect? && s.trace[j].Connect?
    ensures PlanGiven(e).Some?
    ensures var a, b, p := s.trace[i], s.trace[j], PlanGiven(e).value;
      && a.request == TokenRequest && a.ip == p.tokenIPv4 && a.port == 443
      && b.request == AddKeyRequest && b.ip == p.candidate.ipv4 && b.port == 1337
    ensures forall h :: j < h < |s.trace| ==> !s.trace[h].Connect?
  {
    hide Known, TimeSound, ProgressSound, Reached, PlanGiven;
    ReachedSound(s, e);
    var t := s.trace;
    assert Slot(t[i]) < Slot(t[j]);
    forall h | j < h < |t| ensures !t[h].Connect? { assert Slot(t[j]) < Slot(t[h]); }
  }

  /** Each request is started, and each record and the config is written, at most once. */
  lemma AtMostOnce(s: State, e: Env, m: Milestone, i: nat, j: nat)
    requires Reached(s, e) && i < |s.trace| && j < |s.trace|
    requires Is(s.trace[i], m) && Is(s.trace[j], m)
    ensures i == j
  {
    hide Known, TimeSound, ProgressSound, Reached, Grounded;
    ReachedSound(s, e);
    var t := s.trace;
    Ordered(t, i, j);
    Ordered(t, j, i);
  }

  // ---- The config ----------------------------------------------------------------------------

  /**
   Whenever bytes reach the config descriptor, they are the start of the config of an answer
   that passed validation and names another endpoint than the excluded one; and before them
   both requests were started and a connection to the candidate was made.
   */
  lemma ConfigIsApproved(s: State, e: Env, i: nat) returns (server: Address)
    requires Reached(s, e) && i < |s.trace| && s.trace[i].WroteConfig?
    ensures ConfigPart(s.trace[i].bytes, s.trace[i].complete, e)
    ensures Admit(e, s.trace[i].at, 15 * SECOND)
    ensures AnswerGiven(e).value.serverIP == Dotted(server)
    ensures var x := PlanGiven(e).value.excluded;
      x.Some? ==>
      exists a: Address :: x.value.ipv4 == Dotted(a) && (a, x.value.port) != (server, AnswerGiven(e).value.serverPort)
    ensures exists h :: 0 <= h < i && Is(s.trace[h], RequestStarted(AddKeyRequest))
    ensures exists h :: 0 <= h < i && s.trace[h].Connect? && s.trace[h].request == AddKeyRequest && s.trace[h].ok
  {
    hide Known, TimeSound, Reached, PlanGiven, AnswerGiven, Validate, ValidPlan, RenderConfig, Dotted, Admit, MarkValue,
      Reused, Increasing, Marked, ConfigPart, RecordPart, Approved, AddKeyUrl, TokenGiven;
    ReachedSound(s, e);
    var t := s.trace;
    assert Grounded(t[i], e);
    PartIsApproved(t[i].bytes, t[i].complete, e);
    server := EndpointDiffers(e);
    assert Seen(t, RequestStarted(AddKeyRequest));
    var h :| 0 <= h < |t| && Is(t[h], RequestStarted(AddKeyRequest));
    Ordered(t, h, i);
    var c :| 0 <= c < |t| && t[c].Connect? && t[c].request == AddKeyRequest && t[c].ok;
    Ordered(t, c, i);
  }

  lemma PartIsApproved(bytes: Bytes, complete: bool, e: Env)
    requires ConfigPart(bytes, complete, e)
    ensures Approved(e)
  {
    hide Approved, ApprovedConfig;
  }

  /** An approved answer's endpoint is not the excluded one. */
  lemma EndpointDiffers(e: Env) returns (server: Address)
    requires Approved(e)
    ensures AnswerGiven(e).value.serverIP == Dotted(server)
    ensures var x := PlanGiven(e).value.excluded;
      x.Some? ==>
      exists a: Address :: x.value.ipv4 == Dotted(a) && (a, x.value.port) != (server, AnswerGiven(e).value.serverPort)
  {
    hide PlanGiven, AnswerGiven, Validate, ValidPlan, Dotted, Reused;
    server := ReuseIsExact(PlanGiven(e).value, AnswerGiven(e).value, e.keys.value.public, e.v6);
    var x := PlanGiven(e).value.excluded;
    if x.Some? {
      var a: Address :| x.value.ipv4 == Dotted(a) &&
        (Reused(PlanGiven(e).value, AnswerGiven(e).value) <==>
         a == server && x.value.port == AnswerGiven(e).value.serverPort);
      assert (a, x.value.port) != (server, AnswerGiven(e).value.serverPort);
    }
  }

  // ---- The result ----------------------------------------------------------------------------

  /** Any part of a success record comes after the whole config. */
  lemma RecordFollowsConfig(s: State, e: Env, i: nat)
    requires Reached(s, e) && i < |s.trace| && s.trace[i].WroteRecord?
    ensures i == |s.trace| - 1
    ensures exists h :: 0 <= h < i && s.trace[h].WroteConfig? && ConfigPart(s.trace[h].bytes, true, e)
    ensures RecordPart(s.trace[i].bytes, s.trace[i].complete, e)
  {
    hide Known, TimeSound, Reached, PlanGiven, AnswerGiven, ConfigPart, RecordPart, Admit, MarkValue, Increasing,
      Marked;
    ReachedSound(s, e);
    var t := s.trace;
    assert Seen(t, RecordTried);
    assert Seen(t, ConfigDone);
    var h :| 0 <= h < |t| && Is(t[h], ConfigDone);
    Ordered(t, h, i);
    Ordered(t, |t| - 1, i);
    Ordered(t, i, |t| - 1);
  }

  /** A run succeeds exactly when the whole success record has been written. */
  lemma SuccessMeansRecorded(e: Env)
    ensures Run(e).stopped == Nothing <==>
            exists i :: 0 <= i < |Run(e).trace| && Run(e).trace[i].WroteRecord? && Run(e).trace[i].complete
    ensures Run(e).stopped == Nothing ==>
      exists i :: 0 <= i < |Run(e).trace| && Run(e).trace[i].WroteRecord? && RecordPart(Run(e).trace[i].bytes, true, e)
  {
    hide Known, TimeSound, Reached, PlanGiven, AnswerGiven, ConfigPart, RecordPart, Admit, MarkValue, Increasing;
    RunEnds(e);
    var t := Run(e).trace;
    assert Seen(t, RecordDone) <==> Run(e).stage > 15;
    if Run(e).stopped == Nothing {
      var i :| 0 <= i < |t| && Is(t[i], RecordDone);
      assert Grounded(t[i], e);
    }
  }

  // ---- Reasons -------------------------------------------------------------------------------

  /**
   Every reason but `cancelled` tells where the run stopped, and so what it had done: which
   inputs it had read, which requests it had started, and whether the config was tried and
   completed.
   */
  lemma ReasonLocates(e: Env)
    requires Run(e).stopped.Because? && Run(e).stopped.kind != Cancelled
    ensures StageOf(Run(e).stopped.kind, Run(e).stopped.detail) == Some(Run(e).stage)
    ensures var n := Run(e).stage;
      && (Seen(Run(e).trace, RequestStarted(TokenRequest)) <==> n >= 8)
      && (Seen(Run(e).trace, RequestStarted(AddKeyRequest)) <==> n >= 10 && Run(e).stopped.kind != InternalFailure)
      && (Seen(Run(e).trace, ConfigTried) <==> n >= 13)
      && (Seen(Run(e).trace, ConfigDone) <==> n == 15)
      && (forall i :: Seen(Run(e).trace, InputRead(i)) <==> n >= InputStage(i))
  {
    hide Known, TimeSound, TraceSound, Reached, Seen;
    RunEnds(e);
  }

  /** The failure record alone tells where the run stopped, unless it was cancelled. */
  lemma RecordLocates(e: Env, f: Env)
    requires Run(e).stopped.Because? && Run(f).stopped.Because?
    requires FailureRecord(Run(e).stopped.kind, Run(e).stopped.detail) ==
             FailureRecord(Run(f).stopped.kind, Run(f).stopped.detail)
    ensures Run(e).stopped == Run(f).stopped
    ensures Run(e).stopped.kind != Cancelled ==> Run(e).stage == Run(f).stage
  {
    hide Run, Seen, StageOf, FailureRecord;
    RecordTellsReason(Run(e).stopped.kind, Run(e).stopped.detail, Run(f).stopped.kind, Run(f).stopped.detail);
    if Run(e).stopped.kind != Cancelled {
      ReasonLocates(e);
      ReasonLocates(f);
    }
  }

  // ---- Marked sockets ------------------------------------------------------------------------

  /** With a mark on the command line, no socket connects in any state before that mark was set on it. */
  lemma SocketsAreMarked(s: State, e: Env, i: nat)
    requires Reached(s, e) && MarkFlag(e).Some? && i < |s.trace| && s.trace[i].Connect?
    ensures MarkValue(e).Some?
    ensures var v := s.trace[i];
      exists j :: 0 <= j < i && s.trace[j] == MarkSet(v.request, v.fd, MarkValue(e).value, true)
  {
    hide TimeSound, ProgressSound, Reached, PlanGiven, CredentialsGiven, Validate, ValidPlan, ParseAddKey, MarkFlag,
      MarkValue, Increasing;
    ReachedSound(s, e);
    assert EventStage(s.trace[i]) >= 8;
  }

  /** If a request failed for its mark, that request connected nowhere. */
  lemma RefusedMarkMeansNoConnect(s: State, e: Env, i: nat)
    requires Reached(s, e) && MarkWasTheReason(s.stopped) && i < |s.trace| && s.trace[i].Connect?
    ensures s.stopped.kind == AddKeyFailed && s.trace[i].request == TokenRequest
  {
    hide Known, TimeSound, Reached, Grounded, MarkValue, Increasing, Seen;
    ReachedSound(s, e);
    assert EventStage(s.trace[i]) <= s.stage;
  }

  /**
   If the token request's socket refuses the mark, the run stops there; and if the transport
   delivers the error of the dial that opened it, the run says so exactly then.
   */
  lemma RefusedTokenMark(s: State, e: Env)
    requires Reached(s, e) && s.stopped == Nothing && s.stage == 8
    ensures Running(s, e)
    ensures MarkIsRefused(e.tokenExchange.dials, MarkValue(e)) ==>
            Step(s, e).stopped in {FailWith(TokenFailed, MarkRefused), Fail(TokenFailed), Fail(Cancelled)}
    ensures Delivers(e.tokenExchange) ==>
            (Step(s, e).stopped == FailWith(TokenFailed, MarkRefused) <==>
             MarkIsRefused(e.tokenExchange.dials, MarkValue(e)))
  {
    hide Known, TraceSound, ProgressSound, Reached, DialResults, DialEvents, OutcomeOf, MarkValue, ParseToken, Delivers,
      MarkIsRefused;
    ReachedSound(s, e);
    StageFacts(8, s.data, e, s.now);
    assert s.data.plan.Some? && s.data.credentials.Some? by { PlanKnown(s, e); }
    RefusedMarkReported(e.tokenExchange, TokenTarget(s.data, e), TOKEN_HOST, false, true, MAX_TOKEN_BODY, e.v6);
    if TokenOutcome(s.data, e).Body? { TokenDetails(TokenOutcome(s.data, e).raw); }
  }

  /** The same for the add-key request, if there is one to send. */
  lemma RefusedAddKeyMark(s: State, e: Env)
    requires Reached(s, e) && s.stopped == Nothing && s.stage == 10
    requires e.keys.Some? && HostGiven(e).Some? && HostGiven(e) != Some("")
    ensures Running(s, e)
    ensures MarkIsRefused(e.addKeyExchange.dials, MarkValue(e)) ==>
            Step(s, e).stopped in {FailWith(AddKeyFailed, MarkRefused), Fail(AddKeyFailed), Fail(Cancelled)}
    ensures Delivers(e.addKeyExchange) ==>
            (Step(s, e).stopped == FailWith(AddKeyFailed, MarkRefused) <==>
             MarkIsRefused(e.addKeyExchange.dials, MarkValue(e)))
  {
    hide Known, TraceSound, ProgressSound, Reached, DialResults, DialEvents, OutcomeOf, MarkValue, ParseAddKey,
      Delivers, MarkIsRefused, AddKeyUrl, HostGiven, Writable;
    ReachedSound(s, e);
    StageFacts(10, s.data, e, s.now);
    assert s.data.plan.Some? && s.data.token.Some? by { PlanKnown(s, e); }
    HostKnown(s.data, e);
    var host := HostGiven(e).value;
    RefusedMarkReported(e.addKeyExchange, AddKeyTarget(s.data, e), s.data.plan.value.candidate.commonName, true,
                        Writable(host, e), MAX_BODY, e.v6);
    if AddKeyOutcome(s.data, e, host).Body? { AddKeyDetails(AddKeyOutcome(s.data, e, host).raw); }
  }

  lemma PlanKnown(s: State, e: Env)
    requires Sound(s, e) && s.stage >= 8
    ensures s.data.plan.Some? && s.data.credentials.Some? && (s.stage > 8 ==> s.data.token.Some?)
  {
    hide TimeSound, TraceSound, ProgressSound, Located, MarkFlag, MarkValue, PlanGiven, CredentialsGiven, TokenGiven,
      ValidPlan;
  }

  // ---- The add-key request -----------------------------------------------------------------------

  /**
   A run stops for an internal failure exactly when it gets to the add-key request and there
   is no key pair, or the candidate's name gives no URL.
   */
  lemma InternalFailureExactly(s: State, e: Env)
    requires Reached(s, e) && s.stopped == Nothing && s.stage < LAST
    ensures Running(s, e)
    ensures Step(s, e).stopped.Because? && Step(s, e).stopped.kind == InternalFailure <==>
            s.stage == 10 && (e.keys == None || HostGiven(e) == None)
  {
    hide Known, TraceSound, ProgressSound, Reached, DialResults, DialEvents, OutcomeOf, MarkValue, ParseAddKey,
      AddKeyUrl, HostGiven, Writable, StageEffect;
    ReachedSound(s, e);
    StageFacts(s.stage, s.data, e, s.now);
    if s.stage == 10 {
      TenthStage(s, e);
    }
  }

  lemma TenthStage(s: State, e: Env)
    requires Sound(s, e) && s.stopped == Nothing && s.stage == 10
    ensures Running(s, e)
    ensures Step(s, e).stopped.Because? && Step(s, e).stopped.kind == InternalFailure <==>
            e.keys == None || HostGiven(e) == None
    ensures e.keys == None || HostGiven(e) == None ==> Step(s, e).trace == s.trace
    ensures e.keys.Some? && HostGiven(e) == Some("") ==>
            Step(s, e).stopped == Fail(AddKeyFailed) && Unconnected(Step(s, e).trace[|s.trace|..])
  {
    hide Known, TraceSound, ProgressSound, DialResults, DialEvents, OutcomeOf, MarkValue, ParseAddKey, AddKeyUrl,
      HostGiven, Writable;
    assert s.data.plan.Some? && s.data.token.Some? by { PlanKnown(s, e); }
    if e.keys.Some? {
      HostKnown(s.data, e);
      if HostGiven(e).Some? && HostGiven(e) != Some("") {
        var o := AddKeyOutcome(s.data, e, HostGiven(e).value);
        if o.Body? { AddKeyDetails(o.raw); }
      }
    }
  }

  /**
   A name that begins with a question mark or a hash leaves the URL without a host: the request
   fails before any dial.
   */
  lemma HostlessFails(s: State, e: Env)
    requires Reached(s, e) && s.stopped == Nothing && s.stage == 10 && e.keys.Some? && HostGiven(e) == Some("")
    ensures Running(s, e) && Step(s, e).stopped == Fail(AddKeyFailed) && Unconnected(Step(s, e).trace[|s.trace|..])
  {
    hide Sound, Reached, HostGiven, Step, Known;
    ReachedSound(s, e);
    TenthStage(s, e);
  }

  /**
   In any state, an add-key request asks for /addKey with the token received and the public
   key exactly if the candidate's name has neither a hash nor a question mark in it.
   */
  lemma RequestAsksForKey(s: State, e: Env, i: nat) returns (token: Bytes)
    requires Reached(s, e) && i < |s.trace| && s.trace[i].Started? && s.trace[i].request == AddKeyRequest
    ensures PlanGiven(e).Some? && e.keys.Some? && s.trace[i].payload.Get?
    ensures AsksFor(s.trace[i].payload.url, token, e.keys.value.public) <==>
            !CutsUrl(PlanGiven(e).value.candidate.commonName)
    ensures TokenGiven(e, token)
  {
    hide Reached, AddKeyUrl, AsksFor, PlanGiven, CutsUrl, Admit, TimeSound, ProgressSound, Increasing, Known, MarkValue,
      TokenGiven, Grounded, Marked;
    ReachedSound(s, e);
    var v := s.trace[i];
    token := RequestGrounded(v, e);
    TokenBytes(e, token);
    NameBytes(s, e, i);
    AsksExactly(PlanGiven(e).value.candidate.commonName, token, e.keys.value.public, e.brackets);
  }

  lemma RequestGrounded(v: Event, e: Env) returns (token: Bytes)
    requires Grounded(v, e) && v.Started? && v.request == AddKeyRequest
    ensures PlanGiven(e).Some? && e.keys.Some? && v.payload.Get? && TokenGiven(e, token)
    ensures AddKeyUrl(PlanGiven(e).value.candidate.commonName, token, e.keys.value.public, e.brackets) ==
            Some(v.payload.url)
  {
    hide PlanGiven, Admit, TokenGiven, AddKeyUrl;
    token :| TokenGiven(e, token) &&
      AddKeyUrl(PlanGiven(e).value.candidate.commonName, token, e.keys.value.public, e.brackets) == Some(v.payload.url);
  }

  lemma NameBytes(s: State, e: Env, i: nat)
    requires Sound(s, e) && i < |s.trace| && s.trace[i].Started? && PlanGiven(e).Some?
    ensures '/' !in PlanGiven(e).value.candidate.commonName
  {
    hide TimeSound, ProgressSound, Located, MarkFlag, MarkValue, CredentialsGiven, TokenGiven, ValidIPv4, ValidRegion,
      ParseIP, PlanGiven, Grounded, Increasing, Marked;
    assert EventStage(s.trace[i]) >= 8;
    var name := PlanGiven(e).value.candidate.commonName;
    assert ValidCommonName(name, e.v6);
    assert forall k :: 0 <= k < |name| ==> NameChar(name[k]);
  }

  // ---- The command line ----------------------------------------------------------------------

  /** An accepted command line whose mark value does not begin with "--" is never taken for a repeated flag. */
  lemma AcceptedInvocation(e: Env)
    requires ParseCommandLine(e.args).problem == None
    requires MarkFlag(e) == None || !StartsDashes(MarkFlag(e).value)
    ensures Requested(e.args) && Run(e).stage > 0
  {
    hide Known, Requested, Repeats, ParseCommandLine, StartsDashes, TraceSound, ProgressSound, TimeSound, StageOf;
    var items := ScannersAgree(e.args);
    RunEnds(e);
    var s := Initial(e);
    InitialSound(e);
    assert Running(s, e) && Step(s, e).stage == 1 && RunFrom(s, e) == RunFrom(Step(s, e), e);
    StepSound(s, e);
    StageNeverFalls(Step(s, e), e);
  }

  lemma {:induction false} StageNeverFalls(s: State, e: Env)
    ensures RunFrom(s, e).stage >= s.stage
    decreases LAST - s.stage, if s.stopped == Nothing then 1 else 0
  {
    hide StageEffect, Known;
    if Running(s, e) { StageNeverFalls(Step(s, e), e); }
  }
}
