/**
 The HTTP client of constrained mode as seen from the network: a dial closure the
 transport may call as often as it likes, and the answer of one request. What the network
 and the transport do is a script; the closure, the certificate check and the timeout
 decide what comes of it.
 */
module Transport {
  import opened Text
  import opened Clock
  import opened Ipv4
  import opened Plan
  import opened Failure
  import opened Url

  datatype Input = PlanInput | CredentialsInput | PublicCaInput | RegionalCaInput

  datatype Request = TokenRequest | AddKeyRequest

  datatype Payload =
    | Login(username: Bytes, password: Bytes)
    | Get(url: Url)

  /** What a run does to the outside world, in order. */
  datatype Event =
    | ReadInput(input: Input)
    | Started(request: Request, payload: Payload, at: nat)
    | MarkSet(request: Request, fd: nat, value: nat, ok: bool)
    | Connect(request: Request, fd: nat, ip: Bytes, port: nat, ok: bool)
    | WroteConfig(bytes: Bytes, complete: bool, at: nat)
    | WroteRecord(bytes: Bytes, complete: bool, at: nat)

  /** One call of the dial closure: the arguments, and what the kernel would answer. */
  datatype DialAttempt = DialAttempt(
    network: Bytes, address: Bytes, fd: nat, controlOk: bool, setOk: bool, connectOk: bool)

  datatype DialResult = Connected | InvalidNetwork | RetryDenied | MarkRefusedError | ConnectFailed

  /** Where a client may connect, and the mark its socket must carry. */
  datatype Target = Target(request: Request, ip: Bytes, port: nat, mark: Option<nat>)

  predicate TcpNetwork(n: Bytes) { n == "tcp" || n == "tcp4" }

  /** The socket level: the control hook sets the mark, and only then does the socket connect. */
  function OpenSocket(a: DialAttempt, t: Target): (r: (seq<Event>, DialResult)) {
    var connect := Connect(t.request, a.fd, t.ip, t.port, a.connectOk);
    var connected := if a.connectOk then Connected else ConnectFailed;
    match t.mark
    case None => ([connect], connected)
    case Some(m) =>
      if !a.controlOk then ([], MarkRefusedError)
      else if !a.setOk then ([MarkSet(t.request, a.fd, m, false)], MarkRefusedError)
      else ([MarkSet(t.request, a.fd, m, true), connect], connected)
  }

  /** The dial closure, given how many dials came before. */
  function DialOnce(a: DialAttempt, t: Target, dialCount: nat): (seq<Event>, DialResult) {
    if !TcpNetwork(a.network) then ([], InvalidNetwork)
    else if dialCount > 0 then ([], RetryDenied)
    else OpenSocket(a, t)
  }

  function CountAfter(a: DialAttempt, dialCount: nat): nat {
    if TcpNetwork(a.network) && dialCount == 0 then 1 else dialCount
  }

  function DialEvents(dials: seq<DialAttempt>, t: Target, dialCount: nat): seq<Event> {
    if dials == [] then []
    else DialOnce(dials[0], t, dialCount).0 + DialEvents(dials[1..], t, CountAfter(dials[0], dialCount))
  }

  function DialResults(dials: seq<DialAttempt>, t: Target, dialCount: nat): (r: seq<DialResult>)
    ensures |r| == |dials|
  {
    if dials == [] then []
    else [DialOnce(dials[0], t, dialCount).1] + DialResults(dials[1..], t, CountAfter(dials[0], dialCount))
  }

  class Client {
    const target: Target
    var dialCount: nat
    ghost var events: seq<Event>

    constructor (target: Target)
      ensures this.target == target && dialCount == 0 && events == []
    {
      this.target, dialCount, events := target, 0, [];
    }

    /** The DialContext closure as written. */
    method Dial(a: DialAttempt) returns (r: DialResult)
      modifies this
      ensures r == DialOnce(a, target, old(dialCount)).1 && dialCount == CountAfter(a, old(dialCount))
      ensures events == old(events) + DialOnce(a, target, old(dialCount)).0
    {
      if a.network != "tcp" && a.network != "tcp4" { return InvalidNetwork; }
      if dialCount > 0 { return RetryDenied; }
      dialCount := dialCount + 1;
      if target.mark.Some? {
        if !a.controlOk { return MarkRefusedError; }
        events := events + [MarkSet(target.request, a.fd, target.mark.value, a.setOk)];
        if !a.setOk { return MarkRefusedError; }
      }
      events := events + [Connect(target.request, a.fd, target.ip, target.port, a.connectOk)];
      return if a.connectOk then Connected else ConnectFailed;
    }

    /** The transport calling the closure through a whole script. */
    method DialAll(dials: seq<DialAttempt>) returns (results: seq<DialResult>)
      requires dialCount == 0
      modifies this
      ensures results == DialResults(dials, target, 0)
      ensures events == old(events) + DialEvents(dials, target, 0)
    {
      hide DialOnce;
      results := [];
      assert dials[0..] == dials;
      for i := 0 to |dials|
        invariant results + DialResults(dials[i..], target, dialCount) == DialResults(dials, target, 0)
        invariant events + DialEvents(dials[i..], target, dialCount) == old(events) + DialEvents(dials, target, 0)
      {
        assert dials[i..][1..] == dials[i + 1..];
        ghost var before, count := events, dialCount;
        var r := Dial(dials[i]);
        results := results + [r];
        assert before + (DialOnce(dials[i], target, count).0 + DialEvents(dials[i + 1..], target, dialCount)) ==
               events + DialEvents(dials[i + 1..], target, dialCount);
      }
      assert dials[|dials|..] == [];
    }
  }

  // ---- The certificate check -------------------------------------------------------------------

  /** What the TLS handshake presents, and the verdicts of the X.509 library on it. */
  datatype Peer = Peer(certificates: nat, chainOk: bool, hostnameOk: bool, names: nat, addresses: nat,
                       commonName: Bytes)

  /** verifyConstrainedTLSConnection with a CA pool in hand: the reason to refuse, if any. */
  function VerifyPeer(p: Peer, serverName: Bytes, allowCommonName: bool, v6: Ipv6Parser): Option<Detail> {
    if p.certificates == 0 then Some(MissingCertificate)
    else if !p.chainOk then Some(CaChain)
    else if p.hostnameOk then None
    else if allowCommonName && p.names == 0 && p.addresses == 0 && ValidCommonName(serverName, v6) &&
            p.commonName == serverName then None
    else Some(EndpointIdentity)
  }

  // ---- One request -----------------------------------------------------------------------------

  /** What client.Do and the body read come to, if there is time. */
  datatype Reply =
    | Aborted
    | DialFailed(attempt: nat)
    | Answered(peer: Peer, status: int, body: Option<Bytes>)

  datatype Exchange = Exchange(dials: seq<DialAttempt>, reply: Reply, headerTime: nat, bodyTime: nat)

  const REQUEST_TIMEOUT: nat := 15 * SECOND

  function Least(a: nat, b: nat): nat { if a < b then a else b }

  /** How long the request takes: the client's timeout covers the body as well. */
  function ExchangeTime(x: Exchange): nat { Least(x.headerTime + x.bodyTime, REQUEST_TIMEOUT) }

  /** What client.Do returns: an error of one of three kinds, or an answer whose body is yet to be read. */
  datatype Response =
    | Lost
    | Unmarked
    | Untrusted(detail: Detail)
    | Got(status: int, body: Option<Bytes>)

  /**
   client.Do, given what the dials came to. An answer needs a connection, and a request that
   can be written to it, which the library decides after the handshake.
   */
  function Respond(x: Exchange, dials: seq<DialResult>, serverName: Bytes, allowCommonName: bool, writable: bool,
                   v6: Ipv6Parser): Response
  {
    if x.headerTime > REQUEST_TIMEOUT then Lost
    else
      match x.reply
      case Aborted => Lost
      case DialFailed(k) => if k < |dials| && dials[k] == MarkRefusedError then Unmarked else Lost
      case Answered(peer, status, body) =>
        if Connected !in dials then Lost
        else
          match VerifyPeer(peer, serverName, allowCommonName, v6)
          case Some(d) => Untrusted(d)
          case None =>
            if !writable then Lost
            else Got(status, if x.headerTime + x.bodyTime > REQUEST_TIMEOUT then None else body)
  }

  datatype Outcome =
    | TrustRefused(detail: Detail)
    | MarkWasRefused
    | NetworkError
    | BadStatus
    | BodyUnreadable
    | BodyTooLarge
    | Body(raw: Bytes)

  /** The request's outcome once an answer's body has been read. */
  function OutcomeOf(x: Exchange, dials: seq<DialResult>, serverName: Bytes, allowCommonName: bool, writable: bool,
                     limit: nat, v6: Ipv6Parser): Outcome
  {
    match Respond(x, dials, serverName, allowCommonName, writable, v6)
    case Lost => NetworkError
    case Unmarked => MarkWasRefused
    case Untrusted(d) => TrustRefused(d)
    case Got(status, body) =>
      if status != 200 then BadStatus
      else if body == None then BodyUnreadable
      else if |body.value| > limit then BodyTooLarge
      else Body(body.value)
  }

  // ---- What no script can make a client do ------------------------------------------------------

  /** Every connect in the trace comes after the mark was set on the same socket. */
  ghost predicate Marked(trace: seq<Event>, mark: nat) {
    forall i :: 0 <= i < |trace| && trace[i].Connect? ==>
      exists j :: 0 <= j < i && trace[j] == MarkSet(trace[i].request, trace[i].fd, mark, true)
  }

  lemma {:induction false} SpentClient(dials: seq<DialAttempt>, t: Target)
    ensures DialEvents(dials, t, 1) == []
    ensures forall k :: 0 <= k < |dials| ==> DialResults(dials, t, 1)[k] in {InvalidNetwork, RetryDenied}
  {
    if dials != [] {
      SpentClient(dials[1..], t);
    }
  }

  /** However often the closure is called, at most one socket is opened, by the first TCP dial. */
  lemma {:induction false} OneSocket(dials: seq<DialAttempt>, t: Target)
    ensures DialEvents(dials, t, 0) == [] ||
            exists k :: 0 <= k < |dials| && TcpNetwork(dials[k].network) &&
              DialEvents(dials, t, 0) == OpenSocket(dials[k], t).0
    ensures forall k ::
            0 <= k < |dials| && DialResults(dials, t, 0)[k] in {Connected, MarkRefusedError, ConnectFailed} ==>
              TcpNetwork(dials[k].network)
              && OpenSocket(dials[k], t) == (DialEvents(dials, t, 0), DialResults(dials, t, 0)[k])
  {
    hide OpenSocket;
    if dials != [] {
      var rest := dials[1..];
      var events, results := DialEvents(dials, t, 0), DialResults(dials, t, 0);
      assert forall k :: 0 < k < |dials| ==> dials[k] == rest[k - 1];
      if TcpNetwork(dials[0].network) {
        SpentClient(rest, t);
        assert events == OpenSocket(dials[0], t).0;
        assert forall k :: 0 < k < |dials| ==> results[k] == DialResults(rest, t, 1)[k - 1];
      } else {
        OneSocket(rest, t);
        assert events == DialEvents(rest, t, 0);
        assert forall k :: 0 < k < |dials| ==> results[k] == DialResults(rest, t, 0)[k - 1];
      }
    }
  }

  /**
   What the target's host sees, whatever the script: at most one socket; if there is a mark,
   it is set before that socket connects, and a socket on which it could not be set never does.
   */
  lemma ClientIsTame(dials: seq<DialAttempt>, t: Target)
    ensures var events, results := DialEvents(dials, t, 0), DialResults(dials, t, 0);
      && |events| <= 2
      && (forall i :: 0 <= i < |events| ==>
          (events[i].MarkSet? || events[i].Connect?) && events[i].request == t.request)
      && (forall i :: 0 <= i < |events| && events[i].Connect? ==> events[i].ip == t.ip && events[i].port == t.port)
      && (forall i :: 0 <= i < |events| && events[i].MarkSet? ==> t.mark == Some(events[i].value))
      && (|events| == 1 && t.mark.Some? ==> events[0].MarkSet?)
      && (|events| == 2 ==> events[0].MarkSet? && events[0].ok && events[1].Connect? && events[1].fd == events[0].fd)
      && (Connected in results ==> events != [] && events[|events| - 1].Connect? && events[|events| - 1].ok)
      && (MarkRefusedError in results ==> t.mark.Some? && |events| <= 1)
  {
    hide DialEvents, DialResults;
    OneSocket(dials, t);
    var events, results := DialEvents(dials, t, 0), DialResults(dials, t, 0);
    if events != [] {
      var k :| 0 <= k < |dials| && TcpNetwork(dials[k].network) && events == OpenSocket(dials[k], t).0;
    }
    if Connected in results {
      var k :| 0 <= k < |results| && results[k] == Connected;
    }
    if MarkRefusedError in results {
      var k :| 0 <= k < |results| && results[k] == MarkRefusedError;
    }
  }

  /** The dial that opens the socket: the first on a TCP network. */
  function OpeningDial(dials: seq<DialAttempt>): (k: nat)
    ensures k <= |dials| && (k < |dials| ==> TcpNetwork(dials[k].network))
    ensures forall j :: 0 <= j < k ==> !TcpNetwork(dials[j].network)
  {
    if dials == [] || TcpNetwork(dials[0].network) then 0 else 1 + OpeningDial(dials[1..])
  }

  /** The transport delivers the error of the dial that opened the socket, in time. */
  predicate Delivers(x: Exchange) {
    x.headerTime <= REQUEST_TIMEOUT && OpeningDial(x.dials) < |x.dials| && x.reply == DialFailed(OpeningDial(x.dials))
  }

  /** The kernel, or the hook that reaches it, refuses the mark on the socket that is opened. */
  predicate MarkIsRefused(dials: seq<DialAttempt>, mark: Option<nat>) {
    var k := OpeningDial(dials);
    k < |dials| && mark.Some? && !(dials[k].controlOk && dials[k].setOk)
  }

  lemma {:induction false} OpeningResult(dials: seq<DialAttempt>, t: Target)
    requires OpeningDial(dials) < |dials|
    ensures DialResults(dials, t, 0)[OpeningDial(dials)] == OpenSocket(dials[OpeningDial(dials)], t).1
  {
    hide OpenSocket;
    if !TcpNetwork(dials[0].network) { OpeningResult(dials[1..], t); }
  }

  /** Among the results a mark is refused exactly if it is on the socket that is opened. */
  lemma RefusedExactly(dials: seq<DialAttempt>, t: Target)
    ensures MarkRefusedError in DialResults(dials, t, 0) <==> MarkIsRefused(dials, t.mark)
  {
    hide DialResults;
    var results := DialResults(dials, t, 0);
    if OpeningDial(dials) < |dials| { OpeningResult(dials, t); }
    OneSocket(dials, t);
    if k :| 0 <= k < |results| && results[k] == MarkRefusedError {
      assert TcpNetwork(dials[k].network);
      assert OpeningDial(dials) <= k;
    }
  }

  /**
   If the transport delivers the error of the dial that opened the socket, the request fails
   for its mark exactly when the mark was refused; whatever it delivers, a refused mark fails
   the request without an answer.
   */
  lemma RefusedMarkReported(x: Exchange, t: Target, serverName: Bytes, allowCommonName: bool, writable: bool,
                            limit: nat, v6: Ipv6Parser)
    ensures var o := OutcomeOf(x, DialResults(x.dials, t, 0), serverName, allowCommonName, writable, limit, v6);
      && (Delivers(x) ==> (o == MarkWasRefused <==> MarkIsRefused(x.dials, t.mark)))
      && (MarkIsRefused(x.dials, t.mark) ==> o == MarkWasRefused || o == NetworkError)
      && (o == MarkWasRefused ==> MarkIsRefused(x.dials, t.mark))
  {
    hide DialEvents, DialResults, VerifyPeer;
    RefusedExactly(x.dials, t);
    if OpeningDial(x.dials) < |x.dials| { OpeningResult(x.dials, t); }
    if MarkIsRefused(x.dials, t.mark) { ClientIsTame(x.dials, t); }
  }
}
