/**
 Fetching the server list: one request with its tail stripped, the errors worth another
 attempt, and the retry loop with its table of pauses.
 */
module Retry {
  import opened Text
  import opened Clock

  // ---- One fetch -------------------------------------------------------------------------------

  /** What a request comes to: no answer, or a status and the outcome of reading the body. */
  datatype Reply =
    | NoAnswer(timeout: bool)
    | Answer(status: int, body: BodyRead)

  datatype BodyRead =
    | Whole(bytes: Bytes)
    | SocketError(timeout: bool)
    | OtherReadError(timeout: bool)

  /** The dynamic types of the errors that a fetch returns; the HTTP client wraps its own in one type. */
  datatype FetchError =
    | UrlError(timeout: bool)
    | HttpStatus(code: int)
    | OpError(timeout: bool)
    | PlainError(timeout: bool)
    | NoObject

  datatype Fetched = Data(bytes: Bytes) | Failed(error: FetchError)

  /** The index of the last brace, if there is one. */
  function LastBrace(s: Bytes): (i: Option<nat>)
    ensures i.Some? ==> i.value < |s| && s[i.value] == '}' && forall j :: i.value < j < |s| ==> s[j] != '}'
    ensures i == None ==> '}' !in s
  {
    if s == "" then None
    else if s[|s| - 1] == '}' then Some(|s| - 1)
    else LastBrace(s[..|s| - 1])
  }

  /** fetchServerListRaw. */
  function FetchRaw(r: Reply): Fetched {
    match r
    case NoAnswer(timeout) => Failed(UrlError(timeout))
    case Answer(status, body) =>
      if status != 200 then Failed(HttpStatus(status))
      else
        match body
        case SocketError(timeout) => Failed(OpError(timeout))
        case OtherReadError(timeout) => Failed(PlainError(timeout))
        case Whole(s) => match LastBrace(s) case None => Failed(NoObject) case Some(i) => Data(s[..i + 1])
  }

  /** The data is the longest part of the body that ends in a brace. */
  lemma StripExact(s: Bytes, p: Bytes)
    ensures FetchRaw(Answer(200, Whole(s))) == Data(p) <==>
            p != "" && p <= s && p[|p| - 1] == '}' && '}' !in s[|p|..]
  {
    var i := LastBrace(s);
    if p != "" && p <= s {
      assert s[|p| - 1] == p[|p| - 1] && s[..|p|] == p;
      assert forall k :: |p| <= k < |s| ==> s[|p|..][k - |p|] == s[k];
      assert '}' in s[|p|..] <==> exists k :: |p| <= k < |s| && s[k] == '}';
    }
  }

  /** An object followed by a tail without braces, as the server sends it, comes back as the object. */
  lemma TailStripped(payload: Bytes, tail: Bytes)
    requires payload != "" && payload[|payload| - 1] == '}' && '}' !in tail
    ensures FetchRaw(Answer(200, Whole(payload + tail))) == Data(payload)
  {
    assert (payload + tail)[|payload|..] == tail;
    StripExact(payload + tail, payload);
  }

  /** isTransientError. */
  predicate IsTransient(x: FetchError) {
    match x
    case HttpStatus(code) => code in {429, 500, 502, 503, 504}
    case UrlError(timeout) => timeout
    case OpError(_) => true
    case PlainError(timeout) => timeout
    case NoObject => false
  }

  predicate WorthRetrying(r: Reply) { FetchRaw(r).Failed? && IsTransient(FetchRaw(r).error) }

  /**
   When a reply is worth another attempt. A connection that is refused or a name that is not
   found comes wrapped as an error that did not time out, so it is not.
   */
  lemma RetriedReplies(r: Reply)
    ensures WorthRetrying(r) <==>
      (match r
       case NoAnswer(timeout) => timeout
       case Answer(status, body) =>
         if status != 200 then status == 429 || status == 500 || 502 <= status <= 504
         else body.SocketError? || (body.OtherReadError? && body.timeout))
  {}

  // ---- The loop --------------------------------------------------------------------------------

  const BACKOFFS: seq<nat> := [2 * SECOND, 5 * SECOND, 10 * SECOND, 20 * SECOND, 30 * SECOND]

  /** The pause after a failed attempt, counted from zero: the last entry of the table repeats. */
  function Backoff(i: nat): nat { if i < |BACKOFFS| then BACKOFFS[i] else BACKOFFS[|BACKOFFS| - 1] }

  function Pauses(n: nat): (p: seq<nat>)
    ensures |p| == n && forall i :: 0 <= i < n ==> p[i] == Backoff(i)
  {
    if n == 0 then [] else Pauses(n - 1) + [Backoff(n - 1)]
  }

  function Limit(maxAttempts: int): nat { if maxAttempts <= 0 then |BACKOFFS| + 1 else maxAttempts }

  datatype Result =
    | Success(bytes: Bytes)
    | NotRetryable(error: FetchError)
    | GaveUp(attempts: nat, error: FetchError)

  /** fetchServerListWithRetry, on a script of replies: what it returns, how often it fetched, how long it slept. */
  method FetchWithRetry(script: nat -> Reply, maxAttempts: int) returns (r: Result, fetches: nat, slept: seq<nat>)
    ensures 1 <= fetches <= Limit(maxAttempts)
    ensures forall k :: 0 <= k < fetches - 1 ==> WorthRetrying(script(k))
    ensures fetches < Limit(maxAttempts) ==> !WorthRetrying(script(fetches - 1))
    ensures r == ResultOf(FetchRaw(script(fetches - 1)), Limit(maxAttempts))
    ensures slept == Pauses(fetches - 1)
  {
    var limit := if maxAttempts <= 0 then |BACKOFFS| + 1 else maxAttempts;
    fetches, slept := 0, [];
    var attempt := 1;
    while true
      invariant 1 <= attempt <= limit && fetches == attempt - 1
      invariant forall k :: 0 <= k < fetches ==> WorthRetrying(script(k))
      invariant slept == Pauses(fetches)
      decreases limit - attempt
    {
      var f := FetchRaw(script(fetches));
      fetches := fetches + 1;
      if f.Data? { return Success(f.bytes), fetches, slept; }
      if !IsTransient(f.error) { return NotRetryable(f.error), fetches, slept; }
      if attempt == limit { return GaveUp(limit, f.error), fetches, slept; }
      var backoff := BACKOFFS[|BACKOFFS| - 1];
      if attempt - 1 < |BACKOFFS| { backoff := BACKOFFS[attempt - 1]; }
      slept := slept + [backoff];
      attempt := attempt + 1;
    }
  }

  function ResultOf(f: Fetched, limit: nat): Result {
    match f
    case Data(bytes) => Success(bytes)
    case Failed(x) => if IsTransient(x) then GaveUp(limit, x) else NotRetryable(x)
  }

  /** The number of fetches is fixed by the script: up to the first reply not worth retrying, or the limit. */
  function Fetches(script: nat -> Reply, limit: nat, k: nat): (n: nat)
    requires k < limit
    ensures k < n <= limit
    ensures forall j :: k <= j < n - 1 ==> WorthRetrying(script(j))
    ensures n < limit ==> !WorthRetrying(script(n - 1))
    decreases limit - k
  {
    if k + 1 == limit || !WorthRetrying(script(k)) then k + 1 else Fetches(script, limit, k + 1)
  }

  /** What the loop's contract says determines it. */
  lemma FetchesUnique(script: nat -> Reply, limit: nat, n: nat)
    requires 1 <= n <= limit && (forall k :: 0 <= k < n - 1 ==> WorthRetrying(script(k)))
    requires n < limit ==> !WorthRetrying(script(n - 1))
    ensures n == Fetches(script, limit, 0)
  {
    var m := Fetches(script, limit, 0);
    var last, other := WorthRetrying(script(n - 1)), WorthRetrying(script(m - 1));
  }

  function Sum(s: seq<nat>): nat { if s == [] then 0 else Sum(s[..|s| - 1]) + s[|s| - 1] }

  lemma PausesSnoc(n: nat)
    ensures Sum(Pauses(n + 1)) == Sum(Pauses(n)) + Backoff(n)
  {
    assert Pauses(n + 1)[..n] == Pauses(n);
  }

  lemma TablePauses()
    ensures Sum(Pauses(5)) == 67 * SECOND
  {
    PausesSnoc(0);
    PausesSnoc(1);
    PausesSnoc(2);
    PausesSnoc(3);
    PausesSnoc(4);
  }

  /** A run of n attempts that gives up has slept 67 seconds for six of them and 30 more for each one after. */
  lemma {:induction false} TotalPause(n: nat)
    requires n >= 6
    ensures Sum(Pauses(n - 1)) == (67 + 30 * (n - 6)) * SECOND
  {
    if n == 6 {
      TablePauses();
    } else {
      TotalPause(n - 1);
      PausesSnoc(n - 2);
    }
  }
}
