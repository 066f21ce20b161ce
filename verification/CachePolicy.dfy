/**
 The cache policy of the server list over many calls: a fresh copy is used, a stale one is
 refreshed if the network allows, an expired one must be. Each call meets a world of its own:
 its replies, their delays, and whether the cache can be read and written.
 */
module CachePolicy {
  import opened Text
  import opened Clock
  import opened Retry

  /** ServerListOptions; `cached` stands for a cache path that is not empty. */
  datatype Options = Options(cached: bool, ttl: int, maxAge: int, force: bool, retries: int)

  function Ttl(o: Options): int { if o.ttl == 0 then 24 * HOUR else o.ttl }

  function MaxAge(o: Options): int { if o.maxAge == 0 then 168 * HOUR else o.maxAge }

  function Larger(a: int, b: int): int { if a < b then b else a }

  /**
   What one call meets. `start` is the instant at which it looks at the clock. Writing the cache
   takes `filling` until the last byte is in the temporary file, and `finishing` until it is renamed.
   */
  datatype World = World(
    start: int, readFails: bool, replies: nat -> Reply, latency: nat -> nat, writeOk: bool, filling: nat,
    finishing: nat)

  datatype Call = Call(o: Options, w: World)

  datatype File = File(data: Bytes, mtime: int)

  /**
   A successful fetch: when it was decided on, when it was complete, and if it was written to
   the cache, when its last byte was. It is guarded if the cache was consulted first, under `ttl`.
   */
  datatype Fetch = Fetch(asked: int, at: int, data: Bytes, wrote: Option<int>, guarded: bool, ttl: int)

  datatype State = State(cache: Option<File>, now: int, log: seq<Fetch>)

  datatype Verdict =
    | Kept(data: Bytes, mtime: int, stale: bool)
    | Downloaded(data: Bytes)
    | Unreadable
    | NoList(reason: Result)

  // ---- One call --------------------------------------------------------------------------------

  function Latencies(latency: nat -> nat, n: nat): nat {
    if n == 0 then 0 else Latencies(latency, n - 1) + latency(n - 1)
  }

  function Attempts(c: Call): nat { Fetches(c.w.replies, Limit(c.o.retries), 0) }

  function Outcome(c: Call): Result { ResultOf(FetchRaw(c.w.replies(Attempts(c) - 1)), Limit(c.o.retries)) }

  /** How long the attempts and the pauses between them take. */
  function Spent(c: Call): nat { Latencies(c.w.latency, Attempts(c)) + Sum(Pauses(Attempts(c) - 1)) }

  /** Fetching with retries and, if that works, writing the cache; a failed write is only logged. */
  function Refresh(s: State, c: Call, guarded: bool): (r: (State, Result))
    ensures r.1 == Outcome(c)
  {
    match Outcome(c)
    case Success(bytes) =>
      var at := c.w.start + Spent(c);
      var full := at + c.w.filling;
      var end := if c.o.cached then full + c.w.finishing else at;
      var written := c.o.cached && c.w.writeOk;
      (State(if written then Some(File(bytes, full)) else s.cache, end,
             s.log + [Fetch(c.w.start, at, bytes, if written then Some(full) else None, guarded, Ttl(c.o))]),
       Success(bytes))
    case bad => (State(s.cache, c.w.start + Spent(c), s.log), bad)
  }

  function VerdictOf(r: Result): Verdict { if r.Success? then Downloaded(r.bytes) else NoList(r) }

  /** fetchServerListWithPolicy. */
  function PolicyStep(s: State, c: Call): (State, Verdict) {
    if !c.o.cached || c.o.force then
      var (after, r) := Refresh(s, c, false);
      (after, VerdictOf(r))
    else if c.w.readFails then (State(s.cache, c.w.start, s.log), Unreadable)
    else if s.cache == None then
      var (after, r) := Refresh(s, c, true);
      (after, VerdictOf(r))
    else
      var f := s.cache.value;
      var age := c.w.start - f.mtime;
      if age <= Ttl(c.o) then (State(s.cache, c.w.start, s.log), Kept(f.data, f.mtime, false))
      else
        var (after, r) := Refresh(s, c, true);
        (after, if age <= MaxAge(c.o) && !r.Success? then Kept(f.data, f.mtime, true) else VerdictOf(r))
  }

  /** The cache file on disk and the clock; a program run is one call. */
  class ServerListCache {
    var cache: Option<File>
    var now: int
    ghost var log: seq<Fetch>

    ghost function Abstract(): State
      reads this
    {
      State(cache, now, log)
    }

    method WaitForReplies(latency: nat -> nat, fetches: nat)
      modifies this`now
      ensures now == old(now) + Latencies(latency, fetches)
    {
      for i := 0 to fetches
        invariant now == old(now) + Latencies(latency, i)
      {
        now := now + latency(i);
      }
    }

    method Sleep(pauses: seq<nat>)
      modifies this`now
      ensures now == old(now) + Sum(pauses)
    {
      for i := 0 to |pauses|
        invariant now == old(now) + Sum(pauses[..i])
      {
        now := now + pauses[i];
        assert pauses[..i + 1][..i] == pauses[..i];
      }
      assert pauses[..|pauses|] == pauses;
    }

    method Download(c: Call, ghost guarded: bool) returns (r: Result)
      modifies this`now, this`log
      ensures r == Outcome(c) && now == c.w.start + Spent(c)
      ensures r.Success? ==> log == old(log) + [Fetch(c.w.start, now, r.bytes, None, guarded, Ttl(c.o))]
      ensures !r.Success? ==> log == old(log)
    {
      hide Sum, Pauses, Latencies, FetchRaw, IsTransient;
      var fetches, slept;
      r, fetches, slept := FetchWithRetry(c.w.replies, c.o.retries);
      FetchesUnique(c.w.replies, Limit(c.o.retries), fetches);
      now := c.w.start;
      WaitForReplies(c.w.latency, fetches);
      Sleep(slept);
      if r.Success? { log := log + [Fetch(c.w.start, now, r.bytes, None, guarded, Ttl(c.o))]; }
    }

    /** Writes the cache after a successful fetch, the last in the log. */
    method Write(data: Bytes, c: Call)
      requires log != [] && log[|log| - 1].wrote == None
      modifies this
      ensures now == old(now) + c.w.filling + c.w.finishing
      ensures cache == if c.w.writeOk then Some(File(data, old(now) + c.w.filling)) else old(cache)
      ensures log == old(log)[..|old(log)| - 1] +
        [old(log)[|old(log)| - 1].(wrote := if c.w.writeOk then Some(old(now) + c.w.filling) else None)]
    {
      now := now + c.w.filling;
      var mtime := now;
      now := now + c.w.finishing;
      if c.w.writeOk {
        cache := Some(File(data, mtime));
        log := log[..|log| - 1] + [log[|log| - 1].(wrote := Some(mtime))];
      }
    }

    method FetchWithPolicy(c: Call) returns (v: Verdict)
      modifies this
      ensures (Abstract(), v) == PolicyStep(old(Abstract()), c)
    {
      hide Outcome, Spent;
      var ttl := if c.o.ttl == 0 then 24 * HOUR else c.o.ttl;
      var maxAge := if c.o.maxAge == 0 then 168 * HOUR else c.o.maxAge;
      ghost var before := log;
      if !c.o.cached {
        var r := Download(c, false);
        return VerdictOf(r);
      }
      if c.o.force {
        var r := Download(c, false);
        if r.Success? {
          Write(r.bytes, c);
          assert log[..|log| - 1] == before;
        }
        return VerdictOf(r);
      }
      now := c.w.start;
      if c.w.readFails { return Unreadable; }
      if cache == None {
        var r := Download(c, true);
        if r.Success? {
          Write(r.bytes, c);
          assert log[..|log| - 1] == before;
        }
        return VerdictOf(r);
      }
      var f := cache.value;
      var age := now - f.mtime;
      if age <= ttl { return Kept(f.data, f.mtime, false); }
      if age > maxAge {
        var r := Download(c, true);
        if r.Success? {
          Write(r.bytes, c);
          assert log[..|log| - 1] == before;
        }
        return VerdictOf(r);
      }
      var r := Download(c, true);
      if !r.Success? { return Kept(f.data, f.mtime, true); }
      Write(r.bytes, c);
      assert log[..|log| - 1] == before;
      v := Downloaded(r.bytes);
    }
  }

  // ---- Many calls ------------------------------------------------------------------------------

  /** Each call looks at the clock after the one before has returned. */
  predicate InOrder(s: State, calls: seq<Call>)
    decreases |calls|
  {
    calls == [] || (calls[0].w.start >= s.now && InOrder(PolicyStep(s, calls[0]).0, calls[1..]))
  }

  function AfterCalls(s: State, calls: seq<Call>): State
    decreases |calls|
  {
    if calls == [] then s else AfterCalls(PolicyStep(s, calls[0]).0, calls[1..])
  }

  /** What the cache holds, given what was written since it held `initial`. */
  function CacheOf(log: seq<Fetch>, initial: Option<File>): Option<File> {
    if log == [] then initial
    else
      var last := log[|log| - 1];
      if last.wrote.Some? then Some(File(last.data, last.wrote.value)) else CacheOf(log[..|log| - 1], initial)
  }

  /** A fetch is complete before it is written, and both before the next is decided on. */
  ghost predicate Chronological(s: State) {
    && (forall i :: 0 <= i < |s.log| ==> s.log[i].asked <= s.log[i].at <= s.now)
    && (forall i :: 0 <= i < |s.log| && s.log[i].wrote.Some? ==> s.log[i].at <= s.log[i].wrote.value <= s.now)
    && (forall i, j :: 0 <= i < j < |s.log| ==> s.log[i].at <= s.log[j].asked)
  }

  /** After a fetch that was written, the next guarded one is decided on more than its ttl after the write. */
  ghost predicate Spaced(log: seq<Fetch>) {
    forall i, j :: 0 <= i && j == i + 1 < |log| && log[i].wrote.Some? && log[j].guarded ==>
      log[j].asked - log[i].wrote.value > log[j].ttl
  }

  ghost predicate Sound(s: State, initial: Option<File>) {
    Chronological(s) && Spaced(s.log) && s.cache == CacheOf(s.log, initial)
  }

  /** A call leaves the log and the cache alone, or makes one fetch and perhaps writes it. */
  lemma StepShape(s: State, c: Call)
    requires c.w.start >= s.now
    ensures var r := PolicyStep(s, c).0;
      && s.now <= r.now
      && (r == State(s.cache, r.now, s.log) ||
          exists f: Fetch ::
            && r.log == s.log + [f] && c.w.start == f.asked <= f.at <= r.now
            && (f.wrote.Some? ==> f.at <= f.wrote.value <= r.now)
            && r.cache == (if f.wrote.Some? then Some(File(f.data, f.wrote.value)) else s.cache)
            && (f.guarded && s.cache.Some? ==> f.asked - s.cache.value.mtime > f.ttl))
  {
    hide Outcome, Spent;
    var r := PolicyStep(s, c).0;
    if |r.log| > |s.log| { assert r.log == s.log + [r.log[|s.log|]]; }
  }

  lemma OneMoreFetch(s: State, f: Fetch, r: State, initial: Option<File>)
    requires Sound(s, initial) && r.log == s.log + [f] && s.now <= f.asked <= f.at <= r.now
    requires f.wrote.Some? ==> f.at <= f.wrote.value <= r.now
    requires r.cache == if f.wrote.Some? then Some(File(f.data, f.wrote.value)) else s.cache
    requires f.guarded && s.cache.Some? ==> f.asked - s.cache.value.mtime > f.ttl
    ensures Sound(r, initial)
  {
    hide Spaced, Chronological, CacheOf;
    ExtendsTime(s, f, r);
    ExtendsSpacing(s, f, r, initial);
    assert CacheOf(r.log, initial) == r.cache by { CacheOfNext(s.log, f, initial); }
  }

  lemma ExtendsTime(s: State, f: Fetch, r: State)
    requires Chronological(s) && r.log == s.log + [f] && s.now <= f.asked <= f.at <= r.now
    requires f.wrote.Some? ==> f.at <= f.wrote.value <= r.now
    ensures Chronological(r)
  {
    assert forall i :: 0 <= i < |r.log| ==> r.log[i] == if i < |s.log| then s.log[i] else f;
  }

  lemma ExtendsSpacing(s: State, f: Fetch, r: State, initial: Option<File>)
    requires Spaced(s.log) && s.cache == CacheOf(s.log, initial) && r.log == s.log + [f]
    requires f.guarded && s.cache.Some? ==> f.asked - s.cache.value.mtime > f.ttl
    ensures Spaced(r.log)
  {
    assert forall i :: 0 <= i < |r.log| ==> r.log[i] == if i < |s.log| then s.log[i] else f;
  }

  lemma CacheOfNext(log: seq<Fetch>, f: Fetch, initial: Option<File>)
    ensures CacheOf(log + [f], initial) ==
            if f.wrote.Some? then Some(File(f.data, f.wrote.value)) else CacheOf(log, initial)
  {
    assert (log + [f])[..|log|] == log;
  }

  lemma StepSound(s: State, c: Call, initial: Option<File>)
    requires Sound(s, initial) && c.w.start >= s.now
    ensures Sound(PolicyStep(s, c).0, initial)
  {
    hide PolicyStep, Spaced, CacheOf;
    StepShape(s, c);
    var r := PolicyStep(s, c).0;
    if r != State(s.cache, r.now, s.log) {
      var f: Fetch :|
        && r.log == s.log + [f] && c.w.start == f.asked <= f.at <= r.now
        && (f.wrote.Some? ==> f.at <= f.wrote.value <= r.now)
        && r.cache == (if f.wrote.Some? then Some(File(f.data, f.wrote.value)) else s.cache)
        && (f.guarded && s.cache.Some? ==> f.asked - s.cache.value.mtime > f.ttl);
      OneMoreFetch(s, f, r, initial);
    }
  }

  lemma {:induction false} CallsSound(s: State, calls: seq<Call>, initial: Option<File>)
    requires Sound(s, initial) && InOrder(s, calls)
    ensures Sound(AfterCalls(s, calls), initial)
    decreases |calls|
  {
    hide Sound, PolicyStep;
    if calls != [] {
      StepSound(s, calls[0], initial);
      CallsSound(PolicyStep(s, calls[0]).0, calls[1..], initial);
    }
  }

  function Start(cache: Option<File>, now: int): State { State(cache, now, []) }

  /**
   Politeness, for any calls with any options: unless the earlier one could not be written or
   the later one was forced or uncached, the next fetch after a successful one is decided on
   more than a ttl after that one was complete.
   */
  lemma FetchesAreSpaced(cache: Option<File>, now: int, calls: seq<Call>, i: nat)
    requires InOrder(Start(cache, now), calls)
    requires i + 1 < |AfterCalls(Start(cache, now), calls).log|
    ensures var a, b := AfterCalls(Start(cache, now), calls).log[i], AfterCalls(Start(cache, now), calls).log[i + 1];
      a.wrote.Some? && b.guarded ==> b.asked - a.at > b.ttl
  {
    hide InOrder, AfterCalls;
    CallsSound(Start(cache, now), calls, cache);
  }

  /** Cached, not forced, with this ttl, and the cache can be written. */
  ghost predicate Ordinary(calls: seq<Call>, ttl: int) {
    forall k :: 0 <= k < |calls| ==>
      calls[k].o.cached && !calls[k].o.force && Ttl(calls[k].o) == ttl && calls[k].w.writeOk
  }

  ghost predicate AllGuarded(log: seq<Fetch>, ttl: int) {
    forall i :: 0 <= i < |log| ==> log[i].wrote.Some? && log[i].guarded && log[i].ttl == ttl
  }

  lemma {:induction false} OrdinaryLog(s: State, calls: seq<Call>, ttl: int)
    requires Ordinary(calls, ttl) && AllGuarded(s.log, ttl)
    ensures AllGuarded(AfterCalls(s, calls).log, ttl)
    decreases |calls|
  {
    hide Outcome, Spent;
    if calls != [] {
      var r := PolicyStep(s, calls[0]).0;
      assert AllGuarded(r.log, ttl);
      assert Ordinary(calls[1..], ttl);
      OrdinaryLog(r, calls[1..], ttl);
    }
  }

  lemma {:induction false} GapsAddUp(s: State, ttl: int, i: nat, j: nat)
    requires Chronological(s) && Spaced(s.log) && AllGuarded(s.log, ttl) && i < j < |s.log|
    ensures s.log[j].at - s.log[i].at > (j - i) * ttl
  {
    var k := j - 1;
    assert s.log[j].asked - s.log[k].wrote.value > s.log[j].ttl;
    if i < k {
      GapsAddUp(s, ttl, i, k);
      assert (j - i) * ttl == (k - i) * ttl + ttl;
    } else {
      assert (j - i) * ttl == ttl;
    }
  }

  /** In any window of time, k successful fetches of ordinary calls fit only if k - 1 ttls do. */
  lemma FewFetchesInAWindow(cache: Option<File>, now: int, calls: seq<Call>, ttl: int, i: nat, k: nat, window: int)
    requires InOrder(Start(cache, now), calls) && Ordinary(calls, ttl) && k >= 1
    requires i + k <= |AfterCalls(Start(cache, now), calls).log| && window > 0
    requires var log := AfterCalls(Start(cache, now), calls).log; log[i + k - 1].at - log[i].at <= window
    ensures (k - 1) * ttl < window
  {
    hide InOrder, AfterCalls, Ordinary;
    CallsSound(Start(cache, now), calls, cache);
    OrdinaryLog(Start(cache, now), calls, ttl);
    if k > 1 { GapsAddUp(AfterCalls(Start(cache, now), calls), ttl, i, i + k - 1); }
  }

  // ---- What is served ----------------------------------------------------------------------------

  lemma {:induction false} CacheCameFrom(log: seq<Fetch>, initial: Option<File>)
    requires CacheOf(log, initial).Some?
    ensures CacheOf(log, initial) == initial ||
      exists i :: 0 <= i < |log| && log[i].wrote.Some? &&
        CacheOf(log, initial) == Some(File(log[i].data, log[i].wrote.value))
  {
    if log != [] && log[|log| - 1].wrote == None {
      var rest := log[..|log| - 1];
      CacheCameFrom(rest, initial);
      assert forall i :: 0 <= i < |rest| ==> rest[i] == log[i];
    }
  }

  /**
   Whatever a call returns was fetched by it or before it, or was in the cache to begin with;
   and what it returns from the cache was written at most the larger of ttl and maximum age
   before the instant of decision.
   */
  lemma ServedDataIsKnown(cache: Option<File>, now: int, calls: seq<Call>, c: Call)
    requires InOrder(Start(cache, now), calls) && c.w.start >= AfterCalls(Start(cache, now), calls).now
    ensures var s := AfterCalls(Start(cache, now), calls);
      match PolicyStep(s, c).1
      case Kept(data, mtime, _) =>
        && c.w.start - mtime <= Larger(Ttl(c.o), MaxAge(c.o))
        && (cache == Some(File(data, mtime)) ||
            exists i :: 0 <= i < |s.log| && s.log[i].data == data && s.log[i].wrote == Some(mtime))
      case Downloaded(data) =>
        var log := PolicyStep(s, c).0.log; log != [] && log[|log| - 1].data == data && log[|log| - 1].asked == c.w.start
      case _ => PolicyStep(s, c).0.log == s.log
  {
    hide InOrder, AfterCalls, Outcome, Spent;
    CallsSound(Start(cache, now), calls, cache);
    var s := AfterCalls(Start(cache, now), calls);
    if s.cache.Some? { CacheCameFrom(s.log, cache); }
  }

  /** A cached call uses the network exactly when it is forced, or nothing in the cache is within the ttl. */
  lemma NetworkExactly(s: State, c: Call)
    requires c.o.cached && !c.w.readFails
    ensures (PolicyStep(s, c).1.Kept? && !PolicyStep(s, c).1.stale) <==>
            !c.o.force && s.cache.Some? && c.w.start - s.cache.value.mtime <= Ttl(c.o)
    ensures PolicyStep(s, c).1.NoList? <==>
            !Outcome(c).Success? &&
              (c.o.force || s.cache == None || c.w.start - s.cache.value.mtime > Larger(Ttl(c.o), MaxAge(c.o)))
    ensures PolicyStep(s, c).1.Kept? && PolicyStep(s, c).1.stale <==>
            !Outcome(c).Success? && !c.o.force && s.cache.Some? &&
              Ttl(c.o) < c.w.start - s.cache.value.mtime <= MaxAge(c.o)
  {
    hide Outcome, Spent;
  }

  /** A stale copy is returned only after the refresh has failed, so it is older then than it was at the decision. */
  lemma StaleIsReturnedLate(s: State, c: Call)
    requires PolicyStep(s, c).1.Kept? && PolicyStep(s, c).1.stale
    ensures PolicyStep(s, c).0.now == c.w.start + Spent(c)
    ensures Outcome(c).GaveUp? ==> Spent(c) >= Sum(Pauses(Limit(c.o.retries) - 1))
  {
    hide Sum;
  }

  // ---- How old a stale copy is when it is returned -------------------------------------------------

  /** The cache holds a copy between ttl and maximum age: the guard of the stale branch. */
  predicate InStaleWindow(s: State, o: Options, start: int) {
    o.cached && !o.force && s.cache.Some? && Ttl(o) < start - s.cache.value.mtime <= MaxAge(o)
  }

  /** The call is made with these options at this instant, and its fetches take this long between them at most. */
  predicate MadeAt(c: Call, o: Options, start: int, latency: nat) {
    c.o == o && c.w.start == start && !c.w.readFails && Latencies(c.w.latency, Attempts(c)) <= latency
  }

  /** A copy that is returned is within its maximum age at that instant. */
  predicate WithinAgeOnReturn(s: State, c: Call) {
    var (after, v) := PolicyStep(s, c);
    v.Kept? ==> after.now - v.mtime <= MaxAge(c.o)
  }

  lemma {:induction false} PausesAddUp(m: nat, n: nat)
    requires m <= n
    ensures Sum(Pauses(m)) <= Sum(Pauses(n))
    decreases n - m
  {
    hide Sum, Pauses;
    if m < n {
      PausesAddUp(m, n - 1);
      PausesSnoc(n - 1);
    }
  }

  /** A call whose fetches all time out, and which takes its whole latency in the first. */
  function TimingOut(o: Options, start: int, latency: nat): Call {
    Call(o, World(start, false, _ => NoAnswer(true), k => if k == 0 then latency else 0, true, 0, 0))
  }

  lemma TimingOutTakesAll(o: Options, start: int, latency: nat)
    ensures var c := TimingOut(o, start, latency);
      Attempts(c) == Limit(o.retries) && Outcome(c).GaveUp? && Latencies(c.w.latency, Attempts(c)) == latency
  {
    var c := TimingOut(o, start, latency);
    FetchesUnique(c.w.replies, Limit(o.retries), Limit(o.retries));
    LatencyOf(c, latency, Attempts(c));
  }

  lemma {:induction false} LatencyOf(c: Call, latency: nat, n: nat)
    requires n >= 1 && c.w.latency(0) == latency && forall k: nat :: k > 0 ==> c.w.latency(k) == 0
    ensures Latencies(c.w.latency, n) == latency
  {
    if n > 1 { LatencyOf(c, latency, n - 1); }
  }

  /**
   A copy in the stale window is within its maximum age when it is returned, whatever the
   network does within this latency, exactly if there is room for the latency and for all
   the pauses.
   */
  lemma StaleAgeExactly(s: State, o: Options, start: int, latency: nat)
    requires InStaleWindow(s, o, start)
    ensures (forall c :: MadeAt(c, o, start, latency) ==> WithinAgeOnReturn(s, c)) <==>
            start - s.cache.value.mtime + latency + Sum(Pauses(Limit(o.retries) - 1)) <= MaxAge(o)
  {
    hide Sum, Pauses, Outcome, Attempts, Latencies;
    if start - s.cache.value.mtime + latency + Sum(Pauses(Limit(o.retries) - 1)) <= MaxAge(o) {
      forall c | MadeAt(c, o, start, latency) ensures WithinAgeOnReturn(s, c) { SpentAtMost(c, latency); }
    } else {
      var c := TimingOut(o, start, latency);
      TimingOutTakesAll(o, start, latency);
      assert MadeAt(c, o, start, latency) && !WithinAgeOnReturn(s, c);
    }
  }

  lemma SpentAtMost(c: Call, latency: nat)
    requires Latencies(c.w.latency, Attempts(c)) <= latency
    ensures Spent(c) <= latency + Sum(Pauses(Limit(c.o.retries) - 1))
  {
    hide Sum, Pauses, Latencies;
    PausesAddUp(Attempts(c) - 1, Limit(c.o.retries) - 1);
  }

  /** With the default options that is 67 seconds less than a week, at the decision, for fetches that take no time. */
  lemma DefaultStaleAge(s: State, start: int)
    requires InStaleWindow(s, DEFAULTS, start)
    ensures (forall c :: MadeAt(c, DEFAULTS, start, 0) ==> WithinAgeOnReturn(s, c)) <==>
            start - s.cache.value.mtime <= 168 * HOUR - 67 * SECOND
  {
    hide Sum, Pauses, MadeAt, WithinAgeOnReturn;
    StaleAgeExactly(s, DEFAULTS, start, 0);
    TotalPause(6);
  }

  const DEFAULTS: Options := Options(true, 0, 0, false, 0)

  /** So a copy a week old at the decision is served when it is a week and 67 seconds old. */
  lemma MaxAgeExceededOnReturn() returns (s: State, c: Call)
    ensures PolicyStep(s, c).1 == Kept("{}", 0, true)
    ensures c.w.start - 0 <= Larger(Ttl(c.o), MaxAge(c.o)) && PolicyStep(s, c).0.now - 0 > Larger(Ttl(c.o), MaxAge(c.o))
  {
    hide Sum;
    s := State(Some(File("{}", 0)), 168 * HOUR, []);
    c := TimingOut(DEFAULTS, 168 * HOUR, 0);
    TimingOutTakesAll(DEFAULTS, 168 * HOUR, 0);
    StaleIsReturnedLate(s, c);
    TotalPause(6);
  }
}
