/**
 The cache file on disk. Writers create a file under a name of their own, fill, sync, close and
 chmod it, and rename it over the path; readers stat the path and then read it. Any number of
 both interleave, and any of them may fail or die at any step, or the machine lose power.
 */
module CacheFile {
  import opened Text

  /**
   A file: its bytes, when they were last written, which writer made it, and whether it would
   survive a power loss.
   */
  datatype Node = Node(content: Bytes, mtime: int, owner: Option<nat>, durable: bool)

  datatype Stage = Open | Synced | Closed | Ready | Done | Errored | Dead

  datatype Writer = Writer(data: Bytes, stage: Stage)

  /** A reader remembers the time it was told, and then what it read. */
  datatype Reader = Statted(mtime: int) | HasRead(mtime: int, file: Node)

  /** `past` holds what was at the path before each rename; `temps` the files under writers' own names. */
  datatype Disk = Disk(
    now: int, path: Option<Node>, past: seq<Option<Node>>, temps: map<nat, Node>,
    writers: map<nat, Writer>, readers: map<nat, Reader>)

  datatype Action =
    | Tick(elapsed: nat)
    | Create(w: nat, data: Bytes)
    | Append(w: nat, n: nat)
    | Sync(w: nat)
    | CloseTemp(w: nat)
    | Chmod(w: nat)
    | Rename(w: nat)
    | Fail(w: nat, removed: bool)
    | Die(w: nat)
    | Stat(r: nat)
    | ReadFile(r: nat)
    | PowerLoss(back: nat, torn: Bytes)

  predicate AtStage(d: Disk, w: nat, stage: Stage) { w in d.writers && w in d.temps && d.writers[w].stage == stage }

  predicate Active(d: Disk, w: nat) {
    AtStage(d, w, Open) || AtStage(d, w, Synced) || AtStage(d, w, Closed) || AtStage(d, w, Ready)
  }

  predicate Can(d: Disk, a: Action) {
    match a
    case Tick(_) => true
    case Create(w, _) => w !in d.writers && w !in d.temps
    case Append(w, n) => AtStage(d, w, Open) && |d.temps[w].content| + n <= |d.writers[w].data|
    case Sync(w) => AtStage(d, w, Open) && |d.temps[w].content| == |d.writers[w].data|
    case CloseTemp(w) => AtStage(d, w, Synced)
    case Chmod(w) => AtStage(d, w, Closed)
    case Rename(w) => AtStage(d, w, Ready)
    case Fail(w, _) => Active(d, w)
    case Die(w) => Active(d, w)
    case Stat(r) => d.path.Some? && r !in d.readers
    case ReadFile(r) => d.path.Some? && r in d.readers && d.readers[r].Statted?
    case PowerLoss(back, _) => back <= |d.past|
  }

  function SetStage(d: Disk, w: nat, stage: Stage): Disk
    requires w in d.writers
  {
    d.(writers := d.writers[w := d.writers[w].(stage := stage)])
  }

  /** What a power loss leaves of a file: bytes that were not synced may be anything. */
  function Survivor(p: Option<Node>, torn: Bytes): Option<Node> {
    if p == None || p.value.durable then p else Some(p.value.(content := torn))
  }

  function Do(d: Disk, a: Action): Disk
    requires Can(d, a)
  {
    match a
    case Tick(elapsed) => d.(now := d.now + elapsed)
    case Create(w, data) =>
      d.(temps := d.temps[w := Node("", d.now, Some(w), false)], writers := d.writers[w := Writer(data, Open)])
    case Append(w, n) =>
      var done := |d.temps[w].content|;
      d.(temps := d.temps[w := Node(d.temps[w].content + d.writers[w].data[done..done + n], d.now, Some(w), false)])
    case Sync(w) => SetStage(d.(temps := d.temps[w := d.temps[w].(durable := true)]), w, Synced)
    case CloseTemp(w) => SetStage(d, w, Closed)
    case Chmod(w) => SetStage(d, w, Ready)
    case Rename(w) => SetStage(d.(path := Some(d.temps[w]), past := d.past + [d.path], temps := d.temps - {w}), w, Done)
    case Fail(w, removed) => SetStage(if removed then d.(temps := d.temps - {w}) else d, w, Errored)
    case Die(w) => SetStage(d, w, Dead)
    case Stat(r) => d.(readers := d.readers[r := Statted(d.path.value.mtime)])
    case ReadFile(r) => d.(readers := d.readers[r := HasRead(d.readers[r].mtime, d.path.value)])
    case PowerLoss(back, torn) =>
      d.(path := Survivor(if back == |d.past| then d.path else d.past[back], torn),
         temps := map[], readers := map[],
         writers := map w | w in d.writers :: if Active(d, w) then d.writers[w].(stage := Dead) else d.writers[w])
  }

  predicate Runs(d: Disk, acts: seq<Action>)
    decreases |acts|
  {
    acts == [] || (Can(d, acts[0]) && Runs(Do(d, acts[0]), acts[1..]))
  }

  function After(d: Disk, acts: seq<Action>): Disk
    requires Runs(d, acts)
    decreases |acts|
  {
    if acts == [] then d else After(Do(d, acts[0]), acts[1..])
  }

  /** A disk on which nothing is under way. */
  function Resting(path: Option<Node>, now: int): Disk { Disk(now, path, [], map[], map[], map[]) }

  lemma {:induction false} OneMore(d: Disk, acts: seq<Action>, a: Action)
    requires Runs(d, acts) && Can(After(d, acts), a)
    ensures Runs(d, acts + [a]) && After(d, acts + [a]) == Do(After(d, acts), a)
    decreases |acts|
  {
    hide Can, Do;
    if acts == [] {
      assert [a][1..] == [];
      assert Runs(Do(d, a), []);
    } else {
      OneMore(Do(d, acts[0]), acts[1..], a);
      assert (acts + [a])[1..] == acts[1..] + [a];
    }
  }

  lemma Begun(d: Disk)
    ensures Runs(d, []) && After(d, []) == d
  {}

  // ---- What is at the path -----------------------------------------------------------------------

  /** The file that was there to begin with, or all the data of a writer whose rename has succeeded. */
  ghost predicate Whole(d: Disk, initial: Option<Node>, p: Option<Node>) {
    || p == initial
    || (p.Some? && p.value.durable && p.value.owner.Some? && p.value.owner.value in d.writers &&
        d.writers[p.value.owner.value] == Writer(p.value.content, Done))
  }

  ghost predicate WriterSound(d: Disk, w: nat) {
    Active(d, w) ==>
      && d.temps[w].owner == Some(w)
      && d.temps[w].content <= d.writers[w].data
      && (d.writers[w].stage != Open ==> d.temps[w].content == d.writers[w].data && d.temps[w].durable)
  }

  ghost predicate Atomic(d: Disk, initial: Option<Node>) {
    && Whole(d, initial, d.path)
    && (forall i :: 0 <= i < |d.past| ==> Whole(d, initial, d.past[i]))
    && (forall w :: w in d.writers ==> WriterSound(d, w))
  }

  lemma WholeKept(d: Disk, a: Action, initial: Option<Node>, p: Option<Node>)
    requires Can(d, a) && Whole(d, initial, p)
    ensures Whole(Do(d, a), initial, p)
  {}

  lemma WritersKept(d: Disk, a: Action, w: nat)
    requires Can(d, a) && (w in d.writers ==> WriterSound(d, w))
    ensures w in Do(d, a).writers ==> WriterSound(Do(d, a), w)
  {
    if a.Append? && a.w == w {
      var done := |d.temps[w].content|;
      assert d.writers[w].data[..done] + d.writers[w].data[done..done + a.n] == d.writers[w].data[..done + a.n];
    }
  }

  lemma AtomicStep(d: Disk, a: Action, initial: Option<Node>)
    requires Can(d, a) && Atomic(d, initial) && (initial.Some? ==> initial.value.durable)
    ensures Atomic(Do(d, a), initial)
  {
    hide WriterSound;
    var r := Do(d, a);
    forall w | w in r.writers ensures WriterSound(r, w) { WritersKept(d, a, w); }
    WholeKept(d, a, initial, d.path);
    forall i | 0 <= i < |d.past| ensures Whole(r, initial, d.past[i]) { WholeKept(d, a, initial, d.past[i]); }
    match a
    case Rename(w) => Renamed(d, w, initial);
    case PowerLoss(back, torn) =>
      if back < |d.past| { assert Whole(d, initial, d.past[back]); }
      var p := if back == |d.past| then d.path else d.past[back];
      assert Survivor(p, torn) == p;
    case _ =>
  }

  lemma Renamed(d: Disk, w: nat, initial: Option<Node>)
    requires Can(d, Rename(w)) && WriterSound(d, w)
    ensures Whole(Do(d, Rename(w)), initial, Do(d, Rename(w)).path)
  {}

  lemma {:induction false} AtomicRun(d: Disk, acts: seq<Action>, initial: Option<Node>)
    requires Runs(d, acts) && Atomic(d, initial) && (initial.Some? ==> initial.value.durable)
    ensures Atomic(After(d, acts), initial)
    decreases |acts|
  {
    hide Can, Do, Atomic;
    if acts != [] {
      AtomicStep(d, acts[0], initial);
      AtomicRun(Do(d, acts[0]), acts[1..], initial);
    }
  }

  /**
   Atomicity: whatever the writers, the failures, the crashes and the power losses, the path
   holds what it held at first or all the data of one writer that finished; a writer that
   returned an error or died has never had a file there.
   */
  lemma PathIsAtomic(initial: Option<Node>, now: int, acts: seq<Action>)
    requires Runs(Resting(initial, now), acts) && (initial.Some? ==> initial.value.durable)
    ensures var d := After(Resting(initial, now), acts);
      d.path == initial ||
      exists w :: w in d.writers && d.path.Some? && d.path.value.owner == Some(w) &&
        d.writers[w] == Writer(d.path.value.content, Done)
    ensures initial.Some? ==> After(Resting(initial, now), acts).path.Some?
    ensures var d := After(Resting(initial, now), acts);
      forall p, w ::
        p in d.past + [d.path] && p.Some? && p != initial && w in d.writers && d.writers[w].stage != Done ==>
          p.value.owner != Some(w)
  {
    hide Runs, After, WriterSound;
    AtomicRun(Resting(initial, now), acts, initial);
  }

  // ---- What readers are told ---------------------------------------------------------------------

  /** A rename that does not bring an older file to the path. */
  predicate Orderly(d: Disk, a: Action)
    requires Can(d, a)
  {
    a.Rename? && d.path.Some? ==> d.path.value.mtime <= d.temps[a.w].mtime
  }

  predicate AllOrderly(d: Disk, acts: seq<Action>)
    requires Runs(d, acts)
    decreases |acts|
  {
    acts == [] || (Orderly(d, acts[0]) && AllOrderly(Do(d, acts[0]), acts[1..]))
  }

  /** The time a reader was told is no later than the time of what it has read, or will read. */
  ghost predicate ReaderSound(d: Disk, r: nat)
    requires r in d.readers
  {
    match d.readers[r]
    case Statted(m) => d.path.Some? && m <= d.path.value.mtime
    case HasRead(m, f) => m <= f.mtime
  }

  ghost predicate ReadersSound(d: Disk) { forall r :: r in d.readers ==> ReaderSound(d, r) }

  lemma ReadersStep(d: Disk, a: Action)
    requires Can(d, a) && Orderly(d, a) && ReadersSound(d)
    ensures ReadersSound(Do(d, a))
  {
    var e := Do(d, a);
    forall r | r in e.readers ensures ReaderSound(e, r) {
      if r in d.readers { assert ReaderSound(d, r); }
    }
  }

  /** If no rename brings an older file, no reader ever takes what it read for younger than it is. */
  lemma {:induction false} AgesNeverUnderstated(d: Disk, acts: seq<Action>, r: nat, now: int)
    requires Runs(d, acts) && AllOrderly(d, acts) && ReadersSound(d)
    requires r in After(d, acts).readers && After(d, acts).readers[r].HasRead?
    ensures var x := After(d, acts).readers[r]; now - x.mtime >= now - x.file.mtime
    decreases |acts|
  {
    hide Can, Do, ReadersSound, Orderly;
    if acts == [] {
      assert ReaderSound(d, r) by { OneReader(d, r); }
    } else {
      ReadersStep(d, acts[0]);
      AgesNeverUnderstated(Do(d, acts[0]), acts[1..], r, now);
    }
  }

  lemma OneReader(d: Disk, r: nat)
    requires ReadersSound(d) && r in d.readers
    ensures ReaderSound(d, r)
  {}

  /** And if one does, a reader on either side of it understates the age of what it reads. */
  lemma DisorderIsSeen(d: Disk, w: nat, r: nat, now: int)
    requires Can(d, Rename(w)) && !Orderly(d, Rename(w)) && r !in d.readers
    ensures var acts := [Stat(r), Rename(w), ReadFile(r)];
      && Runs(d, acts) && r in After(d, acts).readers && After(d, acts).readers[r].HasRead?
      && var x := After(d, acts).readers[r]; now - x.mtime < now - x.file.mtime
  {
    hide Runs, After;
    Begun(d);
    OneMore(d, [], Stat(r));
    OneMore(d, [] + [Stat(r)], Rename(w));
    OneMore(d, [] + [Stat(r)] + [Rename(w)], ReadFile(r));
    assert [] + [Stat(r)] + [Rename(w)] + [ReadFile(r)] == [Stat(r), Rename(w), ReadFile(r)];
  }

  // ---- Writers that do not overlap ---------------------------------------------------------------

  /** A writer begins only when no other is between its create and its rename. */
  ghost predicate Alone(d: Disk, a: Action) { a.Create? ==> forall w :: !Active(d, w) }

  ghost predicate OneAtATime(d: Disk, acts: seq<Action>)
    requires Runs(d, acts)
    decreases |acts|
  {
    acts == [] || (Alone(d, acts[0]) && OneAtATime(Do(d, acts[0]), acts[1..]))
  }

  predicate NoLater(p: Option<Node>, t: int) { p.Some? ==> p.value.mtime <= t }

  /** Nothing is from the future. */
  ghost predicate Timely(d: Disk) {
    && NoLater(d.path, d.now)
    && (forall i :: 0 <= i < |d.past| ==> NoLater(d.past[i], d.now))
    && (forall w :: Active(d, w) ==> d.temps[w].mtime <= d.now)
  }

  /** At most one writer is active, and its file is no older than what is at the path. */
  ghost predicate Single(d: Disk) {
    && (forall v, w :: Active(d, v) && Active(d, w) ==> v == w)
    && (forall w :: Active(d, w) ==> NoLater(d.path, d.temps[w].mtime))
  }

  lemma ActiveBefore(d: Disk, a: Action, w: nat)
    requires Can(d, a) && Active(Do(d, a), w)
    ensures Active(d, w) || (a.Create? && a.w == w && Do(d, a).temps[w].mtime == d.now)
    ensures Active(d, w) ==> Do(d, a).temps[w].mtime == if a.Append? && a.w == w then d.now else d.temps[w].mtime
    ensures (a.Rename? ==> a.w != w) && !a.PowerLoss?
  {}

  lemma TimelyStep(d: Disk, a: Action)
    requires Can(d, a) && Timely(d)
    ensures Timely(Do(d, a))
  {
    var e := Do(d, a);
    forall w | Active(e, w) ensures e.temps[w].mtime <= e.now { ActiveBefore(d, a, w); }
    if a.Rename? { assert Active(d, a.w); }
  }

  lemma SingleStep(d: Disk, a: Action)
    requires Can(d, a) && Alone(d, a) && Timely(d) && Single(d)
    ensures Single(Do(d, a)) && Orderly(d, a)
  {
    hide Timely;
    var e := Do(d, a);
    assert NoLater(d.path, d.now) by { PathTimely(d); }
    if a.Rename? { assert Active(d, a.w); }
    forall w | Active(e, w) ensures NoLater(e.path, e.temps[w].mtime) { ActiveBefore(d, a, w); }
    forall v, w | Active(e, v) && Active(e, w) ensures v == w {
      ActiveBefore(d, a, v);
      ActiveBefore(d, a, w);
    }
  }

  lemma PathTimely(d: Disk)
    requires Timely(d)
    ensures NoLater(d.path, d.now)
  {}

  lemma {:induction false} SequentialRun(d: Disk, acts: seq<Action>)
    requires Runs(d, acts) && OneAtATime(d, acts) && Timely(d) && Single(d)
    ensures AllOrderly(d, acts)
    decreases |acts|
  {
    hide Can, Do, Timely, Single, Orderly, Alone;
    if acts != [] {
      TimelyStep(d, acts[0]);
      SingleStep(d, acts[0]);
      SequentialRun(Do(d, acts[0]), acts[1..]);
    }
  }

  /**
   With writers that do not overlap, a reader that stats and then reads never computes an age
   smaller than that of the version it read, whatever happens in between.
   */
  lemma ReadersAreSafe(initial: Option<Node>, now: int, acts: seq<Action>, r: nat, later: int)
    requires NoLater(initial, now)
    requires Runs(Resting(initial, now), acts) && OneAtATime(Resting(initial, now), acts)
    requires r in After(Resting(initial, now), acts).readers && After(Resting(initial, now), acts).readers[r].HasRead?
    ensures var x := After(Resting(initial, now), acts).readers[r]; later - x.mtime >= later - x.file.mtime
  {
    hide Runs, After, OneAtATime, AllOrderly;
    SequentialRun(Resting(initial, now), acts);
    AgesNeverUnderstated(Resting(initial, now), acts, r, later);
  }

  // ---- Writers that overlap ----------------------------------------------------------------------

  /** One writer alone, through some of its steps. */
  lemma FillAndSync(d: Disk, acts: seq<Action>, w: nat) returns (more: seq<Action>)
    requires Runs(d, acts) && AtStage(After(d, acts), w, Open) &&
             After(d, acts).temps[w].content == After(d, acts).writers[w].data
    ensures Runs(d, more) && AtStage(After(d, more), w, Ready)
    ensures After(d, more) ==
      SetStage(After(d, acts).(temps := After(d, acts).temps[w := After(d, acts).temps[w].(durable := true)]), w, Ready)
  {
    hide Runs, After;
    OneMore(d, acts, Sync(w));
    OneMore(d, acts + [Sync(w)], CloseTemp(w));
    OneMore(d, acts + [Sync(w)] + [CloseTemp(w)], Chmod(w));
    more := acts + [Sync(w)] + [CloseTemp(w)] + [Chmod(w)];
  }

  /** Two writers with their files filled, the second `late` after the first. */
  lemma TwoFilled(data: Bytes, late: nat) returns (acts: seq<Action>)
    ensures Runs(Resting(None, 0), acts)
    ensures After(Resting(None, 0), acts) == Disk(late, None, [],
      map[0 := Node(data, 0, Some(0), false), 1 := Node(data, late, Some(1), false)],
      map[0 := Writer(data, Open), 1 := Writer(data, Open)], map[])
  {
    hide Runs, After;
    var d := Resting(None, 0);
    assert Runs(d, []) && After(d, []) == d by { Begun(d); }
    acts := [];
    OneMore(d, acts, Create(0, data));
    acts := acts + [Create(0, data)];
    OneMore(d, acts, Append(0, |data|));
    acts := acts + [Append(0, |data|)];
    OneMore(d, acts, Tick(late));
    acts := acts + [Tick(late)];
    OneMore(d, acts, Create(1, data));
    acts := acts + [Create(1, data)];
    OneMore(d, acts, Append(1, |data|));
    acts := acts + [Append(1, |data|)];
    assert "" + data[0..0 + |data|] == data;
  }

  /** Two writers that overlap can mislead a reader: the first to write may be the last to rename. */
  lemma OverlapMisleads(data: Bytes, late: nat) returns (acts: seq<Action>)
    requires late > 0
    ensures Runs(Resting(None, 0), acts)
    ensures var d := After(Resting(None, 0), acts);
      2 in d.readers && d.readers[2].HasRead? && d.readers[2].mtime == late && d.readers[2].file.mtime == 0
  {
    hide Runs, After;
    var d := Resting(None, 0);
    acts := TwoFilled(data, late);
    acts := FillAndSync(d, acts, 1);
    OneMore(d, acts, Rename(1));
    acts := acts + [Rename(1)];
    acts := FillAndSync(d, acts, 0);
    OneMore(d, acts, Stat(2));
    acts := acts + [Stat(2)];
    OneMore(d, acts, Rename(0));
    acts := acts + [Rename(0)];
    OneMore(d, acts, ReadFile(2));
    acts := acts + [ReadFile(2)];
  }

  // ---- The writer as written ---------------------------------------------------------------------

  /** What a writer meets: how many bytes are accepted, and which step, if any, reports an error. */
  datatype Trouble = Trouble(
    mkdir: bool, create: bool, accepted: nat, write: bool, sync: bool, close: bool, chmod: bool, rename: bool,
    remove: bool)

  class Directory {
    var d: Disk
    ghost var acts: seq<Action>

    /** The actions so far lead from `initial` to here. */
    ghost predicate Valid(initial: Disk)
      reads this
    {
      Runs(initial, acts) && After(initial, acts) == d
    }

    method Take(a: Action, ghost initial: Disk)
      requires Valid(initial) && Can(d, a)
      modifies this
      ensures Valid(initial) && acts == old(acts) + [a] && d == Do(old(d), a)
    {
      OneMore(initial, acts, a);
      acts := acts + [a];
      d := Do(d, a);
    }

    /** A temporary file with the first n bytes of the data. */
    method Fill(w: nat, data: Bytes, n: nat, ghost initial: Disk)
      requires Valid(initial) && w !in d.writers && w !in d.temps && n <= |data|
      modifies this
      ensures Valid(initial) && AtStage(d, w, Open) && d.writers[w].data == data
      ensures d == old(d).(
        temps := old(d).temps[w := Node(data[..n], d.now, Some(w), false)],
        writers := old(d).writers[w := Writer(data, Open)])
    {
      hide Runs, After;
      Take(Create(w, data), initial);
      Take(Append(w, n), initial);
      assert "" + data[0..0 + n] == data[..n];
    }

    /** Writer w is at this stage with all its data, and has changed nothing but its temporary file since `before`. */
    ghost predicate Doing(before: Disk, w: nat, data: Bytes, stage: Stage)
      reads this
    {
      && AtStage(d, w, stage) && d.writers[w].data == data
      && d.temps[w] == Node(data, before.now, Some(w), stage != Open)
      && d.temps - {w} == before.temps && Untouched(before)
    }

    ghost predicate Untouched(before: Disk)
      reads this
    {
      d.path == before.path && d.past == before.past && d.readers == before.readers && d.now == before.now
    }

    /** A step that succeeds on the way from the filled file to the file that is ready to be renamed. */
    method Proceed(a: Action, w: nat, data: Bytes, from: Stage, to: Stage, ghost before: Disk, ghost initial: Disk)
      requires Valid(initial) && Doing(before, w, data, from)
      requires (a, from, to) in {(Sync(w), Open, Synced), (CloseTemp(w), Synced, Closed), (Chmod(w), Closed, Ready)}
      modifies this
      ensures Valid(initial) && Doing(before, w, data, to)
    {
      hide Valid;
      Take(a, initial);
    }

    /** The error returns: the temporary file is removed if it can be, and nothing else changes. */
    method GiveUp(w: nat, removed: bool, ghost before: Disk, ghost initial: Disk)
      requires Valid(initial) && Active(d, w) && d.temps - {w} == before.temps && Untouched(before)
      modifies this
      ensures Valid(initial) && Untouched(before)
      ensures d.temps - {w} == before.temps && (removed ==> w !in d.temps)
    {
      hide Valid;
      Take(Fail(w, removed), initial);
    }

    /** writeServerListCache by writer w, whose temporary file gets a name that is not taken. */
    method WriteCache(w: nat, data: Bytes, t: Trouble, ghost initial: Disk) returns (ok: bool)
      requires Valid(initial) && w !in d.writers && w !in d.temps
      modifies this
      ensures Valid(initial)
      ensures ok <==>
        t.mkdir && t.create && t.write && t.accepted >= |data| && t.sync && t.close && t.chmod && t.rename
      ensures ok ==> d.path == Some(Node(data, old(d).now, Some(w), true)) && d.past == old(d).past + [old(d).path]
      ensures !ok ==> d.path == old(d).path && d.past == old(d).past
      ensures d.temps - {w} == old(d).temps && (ok || t.remove || !t.mkdir || !t.create ==> w !in d.temps)
      ensures d.readers == old(d).readers && d.now == old(d).now
    {
      hide Valid;
      ok := false;
      ghost var before := d;
      assert d.temps - {w} == before.temps;
      if !t.mkdir || !t.create { return; }
      var n := if t.accepted < |data| then t.accepted else |data|;
      Fill(w, data, n, initial);
      assert data[..|data|] == data && d.temps - {w} == before.temps;
      if !t.write || n < |data| || !t.sync {
        GiveUp(w, t.remove, before, initial);
        return;
      }
      Proceed(Sync(w), w, data, Open, Synced, before, initial);
      if !t.close {
        GiveUp(w, t.remove, before, initial);
        return;
      }
      Proceed(CloseTemp(w), w, data, Synced, Closed, before, initial);
      if !t.chmod {
        GiveUp(w, t.remove, before, initial);
        return;
      }
      Proceed(Chmod(w), w, data, Closed, Ready, before, initial);
      if !t.rename {
        GiveUp(w, t.remove, before, initial);
        return;
      }
      Take(Rename(w), initial);
      ok := true;
    }
  }
}
