/**
 The constrained command line. `ParseArgs` is the parser as a function on what is left of
 the arguments, `ReadArgs` the parser as written, and `ArgvExact` says which command lines
 it accepts: interleavings of the six descriptor flags and an optional mark.
 */
module Argv {
  import opened Text

  const MARK: Bytes := "socket-mark"

  const FD_FLAGS: set<Bytes> := {
    "constrained-plan-fd", "credentials-fd", "public-ca-fd", "regional-ca-fd", "config-fd", "result-fd"}

  predicate StartsDash(s: Bytes) { |s| >= 1 && s[0] == '-' }

  predicate StartsDashes(s: Bytes) { |s| >= 2 && s[0] == '-' && s[1] == '-' }

  /** The part before the first '='; all of it if there is none. */
  function UpToEquals(s: Bytes): Bytes { UpTo(s, '=') }

  predicate HasEquals(s: Bytes) { |UpToEquals(s)| < |s| }

  /** The part after the first '='. */
  function AfterEquals(s: Bytes): Bytes
    requires HasEquals(s)
  {
    s[|UpToEquals(s)| + 1..]
  }

  /** rawFlagName. */
  function RawFlagName(arg: Bytes): Bytes {
    if StartsDashes(arg) && |arg| > 2 then UpToEquals(arg[2..])
    else if StartsDash(arg) then arg[1..]
    else ""
  }

  const MAX_INT: int := 0x7FFF_FFFF_FFFF_FFFF

  /** strconv.Atoi: an optional sign and decimal digits, within 64 bits. */
  function Atoi(s: Bytes): Option<int> {
    var digits := if s != "" && (s[0] == '+' || s[0] == '-') then s[1..] else s;
    if digits == "" || !AllDigits(digits) then None
    else
      DigitsAreNumeral(digits);
      var magnitude: int := NumberOf(digits, 10);
      var n := if s[0] == '-' then -magnitude else magnitude;
      if -MAX_INT - 1 <= n <= MAX_INT then Some(n) else None
  }

  datatype Problem = Positional | NoName | Duplicate | Incompatible | MissingValue | BadDescriptor | MissingDescriptor

  datatype Parsed = Parsed(values: map<Bytes, int>, mark: Option<Bytes>, problem: Option<Problem>)

  function ParseArgs(args: seq<Bytes>, values: map<Bytes, int>, mark: Option<Bytes>, seen: set<Bytes>): Parsed {
    if args == [] then
      Parsed(values, mark, if FD_FLAGS <= values.Keys then None else Some(MissingDescriptor))
    else
      var arg := args[0];
      var name := RawFlagName(arg);
      if arg == "--" || !StartsDash(arg) then Parsed(values, mark, Some(Positional))
      else if name == "" then Parsed(values, mark, Some(NoName))
      else if name in seen then Parsed(values, mark, Some(Duplicate))
      else if name !in FD_FLAGS && name != MARK then Parsed(values, mark, Some(Incompatible))
      else if !HasEquals(arg) && |args| == 1 then Parsed(values, mark, Some(MissingValue))
      else
        var value := if HasEquals(arg) then AfterEquals(arg) else args[1];
        var rest := if HasEquals(arg) then args[1..] else args[2..];
        if name == MARK then ParseArgs(rest, values, Some(value), seen + {name})
        else
          match Atoi(value)
          case None => Parsed(values, mark, Some(BadDescriptor))
          case Some(fd) => ParseArgs(rest, values[name := fd], mark, seen + {name})
  }

  function ParseCommandLine(args: seq<Bytes>): Parsed { ParseArgs(args, map[], None, {}) }

  /** parseRawConstrainedArgs as written. */
  method ReadArgs(args: seq<Bytes>) returns (r: Parsed)
    ensures r == ParseCommandLine(args)
  {
    hide RawFlagName, UpToEquals, Atoi;
    var values: map<Bytes, int> := map[];
    var mark: Option<Bytes> := None;
    var seen: set<Bytes> := {};
    var i := 0;
    assert args[0..] == args;
    while i < |args|
      invariant i <= |args|
      invariant ParseCommandLine(args) == ParseArgs(args[i..], values, mark, seen)
    {
      ghost var left := args[i..];
      assert left[1..] == args[i + 1..];
      var arg := args[i];
      if arg == "--" || !StartsDash(arg) { return Parsed(values, mark, Some(Positional)); }
      var name := RawFlagName(arg);
      if name == "" { return Parsed(values, mark, Some(NoName)); }
      if name in seen { return Parsed(values, mark, Some(Duplicate)); }
      seen := seen + {name};
      if name !in FD_FLAGS && name != MARK { return Parsed(values, mark, Some(Incompatible)); }
      var value;
      if HasEquals(arg) {
        value := AfterEquals(arg);
      } else {
        i := i + 1;
        if i >= |args| { return Parsed(values, mark, Some(MissingValue)); }
        assert left[2..] == args[i + 1..];
        value := args[i];
      }
      i := i + 1;
      if name == MARK {
        mark := Some(value);
        continue;
      }
      var fd := Atoi(value);
      if fd == None { return Parsed(values, mark, Some(BadDescriptor)); }
      values := values[name := fd.value];
    }
    return Parsed(values, mark, if FD_FLAGS <= values.Keys then None else Some(MissingDescriptor));
  }

  // ---- Which command lines are accepted ----------------------------------------------------

  datatype Form = Spaced | Joined | Short  // --n v, --n=v, -n v

  datatype Item = Item(name: Bytes, value: Bytes, form: Form)

  function Spell(i: Item): seq<Bytes> {
    match i.form
    case Spaced => ["--" + i.name, i.value]
    case Joined => ["--" + i.name + "=" + i.value]
    case Short => ["-" + i.name, i.value]
  }

  function SpellAll(items: seq<Item>): seq<Bytes> {
    if items == [] then [] else Spell(items[0]) + SpellAll(items[1..])
  }

  predicate ProperItem(i: Item) {
    i.name == MARK || (i.name in FD_FLAGS && Atoi(i.value).Some?)
  }

  /** Known flags with readable descriptors, none of them twice and none of `seen`. */
  predicate Proper(items: seq<Item>, seen: set<Bytes>) {
    items == [] ||
    (ProperItem(items[0]) && items[0].name !in seen && Proper(items[1..], seen + {items[0].name}))
  }

  function ValuesOf(items: seq<Item>, values: map<Bytes, int>): map<Bytes, int> {
    if items == [] then values
    else
      var i := items[0];
      var more := if i.name != MARK && Atoi(i.value).Some? then values[i.name := Atoi(i.value).value] else values;
      ValuesOf(items[1..], more)
  }

  function MarkOf(items: seq<Item>, mark: Option<Bytes>): Option<Bytes> {
    if items == [] then mark
    else MarkOf(items[1..], if items[0].name == MARK then Some(items[0].value) else mark)
  }

  predicate PlainName(n: Bytes) { n != "" && n[0] != '-' && forall i :: 0 <= i < |n| ==> n[i] != '=' }

  lemma KnownNamesPlain(n: Bytes)
    requires n in FD_FLAGS || n == MARK
    ensures PlainName(n)
  {}

  lemma UpToEqualsOf(n: Bytes, v: Bytes)
    requires forall i :: 0 <= i < |n| ==> n[i] != '='
    ensures UpToEquals(n + "=" + v) == n && UpToEquals(n) == n
  {
    UpToFirst(n, '=', v);
    assert n + "=" + v == n + (['='] + v);
  }

  /** How a spelled flag is read. */
  lemma SpellReads(i: Item)
    requires PlainName(i.name)
    ensures var arg := Spell(i)[0];
      && StartsDash(arg) && arg != "--" && RawFlagName(arg) == i.name
      && (HasEquals(arg) <==> i.form.Joined?)
      && (i.form.Joined? ==> AfterEquals(arg) == i.value)
  {
    var n := i.name;
    match i.form
    case Spaced =>
      assert ("--" + n)[2..] == n;
      UpToEqualsOf(n, "");
      UpToEqualsOf("--" + n, "");
    case Short =>
      assert ("-" + n)[1..] == n && !StartsDashes("-" + n);
      UpToEqualsOf("-" + n, "");
    case Joined =>
      var arg := "--" + n + "=" + i.value;
      assert arg[2..] == n + "=" + i.value;
      UpToEqualsOf(n, i.value);
      UpToEqualsOf("--" + n, i.value);
  }

  lemma {:induction false} ItemsAccepted(items: seq<Item>, values: map<Bytes, int>, mark: Option<Bytes>,
                                         seen: set<Bytes>)
    requires Proper(items, seen)
    ensures ParseArgs(SpellAll(items), values, mark, seen) ==
      ParseArgs([], ValuesOf(items, values), MarkOf(items, mark), {})
  {
    hide RawFlagName, UpToEquals, Atoi;
    if items != [] {
      var i := items[0];
      var args := SpellAll(items);
      KnownNamesPlain(i.name);
      SpellReads(i);
      var rest := SpellAll(items[1..]);
      assert args == Spell(i) + rest && args[0] == Spell(i)[0];
      if i.form.Joined? {
        assert args[1..] == rest;
      } else {
        assert args[2..] == rest && args[1] == i.value;
      }
      if i.name == MARK {
        ItemsAccepted(items[1..], values, Some(i.value), seen + {i.name});
      } else {
        ItemsAccepted(items[1..], values[i.name := Atoi(i.value).value], mark, seen + {i.name});
      }
    }
  }

  lemma UpToEqualsSplits(s: Bytes)
    ensures HasEquals(s) ==> s == UpToEquals(s) + "=" + AfterEquals(s)
    ensures !HasEquals(s) ==> s == UpToEquals(s)
    ensures forall i :: 0 <= i < |UpToEquals(s)| ==> UpToEquals(s)[i] != '=' && UpToEquals(s)[i] == s[i]
  {
    hide UpTo;
    if HasEquals(s) { Rejoined(s, |UpToEquals(s)|); }
  }

  lemma Rejoined(s: Bytes, i: nat)
    requires i < |s|
    ensures s == s[..i] + [s[i]] + s[i + 1..]
  {}

  /** A flag the parser takes is one of the three spellings of its name. */
  lemma SpelledBack(arg: Bytes, name: Bytes)
    requires StartsDash(arg) && arg != "--" && name == RawFlagName(arg) && PlainName(name)
    ensures HasEquals(arg) ==> arg == "--" + name + "=" + AfterEquals(arg)
    ensures !HasEquals(arg) ==> arg == "--" + name || arg == "-" + name
  {
    UpToEqualsSplits(arg);
    if StartsDashes(arg) && |arg| > 2 {
      var tail := arg[2..];
      UpToEqualsSplits(tail);
      assert arg == "--" + tail;
      TwoBefore(arg);
    } else {
      assert arg == "-" + arg[1..];
      assert forall i :: 0 <= i < |arg| ==> arg[i] == if i == 0 then '-' else name[i - 1];
      UpToEqualsOf(arg, "");
    }
  }

  lemma OneBefore(arg: Bytes)
    requires arg != "" && arg[0] == '-'
    ensures UpToEquals(arg) == "-" + UpToEquals(arg[1..])
    ensures HasEquals(arg) <==> HasEquals(arg[1..])
    ensures HasEquals(arg) ==> AfterEquals(arg) == AfterEquals(arg[1..])
  {}

  lemma TwoBefore(arg: Bytes)
    requires |arg| > 2 && arg[0] == '-' && arg[1] == '-'
    ensures UpToEquals(arg) == "--" + UpToEquals(arg[2..])
    ensures HasEquals(arg) <==> HasEquals(arg[2..])
    ensures HasEquals(arg) ==> AfterEquals(arg) == AfterEquals(arg[2..])
  {
    hide UpToEquals, AfterEquals;
    OneBefore(arg);
    OneBefore(arg[1..]);
    assert arg[1..][1..] == arg[2..];
    DashDash(UpToEquals(arg[2..]));
  }

  lemma DashDash(s: Bytes)
    ensures "-" + ("-" + s) == "--" + s
  {}

  lemma {:induction false} ArgsParsed(args: seq<Bytes>, values: map<Bytes, int>, mark: Option<Bytes>, seen: set<Bytes>)
      returns (items: seq<Item>)
    requires ParseArgs(args, values, mark, seen).problem == None
    ensures SpellAll(items) == args && Proper(items, seen)
    decreases |args|
  {
    hide RawFlagName, UpToEquals, AfterEquals, Atoi, Spell;
    if args == [] {
      items := [];
    } else {
      var arg, name := args[0], RawFlagName(args[0]);
      KnownNamesPlain(name);
      SpelledBack(arg, name);
      var value := if HasEquals(arg) then AfterEquals(arg) else args[1];
      var rest := if HasEquals(arg) then args[1..] else args[2..];
      var form := if HasEquals(arg) then Joined else if arg == "--" + name then Spaced else Short;
      var item := Item(name, value, form);
      var more;
      if name == MARK {
        more := ArgsParsed(rest, values, Some(value), seen + {name});
      } else {
        more := ArgsParsed(rest, values[name := Atoi(value).value], mark, seen + {name});
      }
      items := [item] + more;
      assert items[1..] == more;
      Respelled(args, item, rest);
    }
  }

  lemma Respelled(args: seq<Bytes>, item: Item, rest: seq<Bytes>)
    requires args != []
    requires if item.form.Joined? then args[0] == "--" + item.name + "=" + item.value && rest == args[1..]
      else |args| >= 2 && args[0] == (if item.form.Spaced? then "--" else "-") + item.name &&
           args[1] == item.value && rest == args[2..]
    ensures Spell(item) + rest == args
  {
    if !item.form.Joined? {
      assert args == [args[0], args[1]] + args[2..];
    }
  }

  /** The items spell this command line and mean these values and this mark. */
  ghost predicate Means(items: seq<Item>, args: seq<Bytes>, values: map<Bytes, int>, mark: Option<Bytes>) {
    && SpellAll(items) == args && Proper(items, {})
    && values == ValuesOf(items, map[]) && mark == MarkOf(items, None) && FD_FLAGS <= values.Keys
  }

  /** Accepted, with these values, exactly when it is such an interleaving. */
  lemma ArgvExact(args: seq<Bytes>, values: map<Bytes, int>, mark: Option<Bytes>)
    ensures ParseCommandLine(args) == Parsed(values, mark, None) <==>
            exists items :: Means(items, args, values, mark)
  {
    hide SpellAll, Proper, ValuesOf, MarkOf;
    if ParseCommandLine(args) == Parsed(values, mark, None) {
      var items := ArgsParsed(args, map[], None, {});
      ItemsAccepted(items, map[], None, {});
      assert Means(items, args, values, mark);
    }
    if items :| Means(items, args, values, mark) {
      ItemsAccepted(items, map[], None, {});
    }
  }

  // ---- The other two scanners ----------------------------------------------------------------

  /** The flags that select constrained mode; --credentials-fd alone does not. */
  const SELECTING: set<Bytes> := {"constrained-plan-fd", "public-ca-fd", "regional-ca-fd", "config-fd", "result-fd"}

  function Requested(args: seq<Bytes>): bool {
    args != [] && args[0] != "--" && (RawFlagName(args[0]) in SELECTING || Requested(args[1..]))
  }

  /** rawConstrainedRequested as written. */
  method ReadRequested(args: seq<Bytes>) returns (r: bool)
    ensures r == Requested(args)
  {
    hide RawFlagName;
    assert args[0..] == args;
    for i := 0 to |args|
      invariant Requested(args) == Requested(args[i..])
    {
      assert args[i..][1..] == args[i + 1..];
      if args[i] == "--" { return false; }
      if RawFlagName(args[i]) in SELECTING { return true; }
    }
    return false;
  }

  function LongName(arg: Bytes): Bytes
    requires StartsDashes(arg)
  {
    UpToEquals(arg[2..])
  }

  function Repeats(args: seq<Bytes>, seen: set<Bytes>): bool {
    if args == [] || args[0] == "--" then false
    else if !StartsDashes(args[0]) then Repeats(args[1..], seen)
    else LongName(args[0]) in seen || Repeats(args[1..], seen + {LongName(args[0])})
  }

  /** rejectDuplicateLongFlags as written. */
  method ReadRepeats(args: seq<Bytes>) returns (r: bool)
    ensures r == Repeats(args, {})
  {
    hide UpToEquals;
    var seen: set<Bytes> := {};
    var i := 0;
    assert args[0..] == args;
    while i < |args|
      invariant i <= |args|
      invariant Repeats(args, {}) == Repeats(args[i..], seen)
    {
      var arg := args[i];
      assert args[i..][1..] == args[i + 1..];
      if arg == "--" { break; }
      i := i + 1;
      if !StartsDashes(arg) { continue; }
      if LongName(arg) in seen { return true; }
      seen := seen + {LongName(arg)};
    }
    return false;
  }

  predicate Long(i: Item) { !i.form.Short? }

  /** The value of a flag stands alone on the command line. */
  predicate Loose(i: Item) { !i.form.Joined? }

  /** A loose mark value that the scanners that do not skip values take for a long flag. */
  predicate Disguised(i: Item) { i.name == MARK && Loose(i) && StartsDashes(i.value) && |i.value| > 2 }

  /** A loose mark value that ends their scan. */
  predicate Ending(i: Item) { i.name == MARK && Loose(i) && i.value == "--" }

  lemma DescriptorIsNoFlag(v: Bytes)
    requires Atoi(v).Some?
    ensures !StartsDashes(v) && v != "--" && RawFlagName(v) !in SELECTING
  {
    var digits := if v != "" && (v[0] == '+' || v[0] == '-') then v[1..] else v;
    assert v[0] == '-' ==> v[1] == digits[0];
    if StartsDash(v) {
      assert RawFlagName(v)[0] == digits[0];
    }
  }

  lemma SpellLong(i: Item)
    requires PlainName(i.name)
    ensures var arg := Spell(i)[0];
      && (StartsDashes(arg) <==> Long(i)) && (Long(i) ==> LongName(arg) == i.name) && arg != "--"
  {
    SpellReads(i);
    if Long(i) {
      var arg := Spell(i)[0];
      assert |arg| > 2;
    } else {
      assert Spell(i)[0][1] == i.name[0];
    }
  }

  /** One item's arguments, as the request scanner sees them. */
  lemma RequestedItem(i: Item, rest: seq<Bytes>)
    requires ProperItem(i)
    ensures Requested(Spell(i) + rest) ==
      (i.name in SELECTING ||
       (if i.name == MARK && Loose(i) then i.value != "--" && (RawFlagName(i.value) in SELECTING || Requested(rest))
        else Requested(rest)))
  {
    hide RawFlagName, UpToEquals, Atoi;
    KnownNamesPlain(i.name);
    SpellReads(i);
    var args := Spell(i) + rest;
    assert args[0] == Spell(i)[0];
    if Loose(i) {
      assert args[1..] == [i.value] + rest && args[1..][0] == i.value && args[1..][1..] == rest;
      if i.name != MARK { DescriptorIsNoFlag(i.value); }
    } else {
      assert args[1..] == rest;
    }
  }

  /** The mode is not recognised exactly when a loose mark value "--" comes before every selecting flag. */
  ghost predicate Hidden(items: seq<Item>) {
    exists k :: 0 <= k < |items| && Ending(items[k]) && forall j :: 0 <= j < k ==> items[j].name !in SELECTING
  }

  lemma {:induction false} SeenGone(items: seq<Item>, seen: set<Bytes>, name: Bytes)
    requires Proper(items, seen) && name in seen
    ensures forall k :: 0 <= k < |items| ==> items[k].name != name
  {
    hide ProperItem;
    if items != [] {
      SeenGone(items[1..], seen + {items[0].name}, name);
      assert forall k :: 0 < k < |items| ==> items[k] == items[1..][k - 1];
    }
  }

  lemma {:induction false} RequestedUnless(items: seq<Item>, seen: set<Bytes>)
    requires Proper(items, seen) && exists k :: 0 <= k < |items| && items[k].name in SELECTING
    ensures Requested(SpellAll(items)) <==> !Hidden(items)
  {
    hide Requested, RawFlagName, Atoi, Spell;
    var i, rest := items[0], items[1..];
    RequestedItem(i, SpellAll(rest));
    if i.name in SELECTING {
      assert !Hidden(items);
    } else if Ending(i) {
      assert Hidden(items);
    } else if i.name == MARK {
      SeenGone(rest, seen + {MARK}, MARK);
      var k :| 0 <= k < |items| && items[k].name in SELECTING;
      assert rest[k - 1] == items[k];
      RequestedUnless(rest, seen + {i.name});
      assert forall j :: 0 < j < |items| ==> items[j] == rest[j - 1];
    } else {
      var k :| 0 <= k < |items| && items[k].name in SELECTING;
      assert rest[k - 1] == items[k];
      RequestedUnless(rest, seen + {i.name});
      HiddenTail(items);
    }
  }

  lemma HiddenTail(items: seq<Item>)
    requires items != [] && !Ending(items[0]) && items[0].name !in SELECTING
    ensures Hidden(items) <==> Hidden(items[1..])
  {
    var rest := items[1..];
    assert forall j :: 0 <= j < |rest| ==> rest[j] == items[j + 1];
    if Hidden(items) {
      var k :| 0 <= k < |items| && Ending(items[k]) && forall j :: 0 <= j < k ==> items[j].name !in SELECTING;
      assert Ending(rest[k - 1]);
    }
    if Hidden(rest) {
      var k :| 0 <= k < |rest| && Ending(rest[k]) && forall j :: 0 <= j < k ==> rest[j].name !in SELECTING;
      assert Ending(items[k + 1]);
      assert forall j :: 0 < j < k + 1 ==> items[j] == rest[j - 1];
    }
  }

  function LongNames(items: seq<Item>): set<Bytes> {
    set k | 0 <= k < |items| && Long(items[k]) :: items[k].name
  }

  lemma LongNamesCons(items: seq<Item>)
    requires items != []
    ensures LongNames(items) == LongNames(items[1..]) + if Long(items[0]) then {items[0].name} else {}
  {
    var rest := items[1..];
    forall n | n in LongNames(items) ensures n in LongNames(rest) + if Long(items[0]) then {items[0].name} else {} {
      var k :| 0 <= k < |items| && Long(items[k]) && items[k].name == n;
      assert k > 0 ==> rest[k - 1] == items[k];
    }
    forall n | n in LongNames(rest) ensures n in LongNames(items) {
      var k :| 0 <= k < |rest| && Long(rest[k]) && rest[k].name == n;
      assert items[k + 1] == rest[k];
    }
  }

  /** One item's arguments, as the duplicate scanner sees them. */
  lemma RepeatsItem(i: Item, rest: seq<Bytes>, seen: set<Bytes>)
    requires ProperItem(i)
    ensures var next := if Long(i) then seen + {i.name} else seen;
      Repeats(Spell(i) + rest, seen) ==
      ((Long(i) && i.name in seen) ||
       (if Ending(i) then false
        else if Disguised(i) then LongName(i.value) in next || Repeats(rest, next + {LongName(i.value)})
        else Repeats(rest, next)))
  {
    hide UpToEquals, Atoi;
    KnownNamesPlain(i.name);
    SpellLong(i);
    var args := Spell(i) + rest;
    assert args[0] == Spell(i)[0];
    if Loose(i) {
      assert args[1..] == [i.value] + rest && args[1..][0] == i.value && args[1..][1..] == rest;
      if i.name != MARK { DescriptorIsNoFlag(i.value); }
      assert |i.value| == 2 && StartsDashes(i.value) ==> i.value == "--";
    } else {
      assert args[1..] == rest;
    }
  }

  lemma NoArguments(seen: set<Bytes>)
    ensures !Repeats([], seen)
  {}

  /** Without a disguised or ending mark value, only names seen before repeat. */
  lemma {:induction false} RepeatsPlain(items: seq<Item>, seen: set<Bytes>, met: set<Bytes>)
    requires Proper(items, met)
    requires forall k :: 0 <= k < |items| ==> !Disguised(items[k]) && !Ending(items[k])
    ensures Repeats(SpellAll(items), seen) <==> LongNames(items) * seen != {}
  {
    hide Repeats, Spell, ProperItem, Disguised, Ending;
    NoArguments(seen);
    if items != [] {
      var i, rest := items[0], items[1..];
      var next := if Long(i) then seen + {i.name} else seen;
      RepeatsItem(i, SpellAll(rest), seen);
      LongNamesCons(items);
      SeenGone(rest, met + {i.name}, i.name);
      assert forall k :: 0 <= k < |rest| ==> rest[k] == items[k + 1];
      RepeatsPlain(rest, next, met + {i.name});
      assert i.name !in LongNames(rest);
      assert LongNames(rest) * next == LongNames(rest) * seen;
      assert LongNames(items) * seen == (LongNames(rest) * seen) + if Long(i) && i.name in seen then {i.name} else {};
    } else {
      assert LongNames(items) == {};
    }
  }

  /**
   A repeat is reported exactly when the mark value, standing alone, is spelled like a
   two-dash flag whose name the command line writes with two dashes.
   */
  ghost predicate Clashes(items: seq<Item>) {
    exists k :: 0 <= k < |items| && Disguised(items[k]) && LongName(items[k].value) in LongNames(items)
  }

  lemma {:induction false} RepeatsOnlyIf(items: seq<Item>, seen: set<Bytes>, met: set<Bytes>, k: nat)
    requires Proper(items, met) && k < |items| && Disguised(items[k])
    requires LongNames(items) * seen == {}
    ensures Repeats(SpellAll(items), seen) <==> LongName(items[k].value) in LongNames(items) + seen
  {
    hide Repeats, Spell, ProperItem, UpToEquals;
    var i, rest := items[0], items[1..];
    var next := if Long(i) then seen + {i.name} else seen;
    RepeatsItem(i, SpellAll(rest), seen);
    LongNamesCons(items);
    SeenGone(rest, met + {i.name}, i.name);
    assert i.name !in LongNames(rest);
    assert i.name in LongNames(items) && i.name in seen ==> i.name in LongNames(items) * seen;
    if k == 0 {
      var x := LongName(i.value);
      RepeatsPlain(rest, next + {x}, met + {i.name});
      assert LongNames(rest) * next == {};
      assert LongNames(rest) * (next + {x}) == if x in LongNames(rest) then {x} else {};
    } else {
      assert rest[k - 1] == items[k] && i.name != MARK;
      assert LongNames(rest) * next == {};
      RepeatsOnlyIf(rest, next, met + {i.name}, k - 1);
    }
  }

  lemma {:induction false} NoRepeatsBeforeEnd(items: seq<Item>, seen: set<Bytes>, met: set<Bytes>)
    requires Proper(items, met) && LongNames(items) * seen == {}
    requires forall k :: 0 <= k < |items| ==> !Disguised(items[k])
    ensures !Repeats(SpellAll(items), seen)
  {
    hide Repeats, Spell, ProperItem, UpToEquals;
    NoArguments(seen);
    if items != [] {
      var i, rest := items[0], items[1..];
      var next := if Long(i) then seen + {i.name} else seen;
      RepeatsItem(i, SpellAll(rest), seen);
      LongNamesCons(items);
      SeenGone(rest, met + {i.name}, i.name);
      assert i.name !in LongNames(rest) && LongNames(rest) * next == {};
      assert i.name in LongNames(items) && i.name in seen ==> i.name in LongNames(items) * seen;
      assert forall k :: 0 <= k < |rest| ==> rest[k] == items[k + 1];
      NoRepeatsBeforeEnd(rest, next, met + {i.name});
    }
  }

  lemma RepeatsExact(items: seq<Item>)
    requires Proper(items, {})
    ensures Repeats(SpellAll(items), {}) <==> Clashes(items)
  {
    hide Repeats, SpellAll, Proper, LongNames, UpToEquals;
    if k :| 0 <= k < |items| && Disguised(items[k]) {
      RepeatsOnlyIf(items, {}, {}, k);
      if Clashes(items) {
        var j :| 0 <= j < |items| && Disguised(items[j]) && LongName(items[j].value) in LongNames(items);
        RepeatsOnlyIf(items, {}, {}, j);
      }
    } else {
      NoRepeatsBeforeEnd(items, {}, {});
    }
  }

  /**
   The three scanners on an accepted command line: it is recognised unless hidden by "--",
   and no repeat is reported unless the mark value clashes. So with a mark value that does
   not begin with "--" the scanners agree.
   */
  lemma ScannersAgree(args: seq<Bytes>) returns (items: seq<Item>)
    requires ParseCommandLine(args).problem == None
    ensures Means(items, args, ParseCommandLine(args).values, ParseCommandLine(args).mark)
    ensures Requested(args) <==> !Hidden(items)
    ensures Repeats(args, {}) <==> Clashes(items)
    ensures var mark := ParseCommandLine(args).mark;
      mark == None || !StartsDashes(mark.value) ==> Requested(args) && !Repeats(args, {})
  {
    hide Requested, Repeats, SpellAll, LongNames, RawFlagName, UpToEquals, Atoi;
    var r := ParseCommandLine(args);
    ArgvExact(args, r.values, r.mark);
    items :| Means(items, args, r.values, r.mark);
    var k := ValueCameFrom(items, map[], "result-fd");
    RequestedUnless(items, {});
    RepeatsExact(items);
    MarkCameFrom(items, None, {});
  }

  lemma {:induction false} ValueCameFrom(items: seq<Item>, values: map<Bytes, int>, name: Bytes) returns (k: nat)
    requires name in ValuesOf(items, values) && name !in values
    ensures k < |items| && items[k].name == name
  {
    hide Atoi;
    var i := items[0];
    if i.name == name {
      k := 0;
    } else {
      k := ValueCameFrom(items[1..],
        if i.name != MARK && Atoi(i.value).Some? then values[i.name := Atoi(i.value).value] else values, name);
      k := k + 1;
    }
  }

  lemma {:induction false} MarkCameFrom(items: seq<Item>, mark: Option<Bytes>, seen: set<Bytes>)
    requires Proper(items, seen)
    ensures forall k :: 0 <= k < |items| && items[k].name == MARK ==> MarkOf(items, mark) == Some(items[k].value)
    ensures MARK in seen ==> MarkOf(items, mark) == mark
  {
    hide ProperItem;
    if items != [] {
      var i, rest := items[0], items[1..];
      MarkCameFrom(rest, if i.name == MARK then Some(i.value) else mark, seen + {i.name});
      assert forall k :: 0 < k < |items| ==> items[k] == rest[k - 1];
    }
  }
}
