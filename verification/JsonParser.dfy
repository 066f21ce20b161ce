/**
 The value scanner of the JSON decoder, as functions on the unread input: each returns
 the syntax tree it read and the rest of the input. Soundness is in the postconditions,
 completeness in the lemmas at the end.
 */
module JsonParser {
  import opened Text
  import opened JsonGrammar

  datatype Parsed<+T> = Fail | Done(value: T, rest: Bytes)

  datatype Split = Split(front: Bytes, rest: Bytes)

  /** The decoder refuses a value whose arrays and objects nest deeper than this. */
  const MAX_DEPTH: nat := 10000

  /** Whitespace at the front, and the rest. */
  function SkipSpace(s: Bytes): (r: Split)
    ensures s == r.front + r.rest && Blank(r.front)
    ensures r.rest != "" ==> !IsSpace(r.rest[0])
  {
    if s == "" || !IsSpace(s[0]) then Split("", s)
    else
      var r := SkipSpace(s[1..]);
      HeadJoins(s, r.front, r.rest);
      Split([s[0]] + r.front, r.rest)
  }

  lemma HeadJoins(s: Bytes, a: Bytes, b: Bytes)
    requires s != "" && s[1..] == a + b
    ensures s == ([s[0]] + a) + b
  {
    assert s == [s[0]] + s[1..];
  }

  /** Reads a string body and its closing quote; the opening quote is already consumed. */
  function ParseBody(s: Bytes): (r: Parsed<Bytes>)
    ensures r.Done? ==> |r.rest| < |s|
  {
    if s == "" then Fail
    else if s[0] == '"' then Done("", s[1..])
    else
      var n := UnitLength(s);
      if n == 0 then Fail
      else
        match ParseBody(s[n..])
        case Fail => Fail
        case Done(b, rest) => Done(s[..n] + b, rest)
  }

  lemma {:induction false} ParseBodySound(s: Bytes)
    requires ParseBody(s).Done?
    ensures var r := ParseBody(s); WellFormedBody(r.value) && s == r.value + (['"'] + r.rest)
  {
    if s[0] == '"' {
      assert s == "" + (['"'] + s[1..]);
    } else {
      var n := UnitLength(s);
      ParseBodySound(s[n..]);
      var b, rest := ParseBody(s[n..]).value, ParseBody(s[n..]).rest;
      BodyCons(s[..n], b, s, n);
      Regroup(s, n, b, ['"'] + rest);
    }
  }

  lemma Regroup(s: Bytes, n: nat, b: Bytes, close: Bytes)
    requires n <= |s| && s[n..] == b + close
    ensures s == (s[..n] + b) + close
  {
    assert s == s[..n] + s[n..];
  }

  lemma QuotedSound(s: Bytes)
    requires s != "" && s[0] == '"' && ParseBody(s[1..]).Done?
    ensures var r := ParseBody(s[1..]); WellFormedBody(r.value) && s == Quoted(r.value, r.rest)
  {
    ParseBodySound(s[1..]);
    assert s == ['"'] + s[1..];
  }

  lemma BodyCons(unit: Bytes, b: Bytes, s: Bytes, n: nat)
    requires s != "" && UnitLength(s) == n > 0 && unit == s[..n] && WellFormedBody(b)
    ensures WellFormedBody(unit + b)
  {
    UnitPrefix(unit + b, s, n);
    assert (unit + b)[n..] == b;
  }

  lemma UnitPrefix(s: Bytes, t: Bytes, n: nat)
    requires t != "" && UnitLength(t) == n > 0 && n <= |s| && s[..n] == t[..n]
    ensures UnitLength(s) == n
  {
    assert forall i :: 0 <= i < n ==> s[i] == s[..n][i] == t[..n][i] == t[i];
  }

  /** The longest run of digits at the front, and the rest. */
  function DigitRun(s: Bytes): (r: Split)
    ensures s == r.front + r.rest && AllDigits(r.front)
    ensures r.rest != "" ==> !IsDigit(r.rest[0])
  {
    if s == "" || !IsDigit(s[0]) then Split("", s)
    else
      var r := DigitRun(s[1..]);
      HeadJoins(s, r.front, r.rest);
      Split([s[0]] + r.front, r.rest)
  }

  function ParseWhole(s: Bytes): (r: Parsed<Bytes>)
    ensures r.Done? ==> s == r.value + r.rest && AllDigits(r.value) && Canonical(r.value)
  {
    if s == "" || !IsDigit(s[0]) then Fail
    else if s[0] == '0' then Done("0", s[1..])
    else Done(DigitRun(s).front, DigitRun(s).rest)
  }

  function ParseFraction(s: Bytes): (r: Parsed<Bytes>)
    ensures r.Done? ==> s == r.value + r.rest && WellFormedFraction(r.value)
  {
    if s == "" || s[0] != '.' then Done("", s)
    else
      var Split(run, rest) := DigitRun(s[1..]);
      if run == "" then Fail
      else
        assert (['.'] + run)[1..] == run;
        Done(['.'] + run, rest)
  }

  function ParseExponent(s: Bytes): (r: Parsed<Bytes>)
    ensures r.Done? ==> s == r.value + r.rest && WellFormedExponent(r.value)
  {
    if s == "" || (s[0] != 'e' && s[0] != 'E') then Done("", s)
    else
      var k := if |s| > 1 && (s[1] == '+' || s[1] == '-') then 2 else 1;
      var Split(run, rest) := DigitRun(s[k..]);
      if run == "" then Fail
      else
        assert (s[..k] + run)[k..] == run;
        Done(s[..k] + run, rest)
  }

  function ParseNumber(s: Bytes): (r: Parsed<Value>)
    requires s != ""
    ensures r.Done? ==> |r.rest| < |s|
  {
    var sign := if s[0] == '-' then "-" else "";
    match ParseWhole(s[|sign|..])
    case Fail => Fail
    case Done(whole, r1) =>
      match ParseFraction(r1)
      case Fail => Fail
      case Done(frac, r2) =>
        match ParseExponent(r2)
        case Fail => Fail
        case Done(exp, r3) => Done(Number(sign, whole, frac, exp), r3)
  }

  lemma ParseNumberSound(s: Bytes)
    requires s != "" && ParseNumber(s).Done?
    ensures var r := ParseNumber(s);
      r.value.Number? && WellFormed(r.value) && s == Emit(r.value, r.rest)
  {
    var sign := if s[0] == '-' then "-" else "";
    assert s == sign + s[|sign|..];
  }

  function ParseLiteral(s: Bytes): (r: Parsed<Value>)
    ensures r.Done? ==> |r.rest| < |s|
    ensures r.Done? ==> s == Emit(r.value, r.rest) && (r.value.Null? || r.value.True? || r.value.False?)
  {
    if StartsWith(s, "null") then Done(Null, s[4..])
    else if StartsWith(s, "true") then Done(True, s[4..])
    else if StartsWith(s, "false") then Done(False, s[5..])
    else Fail
  }

  predicate StartsWith(s: Bytes, p: Bytes) { |p| <= |s| && s[..|p|] == p }

  /** Reads one value; `depth` is how many more levels of nesting are allowed. */
  function ParseValue(s: Bytes, depth: nat): (r: Parsed<Value>)
    ensures r.Done? ==> |r.rest| < |s|
    decreases |s|, 0
  {
    if s == "" then Fail
    else if s[0] == '{' then ParseObject(s[1..], depth)
    else if s[0] == '[' then ParseArray(s[1..], depth)
    else if s[0] == '"' then
      match ParseBody(s[1..])
      case Fail => Fail
      case Done(b, rest) => Done(Str(b), rest)
    else if s[0] == '-' || IsDigit(s[0]) then ParseNumber(s)
    else ParseLiteral(s)
  }

  /** The rest of an object after its opening brace. */
  function ParseObject(s: Bytes, depth: nat): (r: Parsed<Value>)
    ensures r.Done? ==> |r.rest| < |s|
    decreases |s|, 3
  {
    if depth == 0 then Fail
    else
      var Split(gap, r1) := SkipSpace(s);
      if r1 != "" && r1[0] == '}' then Done(EmptyObject(gap), r1[1..])
      else
        match ParseMembers(s, depth - 1)
        case Fail => Fail
        case Done(m, rest) => Done(Object(m), rest)
  }

  /** The rest of an array after its opening bracket. */
  function ParseArray(s: Bytes, depth: nat): (r: Parsed<Value>)
    ensures r.Done? ==> |r.rest| < |s|
    decreases |s|, 3
  {
    if depth == 0 then Fail
    else
      var Split(gap, r1) := SkipSpace(s);
      if r1 != "" && r1[0] == ']' then Done(EmptyArray(gap), r1[1..])
      else
        match ParseItems(s, depth - 1)
        case Fail => Fail
        case Done(i, rest) => Done(Array(i), rest)
  }

  function ParseItems(s: Bytes, depth: nat): (r: Parsed<Items>)
    ensures r.Done? ==> |r.rest| < |s|
    decreases |s|, 2
  {
    var Split(pre, r1) := SkipSpace(s);
    match ParseValue(r1, depth)
    case Fail => Fail
    case Done(v, r2) =>
      match ParseItemsTail(r2, depth)
      case Fail => Fail
      case Done(t, rest) => Done(Items(pre, v, t), rest)
  }

  function ParseItemsTail(s: Bytes, depth: nat): (r: Parsed<ItemsTail>)
    ensures r.Done? ==> |r.rest| < |s|
    decreases |s|, 1
  {
    var Split(post, r1) := SkipSpace(s);
    if r1 != "" && r1[0] == ']' then Done(EndItems(post), r1[1..])
    else if r1 != "" && r1[0] == ',' then
      match ParseItems(r1[1..], depth)
      case Fail => Fail
      case Done(i, rest) => Done(NextItem(post, i), rest)
    else Fail
  }

  /** What precedes the value of a member. */
  datatype Label = Label(pre: Bytes, key: Bytes, mid: Bytes, gap: Bytes)

  function EmitLabel(l: Label, tail: Bytes): Bytes {
    l.pre + Quoted(l.key, Colon(l.mid, l.gap, tail))
  }

  predicate WellFormedLabel(l: Label) {
    Blank(l.pre) && WellFormedBody(l.key) && Blank(l.mid) && Blank(l.gap)
  }

  function ParseColon(s: Bytes): (r: Parsed<(Bytes, Bytes)>)
    ensures r.Done? ==> |r.rest| < |s|
    ensures r.Done? ==> Blank(r.value.0) && Blank(r.value.1) && s == Colon(r.value.0, r.value.1, r.rest)
    ensures r.Done? && r.rest != "" ==> !IsSpace(r.rest[0])
  {
    hide SkipSpace, Colon;
    var Split(mid, r1) := SkipSpace(s);
    if r1 == "" || r1[0] != ':' then Fail
    else
      var Split(gap, r2) := SkipSpace(r1[1..]);
      ColonJoins(s, mid, r1, gap, r2);
      Done((mid, gap), r2)
  }

  lemma ColonJoins(s: Bytes, mid: Bytes, r1: Bytes, gap: Bytes, r2: Bytes)
    requires s == mid + r1 && r1 != "" && r1[0] == ':' && r1[1..] == gap + r2
    ensures s == Colon(mid, gap, r2) && |r2| < |s|
  {
    assert r1 == [':'] + r1[1..];
  }

  function ParseLabel(s: Bytes): (r: Parsed<Label>)
    ensures r.Done? ==> |r.rest| < |s|
    ensures r.Done? && r.rest != "" ==> !IsSpace(r.rest[0])
  {
    var Split(pre, r1) := SkipSpace(s);
    if r1 == "" || r1[0] != '"' then Fail
    else
      match ParseBody(r1[1..])
      case Fail => Fail
      case Done(key, r2) =>
        match ParseColon(r2)
        case Fail => Fail
        case Done(c, r3) => Done(Label(pre, key, c.0, c.1), r3)
  }

  lemma ParseLabelSound(s: Bytes)
    requires ParseLabel(s).Done?
    ensures var r := ParseLabel(s); WellFormedLabel(r.value) && s == EmitLabel(r.value, r.rest)
  {
    QuotedSound(SkipSpace(s).rest);
  }

  function ParseMembers(s: Bytes, depth: nat): (r: Parsed<Members>)
    ensures r.Done? ==> |r.rest| < |s|
    decreases |s|, 2
  {
    match ParseLabel(s)
    case Fail => Fail
    case Done(l, r1) =>
      match ParseValue(r1, depth)
      case Fail => Fail
      case Done(v, r2) =>
        match ParseMembersTail(r2, depth)
        case Fail => Fail
        case Done(t, rest) => Done(Members(l.pre, l.key, l.mid, l.gap, v, t), rest)
  }

  function ParseMembersTail(s: Bytes, depth: nat): (r: Parsed<MembersTail>)
    ensures r.Done? ==> |r.rest| < |s|
    decreases |s|, 1
  {
    var Split(post, r1) := SkipSpace(s);
    if r1 != "" && r1[0] == '}' then Done(EndMembers(post), r1[1..])
    else if r1 != "" && r1[0] == ',' then
      match ParseMembers(r1[1..], depth)
      case Fail => Fail
      case Done(m, rest) => Done(NextMember(post, m), rest)
    else Fail
  }

  // ---- Soundness -------------------------------------------------------------------

  /** What was read is well formed, within the depth limit, and printed is what was consumed. */
  lemma {:induction false} ParseValueSound(s: Bytes, depth: nat)
    requires ParseValue(s, depth).Done?
    ensures var r := ParseValue(s, depth);
      WellFormed(r.value) && Depth(r.value) <= depth && s == Emit(r.value, r.rest)
    decreases |s|, 0
  {
    assert s == [s[0]] + s[1..];
    if s[0] == '{' {
      ParseObjectSound(s[1..], depth);
    } else if s[0] == '[' {
      ParseArraySound(s[1..], depth);
    } else if s[0] == '"' {
      QuotedSound(s);
    } else if s[0] == '-' || IsDigit(s[0]) {
      ParseNumberSound(s);
    }
  }

  lemma EmptyText(s: Bytes, gap: Bytes, r1: Bytes)
    requires r1 != "" && s == gap + r1
    ensures s == gap + ([r1[0]] + r1[1..])
  {
    assert r1 == [r1[0]] + r1[1..];
  }

  lemma {:induction false} ParseObjectSound(s: Bytes, depth: nat)
    requires ParseObject(s, depth).Done?
    ensures var r := ParseObject(s, depth);
      WellFormed(r.value) && Depth(r.value) <= depth && ['{'] + s == Emit(r.value, r.rest)
    decreases |s|, 3
  {
    hide SkipSpace, ParseMembers, EmitMembers, WellFormedMembers, DepthMembers;
    var Split(gap, r1) := SkipSpace(s);
    if r1 != "" && r1[0] == '}' {
      EmptyText(s, gap, r1);
    } else {
      ParseMembersSound(s, depth - 1);
    }
  }

  lemma {:induction false} ParseArraySound(s: Bytes, depth: nat)
    requires ParseArray(s, depth).Done?
    ensures var r := ParseArray(s, depth);
      WellFormed(r.value) && Depth(r.value) <= depth && ['['] + s == Emit(r.value, r.rest)
    decreases |s|, 3
  {
    hide SkipSpace, ParseItems, EmitItems, WellFormedItems, DepthItems;
    var Split(gap, r1) := SkipSpace(s);
    if r1 != "" && r1[0] == ']' {
      EmptyText(s, gap, r1);
    } else {
      ParseItemsSound(s, depth - 1);
    }
  }

  lemma {:induction false} ParseItemsSound(s: Bytes, depth: nat)
    requires ParseItems(s, depth).Done?
    ensures var r := ParseItems(s, depth);
      WellFormedItems(r.value) && DepthItems(r.value) <= depth && s == EmitItems(r.value, r.rest)
    decreases |s|, 2
  {
    hide SkipSpace, Emit;
    var r1 := SkipSpace(s).rest;
    ParseValueSound(r1, depth);
    ParseItemsTailSound(ParseValue(r1, depth).rest, depth);
  }

  lemma {:induction false} ParseItemsTailSound(s: Bytes, depth: nat)
    requires ParseItemsTail(s, depth).Done?
    ensures var r := ParseItemsTail(s, depth);
      && WellFormedItemsTail(r.value) && s == EmitItemsTail(r.value, r.rest)
      && (r.value.NextItem? ==> DepthItems(r.value.next) <= depth)
    decreases |s|, 1
  {
    hide SkipSpace, Emit;
    var r1 := SkipSpace(s).rest;
    assert r1 == [r1[0]] + r1[1..];
    if r1[0] != ']' {
      ParseItemsSound(r1[1..], depth);
    }
  }

  lemma {:induction false} ParseMembersSound(s: Bytes, depth: nat)
    requires ParseMembers(s, depth).Done?
    ensures var r := ParseMembers(s, depth);
      WellFormedMembers(r.value) && DepthMembers(r.value) <= depth && s == EmitMembers(r.value, r.rest)
    decreases |s|, 2
  {
    hide ParseLabel, Emit;
    var r1 := ParseLabel(s).rest;
    ParseLabelSound(s);
    ParseValueSound(r1, depth);
    ParseMembersTailSound(ParseValue(r1, depth).rest, depth);
  }

  lemma {:induction false} ParseMembersTailSound(s: Bytes, depth: nat)
    requires ParseMembersTail(s, depth).Done?
    ensures var r := ParseMembersTail(s, depth);
      && WellFormedMembersTail(r.value) && s == EmitMembersTail(r.value, r.rest)
      && (r.value.NextMember? ==> DepthMembers(r.value.next) <= depth)
    decreases |s|, 1
  {
    hide SkipSpace, Emit;
    var r1 := SkipSpace(s).rest;
    assert r1 == [r1[0]] + r1[1..];
    if r1[0] != '}' {
      ParseMembersSound(r1[1..], depth);
    }
  }

  // ---- Completeness ----------------------------------------------------------------

  /** What may follow a number without being read as part of it. */
  predicate Delimited(s: Bytes) {
    s == "" || IsSpace(s[0]) || s[0] == ',' || s[0] == ']' || s[0] == '}'
  }

  lemma {:induction false} SkipSpaceOf(gap: Bytes, s: Bytes)
    requires Blank(gap) && (s == "" || !IsSpace(s[0]))
    ensures SkipSpace(gap + s) == Split(gap, s)
  {
    if gap == "" {
      assert gap + s == s;
    } else {
      SkipSpaceOf(gap[1..], s);
      assert (gap + s)[1..] == gap[1..] + s;
      assert gap == [gap[0]] + gap[1..];
    }
  }

  lemma UnitOfPrefix(b: Bytes, close: Bytes, n: nat)
    requires b != "" && UnitLength(b) == n > 0
    ensures UnitLength(b + close) == n && (b + close)[..n] == b[..n] && (b + close)[n..] == b[n..] + close
    ensures (b + close)[0] != '"'
  {
    assert (b + close)[..n] == b[..n];
    UnitPrefix(b + close, b, n);
  }

  lemma {:induction false} ParseBodyOf(b: Bytes, tail: Bytes)
    requires WellFormedBody(b)
    ensures ParseBody(b + (['"'] + tail)) == Done(b, tail)
  {
    var close := ['"'] + tail;
    if b == "" {
      assert b + close == close;
    } else {
      var n := UnitLength(b);
      ParseBodyOf(b[n..], tail);
      UnitOfPrefix(b, close, n);
      assert b == b[..n] + b[n..];
    }
  }

  lemma {:induction false} DigitRunOf(d: Bytes, s: Bytes)
    requires AllDigits(d) && (s == "" || !IsDigit(s[0]))
    ensures DigitRun(d + s) == Split(d, s)
  {
    if d == "" {
      assert d + s == s;
    } else {
      DigitRunOf(d[1..], s);
      assert (d + s)[1..] == d[1..] + s;
      assert d == [d[0]] + d[1..];
    }
  }

  lemma ParseExponentOf(exp: Bytes, tail: Bytes)
    requires WellFormedExponent(exp) && Delimited(tail)
    ensures ParseExponent(exp + tail) == Done(exp, tail)
  {
    if exp == "" {
      assert exp + tail == tail;
    } else {
      var k := if |exp| > 1 && (exp[1] == '+' || exp[1] == '-') then 2 else 1;
      assert exp[1..] != "" && exp[1..][0] == exp[1];
      DigitRunOf(exp[k..], tail);
      ExponentDigits(exp, tail, k);
    }
  }

  lemma ExponentDigits(exp: Bytes, tail: Bytes, k: nat)
    requires k <= |exp|
    ensures (exp + tail)[k..] == exp[k..] + tail && (exp + tail)[..k] + exp[k..] == exp
  {}

  lemma ParseFractionOf(frac: Bytes, tail: Bytes)
    requires WellFormedFraction(frac)
    requires tail == "" || (!IsDigit(tail[0]) && tail[0] != '.')
    ensures ParseFraction(frac + tail) == Done(frac, tail)
  {
    var s := frac + tail;
    if frac == "" {
      assert s == tail;
    } else {
      assert s[1..] == frac[1..] + tail;
      DigitRunOf(frac[1..], tail);
      assert ['.'] + frac[1..] == frac;
    }
  }

  lemma ParseWholeOf(whole: Bytes, tail: Bytes)
    requires AllDigits(whole) && Canonical(whole) && (tail == "" || !IsDigit(tail[0]))
    ensures ParseWhole(whole + tail) == Done(whole, tail)
  {
    var s := whole + tail;
    assert s[0] == whole[0];
    if whole[0] == '0' {
      assert s[1..] == tail;
    } else {
      DigitRunOf(whole, tail);
    }
  }

  lemma ExponentStart(exp: Bytes, tail: Bytes)
    requires WellFormedExponent(exp) && Delimited(tail)
    ensures var r := exp + tail; r == "" || (!IsDigit(r[0]) && r[0] != '.')
  {
    assert exp == "" ==> exp + tail == tail;
    assert exp != "" ==> (exp + tail)[0] == exp[0];
  }

  lemma FractionStart(frac: Bytes, tail: Bytes)
    requires WellFormedFraction(frac) && (tail == "" || !IsDigit(tail[0]))
    ensures var r := frac + tail; r == "" || !IsDigit(r[0])
  {
    assert frac == "" ==> frac + tail == tail;
    assert frac != "" ==> (frac + tail)[0] == frac[0];
  }

  lemma UnsignedOf(whole: Bytes, frac: Bytes, exp: Bytes, tail: Bytes)
    requires AllDigits(whole) && Canonical(whole)
    requires WellFormedFraction(frac) && WellFormedExponent(exp) && Delimited(tail)
    ensures ParseWhole(whole + (frac + (exp + tail))) == Done(whole, frac + (exp + tail))
    ensures ParseFraction(frac + (exp + tail)) == Done(frac, exp + tail)
    ensures ParseExponent(exp + tail) == Done(exp, tail)
  {
    ExponentStart(exp, tail);
    FractionStart(frac, exp + tail);
    ParseExponentOf(exp, tail);
    ParseFractionOf(frac, exp + tail);
    ParseWholeOf(whole, frac + (exp + tail));
  }

  lemma ParseNumberOf(v: Value, tail: Bytes)
    requires v.Number? && WellFormed(v) && Delimited(tail)
    ensures Emit(v, tail) != ""
    ensures ParseNumber(Emit(v, tail)) == Done(v, tail)
  {
    UnsignedOf(v.whole, v.frac, v.exp, tail);
    var r0 := v.whole + (v.frac + (v.exp + tail));
    assert r0[0] == v.whole[0];
    assert (v.sign + r0)[|v.sign|..] == r0;
  }

  lemma EmitStart(v: Value, tail: Bytes)
    requires WellFormed(v)
    ensures Emit(v, tail) != ""
    ensures var c := Emit(v, tail)[0]; !IsSpace(c) && c != '}' && c != ']'
    ensures v.Number? ==> var c := Emit(v, tail)[0]; c == '-' || IsDigit(c)
  {
    if v.Number? {
      var s := v.whole + (v.frac + (v.exp + tail));
      assert s[0] == v.whole[0];
      assert Emit(v, tail) == v.sign + s;
      assert (v.sign + s)[0] == if v.sign == "" then s[0] else v.sign[0];
    }
  }

  lemma ParseLiteralOf(v: Value, tail: Bytes, depth: nat)
    requires v.Null? || v.True? || v.False?
    ensures ParseValue(Emit(v, tail), depth) == Done(v, tail)
  {
    LiteralRead(v, tail);
    var s := Emit(v, tail);
    assert s[0] == if v.Null? then 'n' else if v.True? then 't' else 'f';
  }

  lemma LiteralRead(v: Value, tail: Bytes)
    requires v.Null? || v.True? || v.False?
    ensures ParseLiteral(Emit(v, tail)) == Done(v, tail)
  {
    var s := Emit(v, tail);
    match v
    case Null => assert s[..4] == "null" && s[4..] == tail;
    case True => assert s[..4] == "true" && s[4..] == tail && s[..4][0] != 'n';
    case False => assert s[..5] == "false" && s[5..] == tail && s[..4][0] == s[..5][0] == 'f';
    case _ =>
  }

  lemma ParseNumericOf(v: Value, tail: Bytes, depth: nat)
    requires v.Number? && WellFormed(v) && Delimited(tail)
    ensures ParseValue(Emit(v, tail), depth) == Done(v, tail)
  {
    hide ParseNumber;
    EmitStart(v, tail);
    ParseNumberOf(v, tail);
  }

  lemma ParseStringOf(body: Bytes, tail: Bytes, depth: nat)
    requires WellFormedBody(body)
    ensures ParseValue(Emit(Str(body), tail), depth) == Done(Str(body), tail)
  {
    ParseBodyOf(body, tail);
    assert Quoted(body, tail)[1..] == body + (['"'] + tail);
  }

  lemma ParseEmptyOf(v: Value, tail: Bytes, depth: nat)
    requires (v.EmptyArray? || v.EmptyObject?) && WellFormed(v) && depth > 0
    ensures ParseValue(Emit(v, tail), depth) == Done(v, tail)
  {
    var close := [if v.EmptyArray? then ']' else '}'] + tail;
    SkipSpaceOf(v.gap, close);
    assert Emit(v, tail)[1..] == v.gap + close;
  }

  lemma {:induction false} ParseValueOf(v: Value, tail: Bytes, depth: nat)
    requires WellFormed(v) && Depth(v) <= depth
    requires v.Number? ==> Delimited(tail)
    ensures ParseValue(Emit(v, tail), depth) == Done(v, tail)
    decreases v, 0
  {
    hide ParseValue, Emit, EmitItems, EmitMembers, ParseItems, ParseMembers, WellFormedBody;
    match v
    case Number(_, _, _, _) =>
      ParseNumericOf(v, tail, depth);
    case Str(body) =>
      ParseStringOf(body, tail, depth);
    case EmptyArray(_) =>
      ParseEmptyOf(v, tail, depth);
    case EmptyObject(_) =>
      ParseEmptyOf(v, tail, depth);
    case Array(items) =>
      ParseItemsOf(items, tail, depth - 1);
      ParseArrayOf(v, items, tail, depth);
    case Object(members) =>
      ParseMembersOf(members, tail, depth - 1);
      ParseObjectOf(v, members, tail, depth);
    case _ =>
      ParseLiteralOf(v, tail, depth);
  }

  lemma ParseArrayOf(v: Value, i: Items, tail: Bytes, depth: nat)
    requires depth > 0 && v == Array(i) && WellFormedItems(i)
    requires ParseItems(EmitItems(i, tail), depth - 1) == Done(i, tail)
    ensures ParseValue(Emit(v, tail), depth) == Done(v, tail)
  {
    hide ParseItems, SkipSpace, EmitItems;
    ItemsStart(i, tail);
    assert Emit(v, tail)[1..] == EmitItems(i, tail);
  }

  lemma ParseObjectOf(v: Value, m: Members, tail: Bytes, depth: nat)
    requires depth > 0 && v == Object(m) && WellFormedMembers(m)
    requires ParseMembers(EmitMembers(m, tail), depth - 1) == Done(m, tail)
    ensures ParseValue(Emit(v, tail), depth) == Done(v, tail)
  {
    hide ParseMembers, SkipSpace, EmitMembers;
    MembersStart(m, tail);
    assert Emit(v, tail)[1..] == EmitMembers(m, tail);
  }

  lemma {:induction false} ParseItemsOf(i: Items, tail: Bytes, depth: nat)
    requires WellFormedItems(i) && DepthItems(i) <= depth
    ensures ParseItems(EmitItems(i, tail), depth) == Done(i, tail)
    decreases i, 1
  {
    var after := EmitItemsTail(i.tail, tail);
    ItemsTailDelimited(i.tail, tail);
    EmitStart(i.value, after);
    SkipSpaceOf(i.pre, Emit(i.value, after));
    ParseValueOf(i.value, after, depth);
    ParseItemsTailOf(i.tail, tail, depth);
  }

  lemma ItemsTailDelimited(t: ItemsTail, tail: Bytes)
    requires WellFormedItemsTail(t)
    ensures Delimited(EmitItemsTail(t, tail))
  {
    var s := EmitItemsTail(t, tail);
    assert s[0] == if t.post != "" then t.post[0] else if t.EndItems? then ']' else ',';
  }

  lemma MembersTailDelimited(t: MembersTail, tail: Bytes)
    requires WellFormedMembersTail(t)
    ensures Delimited(EmitMembersTail(t, tail))
  {
    var s := EmitMembersTail(t, tail);
    assert s[0] == if t.post != "" then t.post[0] else if t.EndMembers? then '}' else ',';
  }

  lemma {:induction false} ParseItemsTailOf(t: ItemsTail, tail: Bytes, depth: nat)
    requires WellFormedItemsTail(t) && (t.NextItem? ==> DepthItems(t.next) <= depth)
    ensures ParseItemsTail(EmitItemsTail(t, tail), depth) == Done(t, tail)
    decreases t, 1
  {
    match t
    case EndItems(post) => SkipSpaceOf(post, [']'] + tail);
    case NextItem(post, next) =>
      SkipSpaceOf(post, [','] + EmitItems(next, tail));
      ParseItemsOf(next, tail, depth);
  }

  lemma MembersStart(m: Members, tail: Bytes)
    requires WellFormedMembers(m)
    ensures var r := SkipSpace(EmitMembers(m, tail)).rest; r != "" && r[0] != '}'
  {
    var after := Emit(m.value, EmitMembersTail(m.tail, tail));
    SkipSpaceOf(m.pre, Quoted(m.key, Colon(m.mid, m.gap, after)));
  }

  lemma ItemsStart(i: Items, tail: Bytes)
    requires WellFormedItems(i)
    ensures var r := SkipSpace(EmitItems(i, tail)).rest; r != "" && r[0] != ']'
  {
    var after := EmitItemsTail(i.tail, tail);
    EmitStart(i.value, after);
    SkipSpaceOf(i.pre, Emit(i.value, after));
  }

  lemma ParseColonOf(mid: Bytes, gap: Bytes, tail: Bytes)
    requires Blank(mid) && Blank(gap) && tail != "" && !IsSpace(tail[0])
    ensures ParseColon(Colon(mid, gap, tail)) == Done((mid, gap), tail)
  {
    SkipSpaceOf(mid, [':'] + (gap + tail));
    SkipSpaceOf(gap, tail);
  }

  lemma ParseLabelOf(l: Label, tail: Bytes)
    requires WellFormedLabel(l) && tail != "" && !IsSpace(tail[0])
    ensures ParseLabel(EmitLabel(l, tail)) == Done(l, tail)
  {
    var r2 := Colon(l.mid, l.gap, tail);
    SkipSpaceOf(l.pre, Quoted(l.key, r2));
    ParseBodyOf(l.key, r2);
    assert Quoted(l.key, r2)[1..] == l.key + (['"'] + r2);
    ParseColonOf(l.mid, l.gap, tail);
  }

  lemma {:induction false} ParseMembersOf(m: Members, tail: Bytes, depth: nat)
    requires WellFormedMembers(m) && DepthMembers(m) <= depth
    ensures ParseMembers(EmitMembers(m, tail), depth) == Done(m, tail)
    decreases m, 1
  {
    var after := EmitMembersTail(m.tail, tail);
    var l := Label(m.pre, m.key, m.mid, m.gap);
    MembersTailDelimited(m.tail, tail);
    EmitStart(m.value, after);
    ParseLabelOf(l, Emit(m.value, after));
    assert EmitMembers(m, tail) == EmitLabel(l, Emit(m.value, after));
    ParseValueOf(m.value, after, depth);
    ParseMembersTailOf(m.tail, tail, depth);
  }

  lemma {:induction false} ParseMembersTailOf(t: MembersTail, tail: Bytes, depth: nat)
    requires WellFormedMembersTail(t) && (t.NextMember? ==> DepthMembers(t.next) <= depth)
    ensures ParseMembersTail(EmitMembersTail(t, tail), depth) == Done(t, tail)
    decreases t, 1
  {
    match t
    case EndMembers(post) => SkipSpaceOf(post, ['}'] + tail);
    case NextMember(post, next) =>
      SkipSpaceOf(post, [','] + EmitMembers(next, tail));
      ParseMembersOf(next, tail, depth);
  }
}
