/**
 Reading a text whose syntax tree is known, and the effect of insignificant whitespace:
 none of the readers can tell two trees apart that differ in whitespace only.
 */
module JsonLayout {
  import opened Text
  import opened Utf8
  import opened JsonGrammar
  import opened JsonParser
  import opened JsonString
  import opened JsonDecode
  import opened StrictJson

  // ---- Valid UTF-8, seen in the tree ---------------------------------------------------

  /** The strings in the tree are valid UTF-8; everything else in it is ASCII. */
  predicate Clean(v: Value) {
    match v
    case Str(body) => ValidUtf8(body)
    case Array(items) => CleanItems(items)
    case Object(members) => CleanMembers(members)
    case _ => true
  }

  predicate CleanItems(i: Items) { Clean(i.value) && (i.tail.NextItem? ==> CleanItems(i.tail.next)) }

  predicate CleanMembers(m: Members) {
    ValidUtf8(m.key) && Clean(m.value) && (m.tail.NextMember? ==> CleanMembers(m.tail.next))
  }

  lemma AsciiThen(a: Bytes, tail: Bytes)
    requires Ascii(a)
    ensures ValidUtf8(a + tail) <==> ValidUtf8(tail)
  {
    AsciiIsValid(a);
    ValidPrefix(a, tail);
  }

  lemma BlankThen(a: Bytes, tail: Bytes)
    requires Blank(a)
    ensures ValidUtf8(a + tail) <==> ValidUtf8(tail)
  {
    hide ValidUtf8;
    assert forall i :: 0 <= i < |a| ==> a[i] as int < 0x80;
    AsciiThen(a, tail);
  }

  lemma QuotedUtf8(body: Bytes, tail: Bytes)
    ensures ValidUtf8(Quoted(body, tail)) <==> ValidUtf8(body) && ValidUtf8(tail)
  {
    hide ValidUtf8;
    AsciiThen(['"'], body + (['"'] + tail));
    ValidSplit(body, '"', tail);
  }

  lemma NumberAscii(v: Value)
    requires v.Number? && WellFormed(v)
    ensures Ascii(v.sign) && Ascii(v.whole) && Ascii(v.frac) && Ascii(v.exp)
  {
    assert v.frac != "" ==> forall i :: 1 <= i < |v.frac| ==> v.frac[i] == v.frac[1..][i - 1];
    if v.exp != "" {
      assert forall i :: 1 <= i < |v.exp| ==> v.exp[i] == v.exp[1..][i - 1];
      if !DigitsOne(v.exp[1..]) {
        assert forall i :: 2 <= i < |v.exp| ==> v.exp[i] == v.exp[2..][i - 2];
      }
    }
  }

  /** A text is valid UTF-8 exactly when the strings in it are. */
  lemma {:induction false} EmitUtf8(v: Value, tail: Bytes)
    requires WellFormed(v)
    ensures ValidUtf8(Emit(v, tail)) <==> Clean(v) && ValidUtf8(tail)
    decreases v, 0
  {
    hide ValidUtf8, WellFormedBody, EmitMembers, EmitItems;
    match v
    case Null => AsciiThen("null", tail);
    case True => AsciiThen("true", tail);
    case False => AsciiThen("false", tail);
    case Number(sign, whole, frac, exp) =>
      NumberAscii(v);
      AsciiThen(sign, whole + (frac + (exp + tail)));
      AsciiThen(whole, frac + (exp + tail));
      AsciiThen(frac, exp + tail);
      AsciiThen(exp, tail);
    case Str(body) => QuotedUtf8(body, tail);
    case EmptyArray(gap) =>
      AsciiThen(['['], gap + ([']'] + tail));
      BlankThen(gap, [']'] + tail);
      AsciiThen([']'], tail);
    case EmptyObject(gap) =>
      AsciiThen(['{'], gap + (['}'] + tail));
      BlankThen(gap, ['}'] + tail);
      AsciiThen(['}'], tail);
    case Array(items) =>
      AsciiThen(['['], EmitItems(items, tail));
      EmitItemsUtf8(items, tail);
    case Object(members) =>
      AsciiThen(['{'], EmitMembers(members, tail));
      EmitMembersUtf8(members, tail);
  }

  lemma {:induction false} EmitItemsUtf8(i: Items, tail: Bytes)
    requires WellFormedItems(i)
    ensures ValidUtf8(EmitItems(i, tail)) <==> CleanItems(i) && ValidUtf8(tail)
    decreases i, 1
  {
    hide ValidUtf8, Emit;
    var after := EmitItemsTail(i.tail, tail);
    BlankThen(i.pre, Emit(i.value, after));
    EmitUtf8(i.value, after);
    match i.tail
    case EndItems(post) =>
      BlankThen(post, [']'] + tail);
      AsciiThen([']'], tail);
    case NextItem(post, next) =>
      BlankThen(post, [','] + EmitItems(next, tail));
      AsciiThen([','], EmitItems(next, tail));
      EmitItemsUtf8(next, tail);
  }

  lemma {:induction false} EmitMembersUtf8(m: Members, tail: Bytes)
    requires WellFormedMembers(m)
    ensures ValidUtf8(EmitMembers(m, tail)) <==> CleanMembers(m) && ValidUtf8(tail)
    decreases m, 1
  {
    hide ValidUtf8, Emit, WellFormedBody;
    var after := EmitMembersTail(m.tail, tail);
    var value := Emit(m.value, after);
    BlankThen(m.pre, Quoted(m.key, Colon(m.mid, m.gap, value)));
    QuotedUtf8(m.key, Colon(m.mid, m.gap, value));
    BlankThen(m.mid, [':'] + (m.gap + value));
    AsciiThen([':'], m.gap + value);
    BlankThen(m.gap, value);
    EmitUtf8(m.value, after);
    match m.tail
    case EndMembers(post) =>
      BlankThen(post, ['}'] + tail);
      AsciiThen(['}'], tail);
    case NextMember(post, next) =>
      BlankThen(post, [','] + EmitMembers(next, tail));
      AsciiThen([','], EmitMembers(next, tail));
      EmitMembersUtf8(next, tail);
  }

  // ---- The strict reader, seen in the tree -----------------------------------------------

  type Values = map<Bytes, Value>

  function Collect(values: Values, m: Members): Values
    requires WellFormedMembers(m)
    decreases m
  {
    var more := values[Unquote(m.key) := m.value];
    if m.tail.NextMember? then Collect(more, m.tail.next) else more
  }

  /** The members of an object whose keys are allowed and distinct. */
  function ObjectFields(v: Value, allowed: set<Bytes>): Option<Values>
    requires WellFormed(v)
  {
    match v
    case EmptyObject(_) => Some(map[])
    case Object(m) => if Judged(m, allowed, {}) then Some(Collect(map[], m)) else None
    case _ => None
  }

  function TextMap(values: Values): Fields { map k | k in values :: TextOf(values[k]) }

  lemma {:induction false} CollectTexts(values: Values, m: Members)
    requires WellFormedMembers(m)
    ensures Extend(TextMap(values), m) == TextMap(Collect(values, m))
    decreases m
  {
    hide Emit, Unquote, WellFormed, WellFormedBody;
    var more := values[Unquote(m.key) := m.value];
    assert TextMap(more) == TextMap(values)[Unquote(m.key) := TextOf(m.value)];
    if m.tail.NextMember? {
      CollectTexts(more, m.tail.next);
    }
  }

  predicate Acceptable(v: Value, allowed: set<Bytes>)
    requires WellFormed(v)
  {
    Clean(v) && Depth(v) <= 1 + MAX_DEPTH && ObjectFields(v, allowed).Some?
  }

  /** A text has one reading. */
  lemma OneReading(g1: Bytes, v1: Value, g2: Bytes, v2: Value)
    requires Blank(g1) && WellFormed(v1) && Blank(g2) && WellFormed(v2)
    requires g1 + TextOf(v1) == g2 + TextOf(v2)
    ensures g1 == g2 && v1 == v2
  {
    hide SkipSpace, ParseValue, Emit, WellFormed;
    var d := Max(Depth(v1), Depth(v2));
    EmitStart(v1, "");
    EmitStart(v2, "");
    SkipSpaceOf(g1, TextOf(v1));
    SkipSpaceOf(g2, TextOf(v2));
    ParseValueOf(v1, "", d);
    ParseValueOf(v2, "", d);
  }

  /** What the strict reader makes of a text with a known tree. */
  lemma StrictOfTree(gap: Bytes, v: Value, allowed: set<Bytes>)
    requires Blank(gap) && WellFormed(v)
    ensures var r := StrictObject(gap + TextOf(v), allowed);
      if Acceptable(v, allowed) then r == Accepted(TextMap(ObjectFields(v, allowed).value)) else !r.Accepted?
  {
    var raw := gap + TextOf(v);
    TreeUtf8(gap, v);
    if Acceptable(v, allowed) {
      AcceptableDescribes(gap, v, allowed);
      StrictComplete(gap, v, raw, allowed, TextMap(ObjectFields(v, allowed).value));
    } else if StrictObject(raw, allowed).Accepted? {
      var g, w := StrictAccepts(raw, allowed);
      OneReading(gap, v, g, w);
      DescribesAcceptable(gap, v, raw, allowed, StrictObject(raw, allowed).fields);
    }
  }

  lemma TreeUtf8(gap: Bytes, v: Value)
    requires Blank(gap) && WellFormed(v)
    ensures ValidUtf8(gap + TextOf(v)) <==> Clean(v)
  {
    hide ValidUtf8, Emit;
    BlankThen(gap, TextOf(v));
    EmitUtf8(v, "");
    AsciiIsValid("");
  }

  lemma AcceptableDescribes(gap: Bytes, v: Value, allowed: set<Bytes>)
    requires Blank(gap) && WellFormed(v) && Acceptable(v, allowed) && ValidUtf8(gap + TextOf(v))
    ensures Describes(gap, v, gap + TextOf(v), allowed, TextMap(ObjectFields(v, allowed).value))
  {
    hide ValidUtf8, Emit, Clean, Depth, Extend, Collect, Judged, Keys, Texts;
    if v.Object? {
      var none: Values := map[];
      var empty: Fields := map[];
      assert TextMap(none) == empty && empty.Keys == {};
      CollectTexts(none, v.members);
      JudgedMeans(v.members, allowed, {});
      ExtendHolds(empty, v.members);
    }
  }

  lemma DescribesAcceptable(gap: Bytes, v: Value, raw: Bytes, allowed: set<Bytes>, fields: Fields)
    requires Describes(gap, v, raw, allowed, fields)
    ensures Acceptable(v, allowed)
  {
    hide ValidUtf8, Emit, Clean, Depth, Extend, Collect, Judged, Keys, Texts;
    TreeUtf8(gap, v);
    if v.Object? {
      JudgedMeans(v.members, allowed, {});
    }
  }

  // ---- Whitespace ------------------------------------------------------------------------

  /** The trees differ at most in whitespace. */
  predicate Alike(v: Value, w: Value) {
    match v
    case EmptyArray(_) => w.EmptyArray?
    case Array(i) => w.Array? && AlikeItems(i, w.items)
    case EmptyObject(_) => w.EmptyObject?
    case Object(m) => w.Object? && AlikeMembers(m, w.members)
    case _ => v == w
  }

  predicate AlikeItems(i: Items, j: Items) {
    && Alike(i.value, j.value) && (i.tail.NextItem? <==> j.tail.NextItem?)
    && (i.tail.NextItem? ==> AlikeItems(i.tail.next, j.tail.next))
  }

  predicate AlikeMembers(m: Members, n: Members) {
    && m.key == n.key && Alike(m.value, n.value) && (m.tail.NextMember? <==> n.tail.NextMember?)
    && (m.tail.NextMember? ==> AlikeMembers(m.tail.next, n.tail.next))
  }

  lemma {:induction false} AlikeShape(v: Value, w: Value)
    requires Alike(v, w)
    ensures Depth(v) == Depth(w) && (Clean(v) <==> Clean(w))
    decreases v
  {
    match v
    case Array(i) => AlikeItemsShape(i, w.items);
    case Object(m) => AlikeMembersShape(m, w.members);
    case _ =>
  }

  lemma {:induction false} AlikeItemsShape(i: Items, j: Items)
    requires AlikeItems(i, j)
    ensures DepthItems(i) == DepthItems(j) && (CleanItems(i) <==> CleanItems(j))
    decreases i
  {
    AlikeShape(i.value, j.value);
    if i.tail.NextItem? { AlikeItemsShape(i.tail.next, j.tail.next); }
  }

  lemma {:induction false} AlikeMembersShape(m: Members, n: Members)
    requires AlikeMembers(m, n)
    ensures DepthMembers(m) == DepthMembers(n) && (CleanMembers(m) <==> CleanMembers(n))
    decreases m
  {
    AlikeShape(m.value, n.value);
    if m.tail.NextMember? { AlikeMembersShape(m.tail.next, n.tail.next); }
  }

  /** Two field maps with the same keys and alike values. */
  ghost predicate AlikeValues(a: Values, b: Values) {
    && a.Keys == b.Keys
    && forall k :: k in a ==> WellFormed(a[k]) && WellFormed(b[k]) && Alike(a[k], b[k])
  }

  lemma {:induction false} AlikeJudged(m: Members, n: Members, allowed: set<Bytes>, taken: set<Bytes>)
    requires WellFormedMembers(m) && WellFormedMembers(n) && AlikeMembers(m, n)
    ensures Judged(m, allowed, taken) <==> Judged(n, allowed, taken)
    decreases m
  {
    hide Unquote, WellFormed, WellFormedBody, Alike;
    if m.tail.NextMember? { AlikeJudged(m.tail.next, n.tail.next, allowed, taken + {Unquote(m.key)}); }
  }

  lemma {:induction false} AlikeCollect(a: Values, b: Values, m: Members, n: Members)
    requires WellFormedMembers(m) && WellFormedMembers(n) && AlikeMembers(m, n) && AlikeValues(a, b)
    ensures AlikeValues(Collect(a, m), Collect(b, n))
    decreases m
  {
    hide Unquote, WellFormed, WellFormedBody, Alike;
    var key := Unquote(m.key);
    var a', b' := a[key := m.value], b[key := n.value];
    assert AlikeValues(a', b');
    if m.tail.NextMember? { AlikeCollect(a', b', m.tail.next, n.tail.next); }
  }

  lemma AlikeObjects(v: Value, w: Value, allowed: set<Bytes>)
    requires WellFormed(v) && WellFormed(w) && Alike(v, w)
    ensures Acceptable(v, allowed) <==> Acceptable(w, allowed)
    ensures Acceptable(v, allowed) ==> AlikeValues(ObjectFields(v, allowed).value, ObjectFields(w, allowed).value)
  {
    hide Judged, Collect, Clean, Depth;
    AlikeShape(v, w);
    if v.Object? {
      AlikeJudged(v.members, w.members, allowed, {});
      AlikeCollect(map[], map[], v.members, w.members);
    }
  }

  /** Decoded, alike values are the same string, boolean or number. */
  lemma AlikeScalars(v: Value, w: Value)
    requires WellFormed(v) && WellFormed(w) && Alike(v, w)
    ensures AsString(v) == AsString(w) && AsBool(v) == AsBool(w) && AsInt(v) == AsInt(w)
  {}
}
