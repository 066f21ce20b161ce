/**
 Concrete syntax trees for JSON texts, after RFC 8259 sections 2 to 7: every byte of the
 text is in the tree, insignificant whitespace included.

 `Emit(v, tail)` is the text of `v` followed by `tail`; with `tail == ""` it is the text.
 */
module JsonGrammar {
  import opened Text

  datatype Value =
    | Null
    | True
    | False
    | Number(sign: Bytes, whole: Bytes, frac: Bytes, exp: Bytes)
    | Str(body: Bytes)
    | EmptyArray(gap: Bytes)
    | Array(items: Items)
    | EmptyObject(gap: Bytes)
    | Object(members: Members)

  datatype Items = Items(pre: Bytes, value: Value, tail: ItemsTail)
  datatype ItemsTail = EndItems(post: Bytes) | NextItem(post: Bytes, next: Items)

  datatype Members = Members(pre: Bytes, key: Bytes, mid: Bytes, gap: Bytes, value: Value, tail: MembersTail)
  datatype MembersTail = EndMembers(post: Bytes) | NextMember(post: Bytes, next: Members)

  predicate IsSpace(c: char) { c == ' ' || c == '\t' || c == '\r' || c == '\n' }

  predicate Blank(s: Bytes) { forall i :: 0 <= i < |s| ==> IsSpace(s[i]) }

  predicate IsHex(c: char) { DigitValue(c) >= 0 }

  predicate SimpleEscape(c: char) {
    c == '"' || c == '\\' || c == '/' || c == 'b' || c == 'f' || c == 'n' || c == 'r' || c == 't'
  }

  /** The bytes consumed by the first character or escape of a string body; 0 if it is malformed. */
  function UnitLength(s: Bytes): (n: nat)
    requires s != ""
    ensures n <= |s|
  {
    if s[0] == '"' || s[0] < ' ' then 0
    else if s[0] != '\\' then 1
    else if |s| >= 2 && SimpleEscape(s[1]) then 2
    else if |s| >= 6 && s[1] == 'u' && IsHex(s[2]) && IsHex(s[3]) && IsHex(s[4]) && IsHex(s[5]) then 6
    else 0
  }

  /** RFC 8259 section 7: the bytes between the quotes of a string. */
  predicate WellFormedBody(b: Bytes) {
    b == "" || (UnitLength(b) > 0 && WellFormedBody(b[UnitLength(b)..]))
  }

  predicate DigitsOne(s: Bytes) { s != "" && AllDigits(s) }

  predicate WellFormedFraction(s: Bytes) { s == "" || (s[0] == '.' && DigitsOne(s[1..])) }

  predicate WellFormedExponent(s: Bytes) {
    s == "" ||
    ((s[0] == 'e' || s[0] == 'E') &&
     (DigitsOne(s[1..]) || (|s| > 1 && (s[1] == '+' || s[1] == '-') && DigitsOne(s[2..]))))
  }

  predicate WellFormed(v: Value) {
    match v
    case Null => true
    case True => true
    case False => true
    case Number(sign, whole, frac, exp) =>
      && (sign == "" || sign == "-")
      && AllDigits(whole) && Canonical(whole)
      && WellFormedFraction(frac) && WellFormedExponent(exp)
    case Str(body) => WellFormedBody(body)
    case EmptyArray(gap) => Blank(gap)
    case Array(items) => WellFormedItems(items)
    case EmptyObject(gap) => Blank(gap)
    case Object(members) => WellFormedMembers(members)
  }

  predicate WellFormedItems(i: Items) {
    && Blank(i.pre) && WellFormed(i.value)
    && Blank(i.tail.post) && (i.tail.NextItem? ==> WellFormedItems(i.tail.next))
  }

  predicate WellFormedItemsTail(t: ItemsTail) {
    Blank(t.post) && (t.NextItem? ==> WellFormedItems(t.next))
  }

  predicate WellFormedMembers(m: Members) {
    && Blank(m.pre) && WellFormedBody(m.key) && Blank(m.mid) && Blank(m.gap) && WellFormed(m.value)
    && Blank(m.tail.post) && (m.tail.NextMember? ==> WellFormedMembers(m.tail.next))
  }

  predicate WellFormedMembersTail(t: MembersTail) {
    Blank(t.post) && (t.NextMember? ==> WellFormedMembers(t.next))
  }

  function Max(a: nat, b: nat): nat { if a < b then b else a }

  /** How deeply arrays and objects nest. */
  function Depth(v: Value): nat {
    match v
    case EmptyArray(_) => 1
    case Array(items) => 1 + DepthItems(items)
    case EmptyObject(_) => 1
    case Object(members) => 1 + DepthMembers(members)
    case _ => 0
  }

  function DepthItems(i: Items): nat {
    Max(Depth(i.value), if i.tail.NextItem? then DepthItems(i.tail.next) else 0)
  }

  function DepthMembers(m: Members): nat {
    Max(Depth(m.value), if m.tail.NextMember? then DepthMembers(m.tail.next) else 0)
  }

  function Emit(v: Value, tail: Bytes): Bytes {
    match v
    case Null => "null" + tail
    case True => "true" + tail
    case False => "false" + tail
    case Number(sign, whole, frac, exp) => sign + (whole + (frac + (exp + tail)))
    case Str(body) => Quoted(body, tail)
    case EmptyArray(gap) => ['['] + (gap + ([']'] + tail))
    case Array(items) => ['['] + EmitItems(items, tail)
    case EmptyObject(gap) => ['{'] + (gap + (['}'] + tail))
    case Object(members) => ['{'] + EmitMembers(members, tail)
  }

  function Quoted(body: Bytes, tail: Bytes): Bytes { ['"'] + (body + (['"'] + tail)) }

  function Colon(mid: Bytes, gap: Bytes, tail: Bytes): Bytes { mid + ([':'] + (gap + tail)) }

  function EmitItems(i: Items, tail: Bytes): Bytes {
    i.pre + Emit(i.value, EmitItemsTail(i.tail, tail))
  }

  function EmitItemsTail(t: ItemsTail, tail: Bytes): Bytes {
    match t
    case EndItems(post) => post + ([']'] + tail)
    case NextItem(post, next) => post + ([','] + EmitItems(next, tail))
  }

  function EmitMembers(m: Members, tail: Bytes): Bytes {
    m.pre + Quoted(m.key, Colon(m.mid, m.gap, Emit(m.value, EmitMembersTail(m.tail, tail))))
  }

  function EmitMembersTail(t: MembersTail, tail: Bytes): Bytes {
    match t
    case EndMembers(post) => post + (['}'] + tail)
    case NextMember(post, next) => post + ([','] + EmitMembers(next, tail))
  }

  function TextOf(v: Value): Bytes { Emit(v, "") }

  /** What follows a value can be split off its text. */
  lemma {:induction false} EmitSplits(v: Value, tail: Bytes)
    ensures Emit(v, tail) == TextOf(v) + tail
    decreases v, 0
  {
    match v
    case Number(sign, whole, frac, exp) =>
      assert sign + (whole + (frac + (exp + tail))) == (sign + (whole + (frac + (exp + "")))) + tail;
    case Str(body) =>
      assert ['"'] + (body + (['"'] + tail)) == (['"'] + (body + (['"'] + ""))) + tail;
    case EmptyArray(gap) =>
      assert ['['] + (gap + ([']'] + tail)) == (['['] + (gap + ([']'] + ""))) + tail;
    case EmptyObject(gap) =>
      assert ['{'] + (gap + (['}'] + tail)) == (['{'] + (gap + (['}'] + ""))) + tail;
    case Array(items) =>
      EmitItemsSplits(items, tail);
      assert ['['] + (EmitItems(items, "") + tail) == (['['] + EmitItems(items, "")) + tail;
    case Object(members) =>
      EmitMembersSplits(members, tail);
      assert ['{'] + (EmitMembers(members, "") + tail) == (['{'] + EmitMembers(members, "")) + tail;
    case _ =>
  }

  lemma {:induction false} EmitItemsSplits(i: Items, tail: Bytes)
    ensures EmitItems(i, tail) == EmitItems(i, "") + tail
    decreases i, 1
  {
    var rest := EmitItemsTail(i.tail, "");
    EmitItemsTailSplits(i.tail, tail);
    EmitSplits(i.value, rest + tail);
    EmitSplits(i.value, rest);
    assert i.pre + (TextOf(i.value) + (rest + tail)) == (i.pre + (TextOf(i.value) + rest)) + tail;
  }

  lemma {:induction false} EmitItemsTailSplits(t: ItemsTail, tail: Bytes)
    ensures EmitItemsTail(t, tail) == EmitItemsTail(t, "") + tail
    decreases t, 1
  {
    match t
    case EndItems(post) =>
      assert post + ([']'] + tail) == (post + ([']'] + "")) + tail;
    case NextItem(post, next) =>
      EmitItemsSplits(next, tail);
      assert post + ([','] + (EmitItems(next, "") + tail)) == (post + ([','] + EmitItems(next, ""))) + tail;
  }

  lemma {:induction false} EmitMembersSplits(m: Members, tail: Bytes)
    ensures EmitMembers(m, tail) == EmitMembers(m, "") + tail
    decreases m, 1
  {
    var rest := EmitMembersTail(m.tail, "");
    EmitMembersTailSplits(m.tail, tail);
    EmitSplits(m.value, rest + tail);
    EmitSplits(m.value, rest);
    var v := TextOf(m.value);
    assert m.pre + (['"'] + (m.key + (['"'] + (m.mid + ([':'] + (m.gap + (v + (rest + tail)))))))) ==
           (m.pre + (['"'] + (m.key + (['"'] + (m.mid + ([':'] + (m.gap + (v + rest)))))))) + tail;
  }

  lemma {:induction false} EmitMembersTailSplits(t: MembersTail, tail: Bytes)
    ensures EmitMembersTail(t, tail) == EmitMembersTail(t, "") + tail
    decreases t, 1
  {
    match t
    case EndMembers(post) =>
      assert post + (['}'] + tail) == (post + (['}'] + "")) + tail;
    case NextMember(post, next) =>
      EmitMembersSplits(next, tail);
      assert post + ([','] + (EmitMembers(next, "") + tail)) == (post + ([','] + EmitMembers(next, ""))) + tail;
  }
}
