/** Strings decoded from valid UTF-8 are valid UTF-8, so testing for it after decoding finds nothing. */
module DecodedUtf8 {
  import opened Text
  import opened Utf8
  import opened JsonGrammar
  import opened JsonParser
  import opened JsonString
  import opened JsonDecode
  import opened JsonLayout
  import opened StrictJson

  /** A byte that begins no escape stands for itself. */
  lemma RawByte(b: Bytes)
    requires WellFormedBody(b) && b != "" && b[0] != '\\'
    ensures WellFormedBody(b[1..]) && Unquote(b) == [b[0]] + Unquote(b[1..])
  {
    hide EscapedRune, EncodeRune, Unescape;
  }

  lemma SimpleUnit(b: Bytes)
    requires WellFormedBody(b) && b != "" && b[0] == '\\' && UnitLength(b) == 2
    ensures Ascii(b[..2]) && Ascii([Unescape(b[1])])
    ensures WellFormedBody(b[2..]) && Unquote(b) == [Unescape(b[1])] + Unquote(b[2..])
  {
    hide EscapedRune, EncodeRune;
  }

  lemma UnicodeUnit(b: Bytes)
    requires WellFormedBody(b) && b != "" && b[0] == '\\' && UnitLength(b) != 2
    ensures UnicodeEscape(b) && Ascii(b[..EscapedRune(b).1]) && WellFormedBody(b[EscapedRune(b).1..])
    ensures Unquote(b) == EncodeRune(EscapedRune(b).0) + Unquote(b[EscapedRune(b).1..])
  {
    hide EscapedRune, EncodeRune, Unescape;
    AfterEscape(b);
    EscapeIsAscii(b);
  }

  /** Bytes beyond ASCII stand for themselves. */
  lemma {:induction false} UnquoteRun(b: Bytes, n: nat)
    requires WellFormedBody(b) && n <= |b| && forall i :: 0 <= i < n ==> b[i] as int >= 0x80
    ensures WellFormedBody(b[n..]) && Unquote(b) == b[..n] + Unquote(b[n..])
  {
    hide WellFormedBody, Unquote;
    if n == 0 {
      assert b[..0] == "" && b[0..] == b;
    } else {
      RawByte(b);
      UnquoteRun(b[1..], n - 1);
      Slices(b, n);
    }
  }

  lemma RuneAlone(b: Bytes)
    requires b != "" && RuneLength(b) > 0
    ensures ValidUtf8(b[..RuneLength(b)])
  {
    var n := RuneLength(b);
    var r := b[..n];
    assert forall i :: 0 <= i < n ==> r[i] == b[i];
    assert RuneLength(r) == n && r[n..] == "";
  }

  /** Escapes decode to whole runes, and everything else is kept. */
  lemma {:induction false} UnquoteIsValid(b: Bytes)
    requires WellFormedBody(b) && ValidUtf8(b)
    ensures ValidUtf8(Unquote(b))
    decreases |b|, 1
  {
    hide RuneLength, EncodeRune, WellFormedBody, Unquote, EscapedRune, Unescape;
    if b == "" {
      EmptyBody();
    } else if b[0] != '\\' {
      RawStep(b);
    } else if UnitLength(b) == 2 {
      SimpleUnit(b);
      AsciiThen(b[..2], b[2..]);
      assert b == b[..2] + b[2..];
      UnquoteIsValid(b[2..]);
      AsciiThen([Unescape(b[1])], Unquote(b[2..]));
    } else {
      UnicodeUnit(b);
      var (rune, n) := EscapedRune(b);
      AsciiThen(b[..n], b[n..]);
      assert b == b[..n] + b[n..];
      UnquoteIsValid(b[n..]);
      EncodedRuneIsValid(rune);
      ValidPrefix(EncodeRune(rune), Unquote(b[n..]));
    }
  }

  lemma EmptyBody()
    ensures Unquote("") == "" && ValidUtf8("")
  {}

  lemma {:induction false} RawStep(b: Bytes)
    requires WellFormedBody(b) && ValidUtf8(b) && b != "" && b[0] != '\\'
    ensures ValidUtf8(Unquote(b))
    decreases |b|, 0
  {
    hide RuneLength, EncodeRune, WellFormedBody, Unquote;
    var n := RuneLength(b);
    RuneAlone(b);
    RuneBytes(b);
    if n == 1 {
      RawByte(b);
      UnquoteIsValid(b[1..]);
      AsciiThen([b[0]], Unquote(b[1..]));
    } else {
      UnquoteRun(b, n);
      UnquoteIsValid(b[n..]);
      ValidPrefix(b[..n], Unquote(b[n..]));
    }
  }

  /** The first rune is one ASCII byte or bytes beyond ASCII. */
  lemma RuneBytes(b: Bytes)
    requires b != "" && ValidUtf8(b)
    ensures var n := RuneLength(b);
      n >= 1 && (n == 1 <==> b[0] as int < 0x80) && (n > 1 ==> forall i :: 0 <= i < n ==> b[i] as int >= 0x80)
  {}

  lemma EscapeIsAscii(b: Bytes)
    requires UnicodeEscape(b)
    ensures Ascii(b[..EscapedRune(b).1])
  {
    var n := EscapedRune(b).1;
    SixAscii(b);
    if n == 12 {
      SixAscii(b[6..]);
      assert b[..12] == b[..6] + b[6..][..6];
    }
  }

  lemma SixAscii(b: Bytes)
    requires UnicodeEscape(b)
    ensures Ascii(b[..6])
  {}

  // ---- The fields of an object -------------------------------------------------------------------

  ghost predicate GoodTexts(values: Values, depth: nat) {
    forall k :: k in values ==> WellFormed(values[k]) && Clean(values[k]) && Depth(values[k]) <= depth
  }

  lemma {:induction false} CollectGood(values: Values, m: Members, depth: nat)
    requires WellFormedMembers(m) && CleanMembers(m) && DepthMembers(m) <= depth && GoodTexts(values, depth)
    ensures GoodTexts(Collect(values, m), depth)
    decreases m
  {
    hide Unquote, WellFormed, WellFormedBody, Depth, ValidUtf8;
    if m.tail.NextMember? { CollectGood(values[Unquote(m.key) := m.value], m.tail.next, depth); }
  }

  lemma FieldsGood(v: Value, allowed: set<Bytes>)
    requires WellFormed(v) && Acceptable(v, allowed)
    ensures GoodTexts(ObjectFields(v, allowed).value, MAX_DEPTH)
  {
    hide Collect, Judged;
    if v.Object? { CollectGood(map[], v.members, MAX_DEPTH); }
  }

  /** Whatever string the strict reader's fields decode to is valid UTF-8: the test after decoding never fails. */
  lemma DecodedStringsAreValid(raw: Bytes, allowed: set<Bytes>, key: Bytes)
    requires StrictObject(raw, allowed).Accepted? && key in StrictObject(raw, allowed).fields
    requires UnmarshalString(StrictObject(raw, allowed).fields[key]).Some?
    ensures ValidUtf8(UnmarshalString(StrictObject(raw, allowed).fields[key]).value)
  {
    hide StrictObject, Acceptable, ObjectFields, Emit, Decode, ValidUtf8, Unquote, WellFormedBody, Clean, Depth;
    var gap, v := StrictAccepts(raw, allowed);
    var values := AcceptedTree(raw, gap, v, allowed);
    var w := values[key];
    DecodeText(w);
    if w.Str? { CleanString(w); } else { AsciiIsValid(""); }
  }

  lemma AcceptedTree(raw: Bytes, gap: Bytes, v: Value, allowed: set<Bytes>) returns (values: Values)
    requires StrictObject(raw, allowed).Accepted? && Describes(gap, v, raw, allowed, StrictObject(raw, allowed).fields)
    ensures GoodTexts(values, MAX_DEPTH) && StrictObject(raw, allowed).fields == TextMap(values)
  {
    hide StrictObject, Acceptable, ObjectFields, Emit, GoodTexts;
    DescribesAcceptable(gap, v, raw, allowed, StrictObject(raw, allowed).fields);
    StrictOfTree(gap, v, allowed);
    FieldsGood(v, allowed);
    values := FieldsOf(v, allowed);
  }

  function FieldsOf(v: Value, allowed: set<Bytes>): Values
    requires WellFormed(v) && Acceptable(v, allowed)
  {
    ObjectFields(v, allowed).value
  }

  lemma CleanString(v: Value)
    requires v.Str? && WellFormed(v) && Clean(v)
    ensures ValidUtf8(Unquote(v.body))
  {
    UnquoteIsValid(v.body);
  }
}
