/**
 The strict object reader: one JSON object and nothing after it, with a closed set of
 distinct keys. `StrictObject` is the reader as a function, `Decoder` and
 `ReadStrictObject` the reader as written, and `StrictExact` says what it accepts in
 terms of the grammar alone.
 */
module StrictJson {
  import opened Text
  import opened Utf8
  import opened JsonGrammar
  import opened JsonParser
  import opened JsonString

  /** Field values are kept as the raw text of the value. */
  type Fields = map<Bytes, Bytes>

  datatype Strict = Accepted(fields: Fields) | Malformed | Unexpected(key: Bytes)

  function Skip(s: Bytes): (r: Bytes)
    ensures |r| <= |s|
  {
    SkipSpace(s).rest
  }

  predicate At(s: Bytes, c: char) { s != "" && s[0] == c }

  function StrictObject(raw: Bytes, allowed: set<Bytes>): Strict {
    if raw == "" || !ValidUtf8(raw) || !At(Skip(raw), '{') then Malformed
    else ScanStart(Skip(raw)[1..], allowed)
  }

  /** After the opening brace. */
  function ScanStart(s: Bytes, allowed: set<Bytes>): Strict {
    if At(Skip(s), '}') then ScanEnd(Skip(s)[1..], map[]) else ScanMember(s, map[], allowed)
  }

  /** After the closing brace. */
  function ScanEnd(s: Bytes, fields: Fields): Strict {
    if s == "" then Accepted(fields) else Malformed
  }

  /** A member; its key is judged before anything after the key is looked at. */
  function ScanMember(s: Bytes, fields: Fields, allowed: set<Bytes>): Strict
    decreases |s|, 0
  {
    match KeyAt(Skip(s))
    case Fail => Malformed
    case Done(key, r2) =>
      if key !in allowed then Unexpected(key)
      else if key in fields then Malformed
      else
        match ReadValue(r2)
        case Fail => Malformed
        case Done(v, r3) => ScanTail(r3, fields[key := TextOf(v)], allowed)
  }

  /** A quoted string, decoded. */
  function KeyAt(s: Bytes): (r: Parsed<Bytes>)
    ensures r.Done? ==> |r.rest| < |s|
  {
    if !At(s, '"') then Fail
    else
      match ParseBody(s[1..])
      case Fail => Fail
      case Done(body, rest) =>
        ParseBodySound(s[1..]);
        Done(Unquote(body), rest)
  }

  /** After a member. */
  function ScanTail(s: Bytes, fields: Fields, allowed: set<Bytes>): Strict
    decreases |s|, 1
  {
    var r1 := Skip(s);
    if At(r1, '}') then ScanEnd(r1[1..], fields)
    else if At(r1, ',') then ScanMember(r1[1..], fields, allowed)
    else Malformed
  }

  /** A colon and a value. */
  function ReadValue(s: Bytes): (r: Parsed<Value>)
    ensures r.Done? ==> |r.rest| < |s| && WellFormed(r.value) && Depth(r.value) <= MAX_DEPTH
  {
    match ParseColon(s)
    case Fail => Fail
    case Done(_, r1) =>
      hide ParseValue, WellFormed, Emit;
      if ParseValue(r1, MAX_DEPTH).Done? then
        ParseValueSound(r1, MAX_DEPTH);
        ParseValue(r1, MAX_DEPTH)
      else Fail
  }

  // ---- What is accepted --------------------------------------------------------------

  function Keys(m: Members): seq<Bytes>
    requires WellFormedMembers(m)
  {
    [Unquote(m.key)] + if m.tail.NextMember? then Keys(m.tail.next) else []
  }

  function Texts(m: Members): seq<Bytes> {
    [TextOf(m.value)] + if m.tail.NextMember? then Texts(m.tail.next) else []
  }

  predicate Distinct(keys: seq<Bytes>) {
    forall i, j :: 0 <= i < j < |keys| ==> keys[i] != keys[j]
  }

  predicate Within(keys: seq<Bytes>, allowed: set<Bytes>) {
    forall i :: 0 <= i < |keys| ==> keys[i] in allowed
  }

  /** The map holds exactly these members. */
  ghost predicate Holds(fields: Fields, keys: seq<Bytes>, texts: seq<Bytes>)
  {
    && |keys| == |texts|
    && (forall i :: 0 <= i < |keys| ==> keys[i] in fields && fields[keys[i]] == texts[i])
    && (forall k :: k in fields ==> k in keys)
  }

  function MembersOf(v: Value): (r: (seq<Bytes>, seq<Bytes>))
    requires WellFormed(v) && (v.EmptyObject? || v.Object?)
  {
    if v.EmptyObject? then ([], []) else (Keys(v.members), Texts(v.members))
  }

  /**
   Leading whitespace, then one RFC 8259 object that ends with the input; valid UTF-8,
   member values within the nesting limit, decoded keys allowed and pairwise distinct.
   */
  ghost predicate Describes(gap: Bytes, v: Value, raw: Bytes, allowed: set<Bytes>, fields: Fields) {
    && Blank(gap) && WellFormed(v) && (v.EmptyObject? || v.Object?)
    && raw == gap + TextOf(v) && ValidUtf8(raw) && Depth(v) <= 1 + MAX_DEPTH
    && var (keys, texts) := MembersOf(v);
      Within(keys, allowed) && Distinct(keys) && Holds(fields, keys, texts)
  }

  lemma SkipTwice(s: Bytes)
    ensures Skip(Skip(s)) == Skip(s)
  {}

  /** The fields after the members have been stored one by one. */
  function Extend(fields: Fields, m: Members): Fields
    requires WellFormedMembers(m)
    decreases m
  {
    var more := fields[Unquote(m.key) := TextOf(m.value)];
    if m.tail.NextMember? then Extend(more, m.tail.next) else more
  }

  /** Each key in turn is allowed and not yet stored. */
  predicate Judged(m: Members, allowed: set<Bytes>, taken: set<Bytes>)
    requires WellFormedMembers(m)
    decreases m
  {
    var key := Unquote(m.key);
    key in allowed && key !in taken && (m.tail.NextMember? ==> Judged(m.tail.next, allowed, taken + {key}))
  }

  predicate Fresh(keys: seq<Bytes>, taken: set<Bytes>) {
    forall i :: 0 <= i < |keys| ==> keys[i] !in taken
  }

  lemma {:induction false} JudgedMeans(m: Members, allowed: set<Bytes>, taken: set<Bytes>)
    requires WellFormedMembers(m)
    ensures Judged(m, allowed, taken) <==> Within(Keys(m), allowed) && Distinct(Keys(m)) && Fresh(Keys(m), taken)
    decreases m
  {
    hide Unquote, WellFormedBody, WellFormed, Emit;
    var key := Unquote(m.key);
    assert Keys(m)[0] == key;
    if m.tail.NextMember? {
      var next := Keys(m.tail.next);
      JudgedMeans(m.tail.next, allowed, taken + {key});
      assert Keys(m) == [key] + next;
      assert forall i :: 0 < i < |Keys(m)| ==> Keys(m)[i] == next[i - 1];
      assert forall i :: 0 <= i < |next| ==> next[i] == Keys(m)[i + 1];
    } else {
      assert Keys(m) == [key];
    }
  }

  /** Scanning the members one by one is parsing them all and judging the keys in order. */
  lemma {:induction false} MemberAccepted(s: Bytes, fields: Fields, allowed: set<Bytes>, m: Members)
    requires ParseMembers(s, MAX_DEPTH) == Done(m, "") && WellFormedMembers(m)
    requires Judged(m, allowed, fields.Keys)
    ensures ScanMember(s, fields, allowed) == Accepted(Extend(fields, m))
    decreases m
  {
    hide ParseValue, ParseBody, ParseColon, Emit, WellFormed, WellFormedBody, SkipSpace, Unquote;
    var r3 := ParseValue(ParseLabel(s).rest, MAX_DEPTH).rest;
    assert ParseMembersTail(r3, MAX_DEPTH) == Done(m.tail, "");
    if m.tail.NextMember? {
      var more := fields[Unquote(m.key) := TextOf(m.value)];
      assert more.Keys == fields.Keys + {Unquote(m.key)};
      MemberAccepted(Skip(r3)[1..], more, allowed, m.tail.next);
    }
  }

  lemma {:induction false} MemberScanned(s: Bytes, fields: Fields, allowed: set<Bytes>)
    requires ScanMember(s, fields, allowed).Accepted?
    ensures var p := ParseMembers(s, MAX_DEPTH);
      && p.Done? && p.rest == "" && WellFormedMembers(p.value)
      && Judged(p.value, allowed, fields.Keys)
      && ScanMember(s, fields, allowed).fields == Extend(fields, p.value)
    decreases |s|
  {
    hide ParseValue, ParseBody, ParseColon, Emit, WellFormed, WellFormedBody, SkipSpace, Unquote;
    ParseLabelSound(s);
    var l := ParseLabel(s);
    ParseValueSound(l.rest, MAX_DEPTH);
    var v := ParseValue(l.rest, MAX_DEPTH);
    var key := Unquote(l.value.key);
    var more := fields[key := TextOf(v.value)];
    assert more.Keys == fields.Keys + {key};
    if At(Skip(v.rest), ',') {
      MemberScanned(Skip(v.rest)[1..], more, allowed);
    }
    assert ParseMembersTail(v.rest, MAX_DEPTH).Done?;
    ParseMembersSound(s, MAX_DEPTH);
  }

  lemma KeysTail(m: Members)
    requires WellFormedMembers(m)
    ensures Keys(m)[0] == Unquote(m.key) && Texts(m)[0] == TextOf(m.value)
    ensures m.tail.EndMembers? ==> Keys(m) == [Keys(m)[0]] && Texts(m) == [Texts(m)[0]]
    ensures m.tail.NextMember? ==>
      Keys(m) == [Keys(m)[0]] + Keys(m.tail.next) && Texts(m) == [Texts(m)[0]] + Texts(m.tail.next)
  {
    hide Unquote, Emit, WellFormed, WellFormedBody;
  }

  lemma FreshNext(keys: seq<Bytes>, next: seq<Bytes>, key: Bytes, taken: set<Bytes>)
    requires keys == [key] + next && Distinct(keys) && Fresh(keys, taken)
    ensures key !in taken && Distinct(next) && Fresh(next, taken + {key})
  {
    assert keys[0] == key;
    forall i | 0 <= i < |next| ensures next[i] !in taken + {key} {
      assert next[i] == keys[i + 1];
    }
    forall i, j | 0 <= i < j < |next| ensures next[i] != next[j] {
      assert next[i] == keys[i + 1] && next[j] == keys[j + 1];
    }
  }

  /** Storing new keys changes no stored field. */
  lemma {:induction false} ExtendKeeps(fields: Fields, m: Members)
    requires WellFormedMembers(m) && Distinct(Keys(m)) && Fresh(Keys(m), fields.Keys)
    ensures forall k :: k in fields ==> k in Extend(fields, m) && Extend(fields, m)[k] == fields[k]
    decreases m
  {
    hide Unquote, Emit, WellFormed, WellFormedBody, Keys, Texts, Distinct;
    KeysTail(m);
    var key := Unquote(m.key);
    var more := fields[key := TextOf(m.value)];
    assert Keys(m)[0] !in fields.Keys;
    assert more.Keys == fields.Keys + {key};
    if m.tail.NextMember? {
      FreshNext(Keys(m), Keys(m.tail.next), key, fields.Keys);
      ExtendKeeps(more, m.tail.next);
    }
  }

  /** Each key in order is stored with its text, and nothing else is. */
  lemma {:induction false} ExtendHolds(fields: Fields, m: Members)
    requires WellFormedMembers(m) && Distinct(Keys(m)) && Fresh(Keys(m), fields.Keys)
    ensures var out := Extend(fields, m);
      && |Keys(m)| == |Texts(m)|
      && (forall i :: 0 <= i < |Keys(m)| ==> Keys(m)[i] in out && out[Keys(m)[i]] == Texts(m)[i])
      && (forall k :: k in out ==> k in fields || k in Keys(m))
    decreases m
  {
    hide Unquote, Emit, WellFormed, WellFormedBody, Keys, Texts, Distinct, Fresh;
    KeysTail(m);
    var key := Unquote(m.key);
    var more := fields[key := TextOf(m.value)];
    assert more.Keys == fields.Keys + {key};
    if m.tail.NextMember? {
      var next := m.tail.next;
      FreshNext(Keys(m), Keys(next), key, fields.Keys);
      ExtendHolds(more, next);
      ExtendKeeps(more, next);
      var out := Extend(more, next);
      forall i | 0 <= i < |Keys(m)| ensures Keys(m)[i] in out && out[Keys(m)[i]] == Texts(m)[i] {
        if i > 0 {
          assert Keys(m)[i] == Keys(next)[i - 1] && Texts(m)[i] == Texts(next)[i - 1];
        }
      }
    }
  }

  lemma HoldsIsUnique(a: Fields, b: Fields, keys: seq<Bytes>, texts: seq<Bytes>)
    requires Holds(a, keys, texts) && Holds(b, keys, texts)
    ensures a == b
  {
    forall k ensures k in a <==> k in b {}
  }

  /** Accepted, and with these fields, exactly when the input is such a text. */
  lemma StrictExact(raw: Bytes, allowed: set<Bytes>, fields: Fields)
    ensures StrictObject(raw, allowed) == Accepted(fields) <==>
            exists gap, v :: Describes(gap, v, raw, allowed, fields)
  {
    if StrictObject(raw, allowed) == Accepted(fields) {
      var gap, v := StrictAccepts(raw, allowed);
    }
    if gap, v :| Describes(gap, v, raw, allowed, fields) {
      StrictComplete(gap, v, raw, allowed, fields);
    }
  }

  lemma StrictAccepts(raw: Bytes, allowed: set<Bytes>) returns (gap: Bytes, v: Value)
    requires StrictObject(raw, allowed).Accepted?
    ensures Describes(gap, v, raw, allowed, StrictObject(raw, allowed).fields)
  {
    hide ParseMembers, ScanMember, ValidUtf8, WellFormedMembers, EmitMembers, Keys, Texts, Extend, Judged;
    hide SkipSpace, DepthMembers;
    var fields := StrictObject(raw, allowed).fields;
    gap := SkipSpace(raw).front;
    var s := Skip(raw)[1..];
    assert Skip(raw) == ['{'] + s;
    if At(Skip(s), '}') {
      v := EmptyObject(SkipSpace(s).front);
      assert Skip(s) == ['}'] + "";
    } else {
      MemberScanned(s, map[], allowed);
      var m := ParseMembers(s, MAX_DEPTH).value;
      ParseMembersSound(s, MAX_DEPTH);
      JudgedMeans(m, allowed, {});
      var none: Fields := map[];
      assert none.Keys == {};
      ExtendHolds(none, m);
      v := Object(m);
    }
  }

  lemma StrictComplete(gap: Bytes, v: Value, raw: Bytes, allowed: set<Bytes>, fields: Fields)
    requires Describes(gap, v, raw, allowed, fields)
    ensures StrictObject(raw, allowed) == Accepted(fields)
  {
    hide ParseMembers, ScanMember, ValidUtf8, WellFormedMembers, EmitMembers, Keys, Texts, Extend, Judged;
    hide SkipSpace, DepthMembers;
    var t := TextOf(v);
    EmitStart(v, "");
    SkipSpaceOf(gap, t);
    if v.EmptyObject? {
      assert t[1..] == v.gap + (['}'] + "");
      SkipSpaceOf(v.gap, ['}'] + "");
      assert fields == map[];
    } else {
      var m := v.members;
      assert t[1..] == EmitMembers(m, "");
      MembersStart(m, "");
      ParseMembersOf(m, "", MAX_DEPTH);
      var none: Fields := map[];
      assert none.Keys == {};
      JudgedMeans(m, allowed, {});
      ExtendHolds(map[], m);
      HoldsIsUnique(fields, Extend(map[], m), Keys(m), Texts(m));
      MemberAccepted(t[1..], map[], allowed, m);
    }
  }

  // ---- As written ---------------------------------------------------------------------

  datatype State = Top | ObjectStart | ObjectKey | ObjectColon | ObjectComma

  datatype Token = OpenBrace | CloseBrace | Key(text: Bytes) | Other

  /** json.Decoder over a whole input, as far as objects at the top level need it. */
  class Decoder {
    const raw: Bytes
    var pos: nat
    var state: State

    ghost predicate Valid()
      reads this
    {
      pos <= |raw|
    }

    function Rest(): Bytes
      reads this
      requires Valid()
    {
      raw[pos..]
    }

    constructor (raw: Bytes)
      ensures Valid() && this.raw == raw && pos == 0 && state == Top
    {
      this.raw, pos, state := raw, 0, Top;
    }

    /** Moves to the next byte that is not whitespace and returns it. */
    method Peek() returns (c: Option<char>)
      requires Valid()
      modifies this`pos
      ensures Valid() && Rest() == Skip(old(Rest())) && (Rest() == "" || !IsSpace(Rest()[0]))
      ensures c == if Rest() == "" then None else Some(Rest()[0])
    {
      while pos < |raw| && IsSpace(raw[pos])
        invariant pos <= |raw|
        invariant Skip(raw[pos..]) == Skip(old(Rest()))
      {
        assert raw[pos..][1..] == raw[pos + 1..];
        pos := pos + 1;
      }
      c := if pos == |raw| then None else Some(raw[pos]);
    }

    method More() returns (more: bool)
      requires Valid()
      modifies this`pos
      ensures Valid() && Rest() == Skip(old(Rest()))
      ensures more == MoreAt(Rest())
    {
      var c := Peek();
      more := c.Some? && c.value != ']' && c.value != '}';
    }

    method NextToken() returns (t: Token)
      requires Valid()
      modifies this
      ensures Valid()
      ensures old(state) == Top ==> (t == OpenBrace <==> At(Skip(old(Rest())), '{'))
      ensures t == OpenBrace ==> state == ObjectStart && At(Skip(old(Rest())), '{') && Rest() == Skip(old(Rest()))[1..]
      ensures old(state) == ObjectStart || old(state) == ObjectComma ==>
              (t == CloseBrace <==> At(Skip(old(Rest())), '}'))
      ensures t == CloseBrace ==> At(Skip(old(Rest())), '}') && Rest() == Skip(old(Rest()))[1..]
      ensures old(state) == ObjectStart ==> KeyRead(Skip(old(Rest())), t, state, Rest())
      ensures old(state) == ObjectComma && At(Skip(old(Rest())), ',') ==>
        KeyRead(Skip(Skip(old(Rest()))[1..]), t, state, Rest())
      ensures old(state) == ObjectComma && !At(Skip(old(Rest())), ',') ==> !t.Key?
    {
      hide SkipSpace, KeyAt;
      var c := Peek();
      if c == Some(',') && state == ObjectComma {
        assert Rest()[1..] == raw[pos + 1..];
        pos, state := pos + 1, ObjectKey;
        c := Peek();
      }
      t := TokenHere();
    }

    /** The token at the current position, which is not whitespace. */
    method TokenHere() returns (t: Token)
      requires Valid() && (Rest() == "" || !IsSpace(Rest()[0]))
      modifies this
      ensures Valid()
      ensures t == OpenBrace <==> old(state) == Top && At(old(Rest()), '{')
      ensures t == OpenBrace ==> state == ObjectStart && Rest() == old(Rest())[1..]
      ensures t == CloseBrace <==> (old(state) == ObjectStart || old(state) == ObjectComma) && At(old(Rest()), '}')
      ensures t == CloseBrace ==> Rest() == old(Rest())[1..]
      ensures old(state) == ObjectStart || old(state) == ObjectKey ==> KeyRead(old(Rest()), t, state, Rest())
      ensures old(state) == ObjectComma ==> !t.Key?
    {
      hide ParseBody, Unquote;
      t := Other;
      if pos == |raw| { return; }
      assert Rest()[1..] == raw[pos + 1..];
      if raw[pos] == '{' {
        if state == Top {
          pos, state, t := pos + 1, ObjectStart, OpenBrace;
        }
      } else if raw[pos] == '}' {
        if state == ObjectStart || state == ObjectComma {
          pos, state, t := pos + 1, Top, CloseBrace;
        }
      } else if raw[pos] == '"' && (state == ObjectStart || state == ObjectKey) {
        t := ReadKey();
      }
    }

    /** Decodes the key at the current position. */
    method ReadKey() returns (t: Token)
      requires Valid() && At(Rest(), '"')
      modifies this
      ensures Valid() && KeyRead(old(Rest()), t, state, Rest()) && (t.Key? || t.Other?)
    {
      hide ParseBody, WellFormedBody, Unquote;
      var s := Rest();
      var body := ParseBody(s[1..]);
      if body == Fail { return Other; }
      ParseBodySound(s[1..]);
      BodyEnds(s[1..]);
      pos := |raw| - |body.rest|;
      state := ObjectColon;
      return Key(Unquote(body.value));
    }

    /** Reads the value of the current member as raw text. */
    method DecodeRaw() returns (v: Option<Value>)
      requires Valid() && state == ObjectColon
      modifies this
      ensures Valid()
      ensures match ReadValue(old(Rest()))
        case Fail => v == None
        case Done(value, rest) => v == Some(value) && Rest() == rest && state == ObjectComma
    {
      hide ParseColon, ParseValue, WellFormed, Emit;
      var s := Rest();
      v := None;
      var c := ParseColon(s);
      if c.Done? {
        var r := ParseValue(c.rest, MAX_DEPTH);
        if r.Done? {
          ParseValueSound(c.rest, MAX_DEPTH);
          EmitSplits(r.value, r.rest);
          pos := |raw| - |r.rest|;
          state, v := ObjectComma, Some(r.value);
        }
      }
    }
  }

  /** What a token read where a key is due says about the input `s` there. */
  ghost predicate KeyRead(s: Bytes, t: Token, state: State, rest: Bytes) {
    match KeyAt(s)
    case Fail => !t.Key?
    case Done(key, r) => t == Key(key) && state == ObjectColon && rest == r
  }

  lemma BodyEnds(s: Bytes)
    requires ParseBody(s).Done?
    ensures var r := ParseBody(s).rest; |r| <= |s| && s[|s| - |r|..] == r
  {
    ParseBodySound(s);
  }

  /** One turn of the loop, as equations. */
  lemma AtMember(s: Bytes, fields: Fields, allowed: set<Bytes>)
    ensures var k, r := KeyAt(Skip(s)), ScanMember(s, fields, allowed);
      && (k.Fail? ==> r == Malformed)
      && (k.Done? && k.value !in allowed ==> r == Unexpected(k.value))
      && (k.Done? && k.value in allowed && k.value in fields ==> r == Malformed)
      && (k.Done? && k.value in allowed && k.value !in fields ==>
            var v := ReadValue(k.rest);
            && (v.Fail? ==> r == Malformed)
            && (v.Done? ==> r == ScanTail(v.rest, fields[k.value := TextOf(v.value)], allowed)))
  {
    hide KeyAt, ReadValue, SkipSpace, ScanTail;
  }

  lemma AtStart(s: Bytes, allowed: set<Bytes>)
    requires s == Skip(s)
    ensures ScanStart(s, allowed) == if At(s, '}') then ScanEnd(s[1..], map[]) else ScanMember(s, map[], allowed)
  {
    hide ScanMember;
  }

  lemma StartSkips(s: Bytes, allowed: set<Bytes>)
    ensures ScanStart(Skip(s), allowed) == ScanStart(s, allowed)
  {
    hide KeyAt, ReadValue, ScanTail;
    SkipTwice(s);
  }

  lemma TailSkips(s: Bytes, fields: Fields, allowed: set<Bytes>)
    ensures ScanTail(Skip(s), fields, allowed) == ScanTail(s, fields, allowed)
  {
    hide ScanMember;
    SkipTwice(s);
  }

  lemma NoKey(s: Bytes)
    requires s == Skip(s) && !At(s, '"')
    ensures KeyAt(Skip(s)) == Fail
  {}

  lemma AtTail(s: Bytes, fields: Fields, allowed: set<Bytes>)
    requires s == Skip(s)
    ensures ScanTail(s, fields, allowed) ==
      if At(s, '}') then ScanEnd(s[1..], fields)
      else if At(s, ',') then ScanMember(s[1..], fields, allowed)
      else Malformed
  {
    hide ScanMember;
  }

  /** Stored fields stay, and only allowed keys are added. */
  lemma {:induction false} MemberKeeps(s: Bytes, fields: Fields, allowed: set<Bytes>)
    requires ScanMember(s, fields, allowed).Accepted? && fields.Keys <= allowed
    ensures var out := ScanMember(s, fields, allowed).fields;
      out.Keys <= allowed && forall k :: k in fields ==> k in out && out[k] == fields[k]
    decreases |s|, 0
  {
    hide KeyAt, ReadValue, SkipSpace, TextOf, ScanTail;
    AtMember(s, fields, allowed);
    var k := KeyAt(Skip(s));
    var v := ReadValue(k.rest);
    TailKeeps(v.rest, fields[k.value := TextOf(v.value)], allowed);
  }

  lemma {:induction false} TailKeeps(s: Bytes, fields: Fields, allowed: set<Bytes>)
    requires ScanTail(s, fields, allowed).Accepted? && fields.Keys <= allowed
    ensures var out := ScanTail(s, fields, allowed).fields;
      out.Keys <= allowed && forall k :: k in fields ==> k in out && out[k] == fields[k]
    decreases |s|, 1
  {
    hide SkipSpace, ScanMember;
    if At(Skip(s), ',') {
      MemberKeeps(Skip(s)[1..], fields, allowed);
    }
  }

  lemma AcceptedKeys(raw: Bytes, allowed: set<Bytes>)
    requires StrictObject(raw, allowed).Accepted?
    ensures StrictObject(raw, allowed).fields.Keys <= allowed
  {
    hide ValidUtf8, ScanMember, SkipSpace;
    var s := Skip(raw)[1..];
    if !At(Skip(s), '}') {
      MemberKeeps(s, map[], allowed);
    }
  }

  lemma {:induction false} SubsetSize<T>(a: set<T>, b: set<T>)
    requires a <= b
    ensures |a| <= |b|
  {
    if x :| x in a {
      SubsetSize(a - {x}, b - {x});
    }
  }

  /** As many keys as are allowed means every allowed key. */
  lemma FullSet(keys: set<Bytes>, allowed: set<Bytes>)
    requires keys <= allowed && |keys| == |allowed|
    ensures keys == allowed
  {
    if k :| k in allowed && k !in keys {
      SubsetSize(keys, allowed - {k});
    }
  }

  /** The strict reader succeeded and every allowed key is there. */
  function AllFields(raw: Bytes, allowed: set<Bytes>): (f: Option<Fields>)
    ensures f.Some? ==> f.value.Keys == allowed
  {
    match StrictObject(raw, allowed)
    case Accepted(f) =>
      if |f| != |allowed| then None
      else
        AcceptedKeys(raw, allowed);
        FullSet(f.Keys, allowed);
        Some(f)
    case _ => None
  }

  /** Where a reading loop stands: at the first member, or after one. */
  ghost predicate Awaits(start: bool, here: Bytes, fields: Fields, allowed: set<Bytes>, goal: Strict) {
    && here == Skip(here)
    && (if start then fields == map[] && goal == ScanStart(here, allowed) else goal == ScanTail(here, fields, allowed))
  }

  predicate MoreAt(s: Bytes) { s != "" && s[0] != ']' && s[0] != '}' }

  lemma StartAwaits(s: Bytes, allowed: set<Bytes>)
    ensures Awaits(true, Skip(s), map[], allowed, ScanStart(s, allowed))
  {
    SkipTwice(s);
    StartSkips(s, allowed);
  }

  lemma AwaitsSkipped(start: bool, here: Bytes, fields: Fields, allowed: set<Bytes>, goal: Strict)
    requires Awaits(start, here, fields, allowed, goal)
    ensures here == Skip(here)
  {}

  /** What one turn of the loop decides, by the key and the value that come next. */
  lemma Turn(start: bool, here: Bytes, fields: Fields, allowed: set<Bytes>, goal: Strict)
    requires Awaits(start, here, fields, allowed, goal)
    ensures At(here, '}') ==> goal == ScanEnd(here[1..], fields)
    ensures !At(here, '}') && !MoreAt(here) ==> goal == Malformed
    ensures MoreAt(here) && !start && !At(here, ',') ==> goal == Malformed
    ensures MoreAt(here) && (start || At(here, ',')) ==>
      var k := KeyAt(if start then here else Skip(here[1..]));
      && (k.Fail? ==> goal == Malformed)
      && (k.Done? && k.value !in allowed ==> goal == Unexpected(k.value))
      && (k.Done? && k.value in allowed && k.value in fields ==> goal == Malformed)
      && (k.Done? && k.value in allowed && k.value !in fields ==>
            var v := ReadValue(k.rest);
            && (v.Fail? ==> goal == Malformed)
            && (v.Done? ==> Awaits(false, Skip(v.rest), fields[k.value := TextOf(v.value)], allowed, goal)))
  {
    hide KeyAt, ReadValue, Skip, ScanMember, ScanTail, ScanStart, TextOf;
    var s := if start then here else if here == "" then here else here[1..];
    if start { AtStart(here, allowed); } else { AtTail(here, fields, allowed); }
    AtMember(s, fields, allowed);
    if start && !At(here, '"') { NoKey(here); }
    var k := KeyAt(Skip(s));
    if k.Done? {
      var v := ReadValue(k.rest);
      if v.Done? {
        SkipTwice(v.rest);
        TailSkips(v.rest, fields[k.value := TextOf(v.value)], allowed);
      }
    }
  }

  method ReadStrictObject(raw: Bytes, allowed: set<Bytes>) returns (r: Strict)
    ensures r == StrictObject(raw, allowed)
  {
    hide KeyAt, ReadValue, Skip, ValidUtf8, Awaits, ScanStart, WellFormed, TextOf, IsSpace;
    if |raw| == 0 || !ValidUtf8(raw) { return Malformed; }
    var decoder := new Decoder(raw);
    assert raw[0..] == raw;
    var token := decoder.NextToken();
    if token != OpenBrace { return Malformed; }
    var fields: Fields := map[];
    ghost var goal := StrictObject(raw, allowed);
    StartAwaits(Skip(raw)[1..], allowed);
    var more := decoder.More();
    while more
      invariant decoder.Valid() && decoder.raw == raw && fresh(decoder)
      invariant decoder.state == ObjectStart || decoder.state == ObjectComma
      invariant Awaits(decoder.state == ObjectStart, decoder.Rest(), fields, allowed, goal)
      invariant more == MoreAt(decoder.Rest())
      decreases |decoder.Rest()|
    {
      Turn(decoder.state == ObjectStart, decoder.Rest(), fields, allowed, goal);
      AwaitsSkipped(decoder.state == ObjectStart, decoder.Rest(), fields, allowed, goal);
      token := decoder.NextToken();
      if !token.Key? { return Malformed; }
      if token.text !in allowed { return Unexpected(token.text); }
      if token.text in fields { return Malformed; }
      var value := decoder.DecodeRaw();
      if value == None { return Malformed; }
      fields := fields[token.text := TextOf(value.value)];
      more := decoder.More();
    }
    Turn(decoder.state == ObjectStart, decoder.Rest(), fields, allowed, goal);
    AwaitsSkipped(decoder.state == ObjectStart, decoder.Rest(), fields, allowed, goal);
    token := decoder.NextToken();
    if token != CloseBrace { return Malformed; }
    // With everything read, the check for trailing values that follows always finds the end.
    if decoder.pos != |raw| { return Malformed; }
    return Accepted(fields);
  }
}
