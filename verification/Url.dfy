/**
 The add-key URL: how its query is encoded, and what net/url makes of a URL that begins with
 a common name from a plan. What it makes of a host with a bracket in it is a parameter,
 since releases of the library differ there.
 */
module Url {
  import opened Text

  // ---- The query ---------------------------------------------------------------------------------

  predicate Alphanumeric(c: char) { 'a' <= c <= 'z' || 'A' <= c <= 'Z' || '0' <= c <= '9' }

  predicate Unreserved(c: char) { Alphanumeric(c) || c == '-' || c == '_' || c == '.' || c == '~' }

  function UpperHex(d: nat): (c: char)
    requires d < 16
    ensures DigitValue(c) == d && Alphanumeric(c)
  {
    if d < 10 then ('0' as int + d) as char else ('A' as int + d - 10) as char
  }

  predicate SingleBytes(s: Bytes) { forall i :: 0 <= i < |s| ==> s[i] as int < 256 }

  function EscapeByte(c: char): Bytes {
    if Unreserved(c) then [c]
    else if c == ' ' then "+"
    else ['%', UpperHex(c as int / 16 % 16), UpperHex(c as int % 16)]
  }

  /** url.QueryEscape. */
  function Escape(s: Bytes): Bytes {
    if s == "" then "" else EscapeByte(s[0]) + Escape(s[1..])
  }

  predicate HexPair(s: Bytes) { |s| >= 3 && DigitValue(s[1]) >= 0 && DigitValue(s[2]) >= 0 }

  /** url.QueryUnescape. */
  function Unescape(s: Bytes): Option<Bytes> {
    if s == "" then Some("")
    else if s[0] == '%' then
      if !HexPair(s) then None
      else
        (match Unescape(s[3..])
         case None => None
         case Some(t) => Some([(DigitValue(s[1]) * 16 + DigitValue(s[2])) as char] + t))
    else
      (match Unescape(s[1..])
       case None => None
       case Some(t) => Some([if s[0] == '+' then ' ' else s[0]] + t))
  }

  /** The encoded query with the token and the public key, in the order of the names. */
  function Query(token: Bytes, key: Bytes): Bytes { "pt=" + (Escape(token) + ("&pubkey=" + Escape(key))) }

  /** What a server reads from a query: the pairs between ampersands. */
  function ReadPair(s: Bytes): Option<(Bytes, Bytes)> {
    if '=' !in s then None
    else
      match (Unescape(UpTo(s, '=')), Unescape(Past(s, '=')))
      case (Some(k), Some(v)) => Some((k, v))
      case _ => None
  }

  function ReadQuery(s: Bytes): seq<Option<(Bytes, Bytes)>>
    decreases |s|
  {
    if '&' !in s then [ReadPair(s)] else [ReadPair(UpTo(s, '&'))] + ReadQuery(Past(s, '&'))
  }

  /** The bytes an escaped text is made of. */
  predicate EscapedByte(c: char) { Unreserved(c) || c == '+' || c == '%' }

  ghost predicate EscapedBytes(s: Bytes) { forall i :: 0 <= i < |s| ==> EscapedByte(s[i]) }

  lemma {:induction false} EscapeBytes(s: Bytes)
    ensures EscapedBytes(Escape(s))
  {
    if s != "" { EscapeBytes(s[1..]); }
  }

  lemma EscapeByteReads(c: char, rest: Bytes)
    requires c as int < 256 && Unescape(rest).Some?
    ensures Unescape(EscapeByte(c) + rest) == Some([c] + Unescape(rest).value)
  {
    var u := EscapeByte(c);
    var s := u + rest;
    assert s[|u|..] == rest;
    if |u| == 3 {
      assert s[1] == UpperHex(c as int / 16) && s[2] == UpperHex(c as int % 16);
    }
  }

  /** An escaped text reads back. */
  lemma {:induction false} EscapeReads(s: Bytes)
    requires SingleBytes(s)
    ensures Unescape(Escape(s)) == Some(s)
  {
    hide EscapeByte;
    if s != "" {
      EscapeReads(s[1..]);
      EscapeByteReads(s[0], Escape(s[1..]));
      assert s == [s[0]] + s[1..];
    }
  }

  lemma PairReads(name: Bytes, value: Bytes)
    requires '=' !in name && Unescape(name) == Some(name) && SingleBytes(value)
    ensures ReadPair(name + (['='] + Escape(value))) == Some((name, value))
  {
    hide Escape, Unescape;
    UpToFirst(name, '=', Escape(value));
    EscapeReads(value);
  }

  lemma PlainReads(name: Bytes)
    requires |name| <= 6 && forall i :: 0 <= i < |name| ==> Unreserved(name[i])
    ensures Unescape(name) == Some(name)
    decreases |name|
  {
    if name != "" {
      PlainReads(name[1..]);
      assert name == [name[0]] + name[1..];
    }
  }

  /** A server reads the token and the key from the query. */
  lemma QueryReads(token: Bytes, key: Bytes)
    requires SingleBytes(token) && SingleBytes(key)
    ensures ReadQuery(Query(token, key)) == [Some(("pt", token)), Some(("pubkey", key))]
  {
    hide Escape, Unescape, ReadPair, UpTo;
    var first, second := "pt" + (['='] + Escape(token)), "pubkey" + (['='] + Escape(key));
    EscapeBytes(token);
    EscapeBytes(key);
    PlainReads("pt");
    PlainReads("pubkey");
    PairReads("pt", token);
    PairReads("pubkey", key);
    assert Query(token, key) == first + (['&'] + second);
    UpToFirst(first, '&', second);
  }

  // ---- Parsing -----------------------------------------------------------------------------------

  /** A parsed https URL: what it asks of which host. */
  datatype Url = Url(host: Bytes, path: Bytes, query: Option<Bytes>)

  /** What the library makes of a host with a bracket in it. */
  type BracketParser = Bytes -> Option<Bytes>

  predicate Control(c: char) { c < ' ' || c as int == 0x7f }

  predicate HasControl(s: Bytes) { exists i :: 0 <= i < |s| && Control(s[i]) }

  /** Bytes that may stand for themselves in a host. */
  predicate HostByte(c: char) {
    || c as int >= 0x80 || Unreserved(c)
    || c in {'!', '$', '&', '\'', '(', ')', '*', '+', ',', ';', '=', ':', '[', ']', '<', '>', '"'}
  }

  /** In a host only bytes beyond ASCII, and the percent sign, may be escaped. */
  function UnescapeHost(s: Bytes): Option<Bytes> {
    if s == "" then Some("")
    else if s[0] == '%' then
      if !HexPair(s) || (DigitValue(s[1]) < 8 && s[1..3] != "25") then None
      else
        (match UnescapeHost(s[3..])
         case None => None
         case Some(t) => Some([(DigitValue(s[1]) * 16 + DigitValue(s[2])) as char] + t))
    else if !HostByte(s[0]) then None
    else (match UnescapeHost(s[1..]) case None => None case Some(t) => Some([s[0]] + t))
  }

  function HostOf(s: Bytes, brackets: BracketParser): Option<Bytes> {
    if '[' in s then brackets(s) else UnescapeHost(s)
  }

  /** Every percent sign begins an escape. */
  predicate EscapesOk(s: Bytes) {
    s == "" || (if s[0] == '%' then HexPair(s) && EscapesOk(s[3..]) else EscapesOk(s[1..]))
  }

  /**
   url.Parse of "https://" and the rest, for authorities without user information and with
   no port but a decimal one, and for paths without escapes.
   */
  function ParseHttps(rest: Bytes, brackets: BracketParser): Option<Url> {
    var u := UpTo(rest, '#');
    if HasControl(u) then None
    else if '#' in rest && !EscapesOk(Past(rest, '#')) then None
    else
      var main := UpTo(u, '?');
      var authority := UpTo(main, '/');
      match HostOf(authority, brackets)
      case None => None
      case Some(host) => Some(Url(host, main[|authority|..], if '?' in u then Some(Past(u, '?')) else None))
  }

  const PORT: Bytes := ":1337"

  const PATH: Bytes := "/addKey"

  /** http.NewRequestWithContext on the URL of an add-key request. */
  function AddKeyUrl(name: Bytes, token: Bytes, key: Bytes, brackets: BracketParser): Option<Url> {
    ParseHttps(name + (PORT + (PATH + ("?" + Query(token, key)))), brackets)
  }

  // ---- What becomes of a name --------------------------------------------------------------------

  /** A name that ends the host early: the rest of the URL becomes its query or its fragment. */
  predicate CutsUrl(name: Bytes) { '#' in name || '?' in name }

  /** The authority that a URL with this name has. */
  function Authority(name: Bytes): Bytes { if CutsUrl(name) then UpTo(UpTo(name, '#'), '?') else name + PORT }

  /** Whether a request can be built, and for which host; it depends on the name alone. */
  function RequestHost(name: Bytes, brackets: BracketParser): Option<Bytes> {
    if HasControl(UpTo(name, '#')) then None
    else if '#' in name && !EscapesOk(Past(name, '#')) then None
    else HostOf(Authority(name), brackets)
  }

  lemma {:induction false} EscapedOk(s: Bytes, rest: Bytes)
    ensures EscapesOk(Escape(s) + rest) == EscapesOk(rest)
  {
    if s == "" {
      assert Escape(s) + rest == rest;
    } else {
      EscapedOk(s[1..], rest);
      var u := EscapeByte(s[0]);
      var t := u + (Escape(s[1..]) + rest);
      assert Escape(s) + rest == t;
      assert t[|u|..] == Escape(s[1..]) + rest;
    }
  }

  lemma {:induction false} EscapesUpTo(a: Bytes, rest: Bytes)
    requires rest != "" && rest[0] != '%' && DigitValue(rest[0]) < 0
    ensures EscapesOk(a + rest) == (EscapesOk(a) && EscapesOk(rest))
  {
    var s := a + rest;
    if a == "" {
      assert s == rest;
    } else if a[0] == '%' {
      assert HexPair(s) == HexPair(a);
      if HexPair(a) {
        assert s[3..] == a[3..] + rest;
        EscapesUpTo(a[3..], rest);
      }
    } else {
      assert s[1..] == a[1..] + rest;
      EscapesUpTo(a[1..], rest);
    }
  }

  /** The text after a name in an add-key URL. */
  function Rest(token: Bytes, key: Bytes): Bytes { PORT + (PATH + ("?" + Query(token, key))) }

  lemma ControlsJoin(a: Bytes, b: Bytes)
    ensures HasControl(a + b) <==> HasControl(a) || HasControl(b)
  {
    var s := a + b;
    if i :| 0 <= i < |a| && Control(a[i]) { assert Control(s[i]); }
    if i :| 0 <= i < |b| && Control(b[i]) { assert Control(s[|a| + i]); }
    if i :| 0 <= i < |s| && Control(s[i]) { assert s[i] == if i < |a| then a[i] else b[i - |a|]; }
  }

  /** Nothing in it ends a URL or spoils one. */
  ghost predicate Innocent(s: Bytes) { '#' !in s && !HasControl(s) && EscapesOk(s) }

  /** An innocent text before one that cannot complete an escape. */
  lemma InnocentJoin(a: Bytes, b: Bytes)
    requires Innocent(a) && Innocent(b) && (b == "" || (b[0] != '%' && DigitValue(b[0]) < 0))
    ensures Innocent(a + b)
  {
    hide HasControl, EscapesOk;
    ControlsJoin(a, b);
    if b == "" { assert a + b == a; } else { EscapesUpTo(a, b); }
  }

  lemma InnocentEscape(s: Bytes, rest: Bytes)
    requires Innocent(rest)
    ensures Innocent(Escape(s) + rest)
  {
    hide EscapesOk, Escape;
    EscapeBytes(s);
    ControlsJoin(Escape(s), rest);
    EscapedOk(s, rest);
  }

  /** A literal of lower-case letters and a few marks. */
  lemma InnocentWord(s: Bytes)
    requires |s| <= 16 && forall i :: 0 <= i < |s| ==> Alphanumeric(s[i]) || s[i] in {'&', '=', ':', '/', '?'}
    ensures Innocent(s)
  {
    NoEscapes(s);
  }

  lemma QueryInnocent(token: Bytes, key: Bytes)
    ensures Innocent(Query(token, key))
  {
    hide Innocent, Escape, EscapesOk;
    InnocentWord("");
    InnocentWord("=");
    InnocentWord("pt");
    InnocentWord("&pubkey");
    InnocentEscape(key, "");
    InnocentMark('=', Escape(key) + "");
    InnocentJoin("&pubkey", ['='] + (Escape(key) + ""));
    var tail := "&pubkey" + (['='] + (Escape(key) + ""));
    InnocentEscape(token, tail);
    InnocentMark('=', Escape(token) + tail);
    InnocentJoin("pt", ['='] + (Escape(token) + tail));
    assert Query(token, key) == "pt" + (['='] + (Escape(token) + tail));
  }

  lemma InnocentMark(c: char, s: Bytes)
    requires c in {'=', '?'} && Innocent(s)
    ensures Innocent([c] + s)
  {
    hide HasControl;
    assert ([c] + s)[1..] == s;
    ControlsJoin([c], s);
    assert !HasControl([c]) by { NoControl(c); }
  }

  lemma NoControl(c: char)
    requires !Control(c)
    ensures !HasControl([c])
  {}

  lemma {:induction false} NoEscapes(s: Bytes)
    requires '%' !in s
    ensures EscapesOk(s)
  {
    if s != "" { NoEscapes(s[1..]); }
  }

  lemma RestInnocent(token: Bytes, key: Bytes)
    ensures var r := Rest(token, key); Innocent(r) && r == (PORT + PATH) + (['?'] + Query(token, key)) && r[0] == ':'
  {
    hide Query, Innocent;
    var q := Query(token, key);
    QueryInnocent(token, key);
    InnocentMark('?', q);
    InnocentWord(PORT + PATH);
    InnocentJoin(PORT + PATH, ['?'] + q);
    assert Rest(token, key) == (PORT + PATH) + (['?'] + q);
  }

  /** Where the question mark is in the URL of a name that does not cut it. */
  lemma PlainQuestion(name: Bytes, q: Bytes)
    requires '?' !in name
    ensures var u := name + ((PORT + PATH) + (['?'] + q));
      '?' in u && UpTo(u, '?') == (name + PORT) + PATH && Past(u, '?') == q
  {
    hide UpTo, Past;
    Regrouped(name, PORT, PATH, ['?'] + q);
    NoneOf(name, '?');
    UpToFirst((name + PORT) + PATH, '?', q);
  }

  /** Where the slash is before it. */
  lemma PlainSlash(name: Bytes)
    requires '/' !in name
    ensures UpTo((name + PORT) + PATH, '/') == name + PORT && ((name + PORT) + PATH)[|name + PORT|..] == PATH
  {
    hide UpTo, Past;
    NoneOf(name, '/');
    SlashEnds(name + PORT);
  }

  lemma SlashEnds(authority: Bytes)
    requires '/' !in authority
    ensures UpTo(authority + PATH, '/') == authority && (authority + PATH)[|authority|..] == PATH
  {
    hide UpTo, Past;
    var tail := PATH[1..];
    assert PATH == ['/'] + tail;
    UpToFirst(authority, '/', tail);
    SecondPart(authority, PATH);
  }

  lemma SecondPart(a: Bytes, b: Bytes)
    ensures (a + b)[|a|..] == b
  {}

  lemma Regrouped(a: Bytes, b: Bytes, c: Bytes, d: Bytes)
    ensures a + ((b + c) + d) == ((a + b) + c) + d
  {}

  lemma NoneOf(name: Bytes, c: char)
    requires c in {'?', '/'} && c !in name
    ensures c !in name + PORT && (c == '?' ==> c !in (name + PORT) + PATH)
  {}

  /** A name with neither a hash nor a question mark gives the request it should. */
  lemma PlainName(name: Bytes, token: Bytes, key: Bytes, brackets: BracketParser)
    requires !CutsUrl(name) && '/' !in name
    ensures var u, host := AddKeyUrl(name, token, key, brackets), RequestHost(name, brackets);
      && (u.Some? <==> host.Some?)
      && (u.Some? ==> u.value == Url(host.value, PATH, Some(Query(token, key))))
  {
    hide UnescapeHost, EscapesOk, Query, UpTo, HasControl, HostOf;
    var rest := Rest(token, key);
    RestInnocent(token, key);
    UpToAbsent(name, rest, '#');
    ControlsJoin(name, rest);
    PlainQuestion(name, Query(token, key));
    PlainSlash(name);
    assert UpTo(name, '#') == name && UpTo(rest, '#') == rest;
  }

  /**
   A question mark in a name makes the rest of the URL its query, a hash its fragment: the
   path is lost, and with a hash the token and the key as well.
   */
  lemma CutName(name: Bytes, token: Bytes, key: Bytes, brackets: BracketParser)
    requires CutsUrl(name) && '/' !in name
    ensures var u, host := AddKeyUrl(name, token, key, brackets), RequestHost(name, brackets);
      && (u.Some? <==> host.Some?)
      && (u.Some? ==> u.value.host == host.value && u.value.path == "")
      && ('#' in name && u.Some? ==>
          u.value.query == (if '?' in UpTo(name, '#') then Some(Past(UpTo(name, '#'), '?')) else None))
      && ('#' !in name && u.Some? ==> u.value.query == Some(Past(name, '?') + Rest(token, key)))
  {
    hide AddKeyUrl, RequestHost, Query, UpTo;
    if '#' in name { HashName(name, token, key, brackets); } else { QuestionName(name, token, key, brackets); }
  }

  lemma HashName(name: Bytes, token: Bytes, key: Bytes, brackets: BracketParser)
    requires '#' in name && '/' !in name
    ensures var u, host := AddKeyUrl(name, token, key, brackets), RequestHost(name, brackets);
      && (u.Some? <==> host.Some?)
      && (u.Some? ==> u.value == Url(host.value, "",
            if '?' in UpTo(name, '#') then Some(Past(UpTo(name, '#'), '?')) else None))
  {
    hide UnescapeHost, EscapesOk, Query, HasControl, HostOf, UpTo;
    var rest := Rest(token, key);
    RestInnocent(token, key);
    UpToPresent(name, rest, '#');
    EscapesUpTo(Past(name, '#'), rest);
    NoPath(UpTo(UpTo(name, '#'), '?'));
  }

  lemma QuestionName(name: Bytes, token: Bytes, key: Bytes, brackets: BracketParser)
    requires '#' !in name && '?' in name && '/' !in name
    ensures var u, host := AddKeyUrl(name, token, key, brackets), RequestHost(name, brackets);
      && (u.Some? <==> host.Some?)
      && (u.Some? ==> u.value == Url(host.value, "", Some(Past(name, '?') + Rest(token, key))))
  {
    hide UnescapeHost, EscapesOk, Query, HasControl, HostOf, UpTo;
    var rest := Rest(token, key);
    RestInnocent(token, key);
    UpToAbsent(name, rest, '#');
    ControlsJoin(name, rest);
    UpToPresent(name, rest, '?');
    assert UpTo(rest, '#') == rest && UpTo(name, '#') == name;
    NoPath(UpTo(name, '?'));
  }

  /** An authority without a slash is all there is before the query. */
  lemma NoPath(main: Bytes)
    requires '/' !in main
    ensures UpTo(main, '/') == main && main[|main|..] == ""
  {}

  /** A request for /addKey from whose query a server reads this token and this key. */
  predicate AsksFor(u: Url, token: Bytes, key: Bytes) {
    u.path == PATH && u.query.Some? && ReadQuery(u.query.value) == [Some(("pt", token)), Some(("pubkey", key))]
  }

  /** The request asks for what it should exactly if the name does not cut the URL. */
  lemma AsksExactly(name: Bytes, token: Bytes, key: Bytes, brackets: BracketParser)
    requires '/' !in name && SingleBytes(token) && SingleBytes(key)
    requires AddKeyUrl(name, token, key, brackets).Some?
    ensures AsksFor(AddKeyUrl(name, token, key, brackets).value, token, key) <==> !CutsUrl(name)
  {
    hide AddKeyUrl, RequestHost, Query, ReadQuery, CutsUrl;
    if CutsUrl(name) {
      CutName(name, token, key, brackets);
    } else {
      PlainName(name, token, key, brackets);
      QueryReads(token, key);
    }
  }

  /** Whether the URL parses, and its host, are matters of the name alone. */
  lemma HostIsRequestHost(name: Bytes, token: Bytes, key: Bytes, brackets: BracketParser)
    requires '/' !in name
    ensures var u, host := AddKeyUrl(name, token, key, brackets), RequestHost(name, brackets);
      (u.Some? <==> host.Some?) && (u.Some? ==> u.value.host == host.value)
  {
    hide AddKeyUrl, RequestHost, Query;
    if CutsUrl(name) { CutName(name, token, key, brackets); } else { PlainName(name, token, key, brackets); }
  }
}
