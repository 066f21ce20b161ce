/** For every valid plan there is an environment in which the run succeeds. */
module RunExists {
  import opened Text
  import opened Utf8
  import opened JsonGrammar
  import opened JsonString
  import opened JsonPrint
  import opened Ipv4
  import opened Failure
  import opened Plan
  import opened PlanPrint
  import opened CredentialInput
  import opened AddKey
  import opened AnswerPrint
  import opened ConfigSize
  import opened Records
  import opened Transport
  import opened Url
  import opened Argv
  import opened Machine
  import opened RunFacts
  import opened RunSuccess

  // ---- A command line ----------------------------------------------------------------------------

  /** The six descriptor flags, each written --name=value. */
  const ITEMS: seq<Item> := [
    Item("constrained-plan-fd", "3", Joined), Item("credentials-fd", "4", Joined), Item("public-ca-fd", "5", Joined),
    Item("regional-ca-fd", "6", Joined), Item("config-fd", "7", Joined), Item("result-fd", "8", Joined)]

  lemma OneDigit(c: char)
    requires IsDigit(c)
    ensures Atoi([c]).Some?
  {
    DigitsAreNumeral([c]);
    assert NumberOf([c], 10) <= 9;
  }

  lemma {:induction false} NamesGiven(items: seq<Item>, values: map<Bytes, int>, seen: set<Bytes>)
    requires Proper(items, seen)
    ensures values.Keys <= ValuesOf(items, values).Keys
    ensures forall k :: 0 <= k < |items| && items[k].name != MARK ==> items[k].name in ValuesOf(items, values)
    ensures (forall k :: 0 <= k < |items| ==> items[k].name != MARK) ==> MarkOf(items, None) == None
  {
    hide Atoi;
    if items != [] {
      var i, rest := items[0], items[1..];
      var more := if i.name != MARK && Atoi(i.value).Some? then values[i.name := Atoi(i.value).value] else values;
      NamesGiven(rest, more, seen + {i.name});
      assert forall k :: 0 < k < |items| ==> items[k] == rest[k - 1];
    }
  }

  lemma {:induction false} DistinctItems(items: seq<Item>, seen: set<Bytes>)
    requires forall k :: 0 <= k < |items| ==> ProperItem(items[k]) && items[k].name !in seen
    requires forall j, k :: 0 <= j < k < |items| ==> items[j].name != items[k].name
    ensures Proper(items, seen)
  {
    hide ProperItem;
    if items != [] {
      var rest := items[1..];
      assert forall k :: 0 <= k < |rest| ==> rest[k] == items[k + 1];
      DistinctItems(rest, seen + {items[0].name});
    }
  }

  lemma ItemsProper()
    ensures Proper(ITEMS, {}) && forall k :: 0 <= k < |ITEMS| ==> ITEMS[k].name != MARK
    ensures forall n :: n in FD_FLAGS ==> exists k :: 0 <= k < |ITEMS| && ITEMS[k].name == n
  {
    hide Atoi, Proper;
    OneDigit('3');
    OneDigit('4');
    OneDigit('5');
    OneDigit('6');
    OneDigit('7');
    OneDigit('8');
    assert ITEMS[0].name[3] == 's' && ITEMS[1].name[0] == 'c' && ITEMS[2].name[0] == 'p' && ITEMS[3].name[2] == 'g';
    assert ITEMS[4].name[3] == 'f' && ITEMS[5].name[2] == 's' && MARK[0] == 's';
    assert |ITEMS[0].name| == 19 && |ITEMS[1].name| == 14 && |ITEMS[2].name| == 12 && |ITEMS[3].name| == 14;
    assert |ITEMS[4].name| == 9 && |ITEMS[5].name| == 9 && |MARK| == 11;
    assert ITEMS[1].name[0] != ITEMS[3].name[0] && ITEMS[4].name[0] != ITEMS[5].name[0];
    DistinctItems(ITEMS, {});
    assert FD_FLAGS == {ITEMS[0].name, ITEMS[1].name, ITEMS[2].name, ITEMS[3].name, ITEMS[4].name, ITEMS[5].name};
  }

  /** A command line that is accepted, without a mark. */
  lemma SomeCommandLine() returns (args: seq<Bytes>)
    ensures ParseCommandLine(args).problem == None && ParseCommandLine(args).mark == None && !Repeats(args, {})
  {
    hide Proper, SpellAll, ValuesOf, MarkOf, Repeats, Requested, ParseArgs;
    ItemsProper();
    NamesGiven(ITEMS, map[], {});
    args := SpellAll(ITEMS);
    forall n | n in FD_FLAGS ensures n in ValuesOf(ITEMS, map[]) {
      var k :| 0 <= k < |ITEMS| && ITEMS[k].name == n;
    }
    assert Means(ITEMS, args, ValuesOf(ITEMS, map[]), None);
    ArgvExact(args, ValuesOf(ITEMS, map[]), None);
    var items := ScannersAgree(args);
  }

  // ---- Sizes -------------------------------------------------------------------------------------

  lemma TwoStringsWidth(k1: Bytes, s1: Bytes, k2: Bytes, s2: Bytes)
    requires Ascii(s1) && Ascii(s2)
    ensures |TextOf(Compact([(k1, StringValue(s1)), (k2, StringValue(s2))]))| <= 13 + |k1| + |k2| + 6 * (|s1| + |s2|)
  {
    hide Width, Emit, StringValue, Compact;
    StringWidth(k1, s1);
    StringWidth(k2, s2);
    WidthAdds([(k1, StringValue(s1))], [(k2, StringValue(s2))]);
    RecordWidth([(k1, StringValue(s1)), (k2, StringValue(s2))]);
    assert [(k1, StringValue(s1))] + [(k2, StringValue(s2))] == [(k1, StringValue(s1)), (k2, StringValue(s2))];
  }

  lemma EndpointWidth(x: Endpoint)
    requires Ascii(x.ipv4) && |x.ipv4| <= 15 && 0 <= x.port <= 65535
    ensures |TextOf(Compact(EndpointFields(x)))| <= 200
  {
    hide Width, Emit, StringValue, NatValue, Compact;
    StringWidth("ipv4", x.ipv4);
    WidthOne("udp_port", NatValue(x.port));
    ValueWidths(true, x.port);
    WidthAdds([("ipv4", StringValue(x.ipv4))], [("udp_port", NatValue(x.port))]);
    RecordWidth(EndpointFields(x));
    assert EndpointFields(x) == [("ipv4", StringValue(x.ipv4))] + [("udp_port", NatValue(x.port))];
  }

  /** A valid plan, printed, fits the limit on plans. */
  lemma PlanFits(p: Plan, v6: Ipv6Parser)
    requires ValidPlan(p, v6) && Printable(p)
    ensures |TextOf(PlanTree(p))| <= MAX_PLAN
  {
    hide Width, Emit, StringValue, Compact, CandidateFields, EndpointFields, ValidIPv4, ValidRegion, ValidCommonName,
      Dotted, Ascii;
    AsciiSchema();
    PlanLengths(p, v6);
    var flag := if p.portForwarding then True else False;
    var a, b, c, d := ("schema", StringValue(SCHEMA)), ("region", StringValue(p.region)), ("port_forwarding", flag),
      ("token_destination_ipv4", StringValue(p.tokenIPv4));
    var g := ("registration_candidate", Compact(CandidateFields(p.candidate)));
    StringWidth("schema", SCHEMA);
    StringWidth("region", p.region);
    WidthOne("port_forwarding", flag);
    ValueWidths(p.portForwarding, 0);
    StringWidth("token_destination_ipv4", p.tokenIPv4);
    WidthOne("registration_candidate", g.1);
    CandidateWidth(p.candidate);
    var h: seq<Entry> := [];
    NoWidth();
    if p.excluded.Some? {
      h := [("excluded_wireguard_endpoint", Compact(EndpointFields(p.excluded.value)))];
      WidthOne("excluded_wireguard_endpoint", h[0].1);
      EndpointWidth(p.excluded.value);
    }
    WidthAdds([a], [b]);
    WidthAdds([a] + [b], [c]);
    WidthAdds([a] + [b] + [c], [d]);
    WidthAdds([a] + [b] + [c] + [d], [g]);
    WidthAdds([a] + [b] + [c] + [d] + [g], h);
    assert PlanFields(p) == [a] + [b] + [c] + [d] + [g] + h;
    RecordWidth(PlanFields(p));
  }

  lemma CandidateWidth(c: Candidate)
    requires Ascii(c.ipv4) && Ascii(c.commonName) && |c.ipv4| <= 15 && |c.commonName| <= 253
    ensures |TextOf(Compact(CandidateFields(c)))| <= 1700
  {
    hide Emit, StringValue, Compact;
    TwoStringsWidth("ipv4", c.ipv4, "tls_common_name", c.commonName);
  }

  lemma PlanLengths(p: Plan, v6: Ipv6Parser)
    requires ValidPlan(p, v6)
    ensures |p.region| <= 64 && |p.tokenIPv4| <= 15 && |p.candidate.ipv4| <= 15 && |p.candidate.commonName| <= 253
    ensures p.excluded.Some? ==> |p.excluded.value.ipv4| <= 15
  {
    hide ValidIPv4, Dotted;
    var a := ValidIPv4Unique(p.tokenIPv4, v6);
    var b := ValidIPv4Unique(p.candidate.ipv4, v6);
    if p.excluded.Some? { var c := ValidIPv4Unique(p.excluded.value.ipv4, v6); }
  }

  // ---- An answer ---------------------------------------------------------------------------------

  function Letters(n: nat): (s: Bytes)
    ensures |s| == n && forall i :: 0 <= i < n ==> s[i] == 'A'
  {
    if n == 0 then "" else ['A'] + Letters(n - 1)
  }

  /** 43 letters and a pad. */
  const KEY: KeyPrint := Letters(43) + "="

  lemma {:induction false} NothingStripped(s: Bytes)
    requires forall i :: 0 <= i < |s| ==> s[i] != '\n' && s[i] != '\r'
    ensures StripNewlines(s) == s
  {
    if s != "" {
      NothingStripped(s[1..]);
      assert s == [s[0]] + s[1..];
    }
  }

  lemma KeyIsKey()
    ensures KeyText(KEY) && Ascii(KEY)
  {
    NothingStripped(KEY);
  }

  /** An answer to this plan: its own token address as endpoint, on a port that is not excluded. */
  function AnswerTo(p: Plan): AddKeyResult {
    var port := if p.excluded.Some? && p.excluded.value.port == 1 then 2 else 1;
    var gateway := if p.portForwarding then p.tokenIPv4 else "";
    AddKeyResult("OK", KEY, port, p.tokenIPv4, gateway, p.tokenIPv4, KEY, [p.tokenIPv4])
  }

  lemma AnswerToIsApproved(p: Plan, v6: Ipv6Parser)
    requires ValidPlan(p, v6)
    ensures Validate(p.portForwarding, AnswerTo(p), KEY, v6) == None && !Reused(p, AnswerTo(p))
  {
    hide ValidIPv4, KeyText;
    KeyIsKey();
    assert ValidPeerIP(p.tokenIPv4, v6) by { AddressIsPeer(p.tokenIPv4, v6); }
  }

  lemma AddressIsPeer(s: Bytes, v6: Ipv6Parser)
    requires ValidIPv4(s, v6)
    ensures ValidPeerIP(s, v6)
  {
    hide ParseIP, Dotted, SlashIndex;
  }

  lemma AnswerToFits(p: Plan)
    requires PrintableAnswer(AnswerTo(p)) && |p.tokenIPv4| <= 15
    ensures |AnswerText(AnswerTo(p))| <= MAX_BODY
  {
    hide Width, Emit, StringValue, NatValue, StringsValue, Compact, Ascii;
    var r := AnswerTo(p);
    var a, b, c, d := ("status", StringValue(r.status)), ("server_key", StringValue(r.serverKey)),
      ("server_port", NatValue(r.serverPort)), ("server_ip", StringValue(r.serverIP));
    var e, f, g, h := ("server_vip", StringValue(r.serverVIP)), ("peer_ip", StringValue(r.peerIP)),
      ("peer_pubkey", StringValue(r.peerPubKey)), ("dns_servers", StringsValue(r.dns));
    StringWidth("status", r.status);
    StringWidth("server_key", r.serverKey);
    WidthOne("server_port", NatValue(r.serverPort));
    ValueWidths(true, r.serverPort);
    StringWidth("server_ip", r.serverIP);
    StringWidth("server_vip", r.serverVIP);
    StringWidth("peer_ip", r.peerIP);
    StringWidth("peer_pubkey", r.peerPubKey);
    WidthOne("dns_servers", StringsValue(r.dns));
    OneStringWidth(p.tokenIPv4);
    WidthAdds([a], [b]);
    WidthAdds([a] + [b], [c]);
    WidthAdds([a] + [b] + [c], [d]);
    WidthAdds([a] + [b] + [c] + [d], [e]);
    WidthAdds([a] + [b] + [c] + [d] + [e], [f]);
    WidthAdds([a] + [b] + [c] + [d] + [e] + [f], [g]);
    WidthAdds([a] + [b] + [c] + [d] + [e] + [f] + [g], [h]);
    assert AnswerFields(r) == [a] + [b] + [c] + [d] + [e] + [f] + [g] + [h];
    RecordWidth(AnswerFields(r));
  }

  lemma OneStringWidth(s: Bytes)
    requires Ascii(s)
    ensures AllAscii([s]) && |TextOf(StringsValue([s]))| <= 4 + 6 * |s|
  {
    hide StringValue;
    StringWidth("", s);
    WidthOne("", StringValue(s));
    var i := StringItems([s]);
    assert i == Items("", StringValue(s), EndItems(""));
    EmitSplits(StringValue(s), EmitItemsTail(i.tail, ""));
    assert TextOf(StringsValue([s])) == ['['] + EmitItems(i, "");
    assert |EmitItemsTail(i.tail, "")| == 1;
  }

  // ---- The environment ---------------------------------------------------------------------------

  const LOGIN: Credentials := Credentials("u", "p")

  const DIAL: DialAttempt := DialAttempt("tcp", "", 9, true, true, true)

  /** An exchange that takes no time and is answered with this body. */
  function Answering(body: Bytes): Exchange {
    Exchange([DIAL], Answered(Peer(1, true, true, 0, 0, ""), 200, Some(body)), 0, 0)
  }

  function Given(data: Bytes): ReadScript { ReadScript(0, Some(data)) }

  lemma AnsweringAnswers(body: Bytes, t: Target, serverName: Bytes, allowCommonName: bool, limit: nat, v6: Ipv6Parser)
    requires |body| <= limit && t.mark == None
    ensures AnsweredTo(Answering(body), t, serverName, allowCommonName, limit, v6)
  {
    assert DialResults([DIAL], t, 0)[0] == Connected;
  }

  lemma WriteAll(body: Bytes, n: nat)
    requires |body| <= n
    ensures WriteDone(WriteScript(0, n, true), body)
  {}

  lemma SmallInputs()
    ensures ValidUtf8("u") && ValidUtf8("p") && ValidCredential("u") && ValidCredential("p")
    ensures VisibleAscii("t", MAX_TOKEN) && Ascii("t")
  {
    AsciiIsValid("u");
    AsciiIsValid("p");
  }

  lemma TokenFits()
    ensures Ascii("t") && |TokenText("t")| <= MAX_TOKEN_BODY
  {
    hide Emit, Width, StringValue, Compact;
    StringWidth("token", "t");
    RecordWidth([("token", StringValue("t"))]);
  }

  lemma LoginFits()
    ensures |LoginText(LOGIN)| <= MAX_CREDENTIALS
  {
    hide Emit, Compact, Written, QuoteBody;
    assert Ascii("u") && Ascii("p");
    WrittenAscii("u");
    WrittenAscii("p");
    TwoStringsWidth("username", "u", "password", "p");
  }

  /** A request can be built from this name, has a host, and can be written. */
  predicate CanBeSent(name: Bytes, brackets: BracketParser, takesHost: Bytes -> bool) {
    var host := RequestHost(name, brackets);
    host.Some? && host.value != "" && (Ascii(host.value) || takesHost(host.value))
  }

  /** An environment with these libraries, an accepted command line and this plan. */
  ghost predicate Suits(e: Env, p: Plan, v6: Ipv6Parser, brackets: BracketParser, takesHost: Bytes -> bool) {
    && e.v6 == v6 && e.brackets == brackets && e.takesHost == takesHost
    && ParseCommandLine(e.args).problem == None && PlanGiven(e) == Some(p)
  }

  /** A valid plan whose name can be sent succeeds in this environment. */
  lemma SomeRunSucceeds(p: Plan, v6: Ipv6Parser, brackets: BracketParser, takesHost: Bytes -> bool) returns (e: Env)
    requires ValidPlan(p, v6) && CanBeSent(p.candidate.commonName, brackets, takesHost)
    ensures Suits(e, p, v6, brackets, takesHost) && Run(e).stopped == Nothing
  {
    hide ParseCommandLine, Repeats, ParsePlan, ParseCredentials, ParseToken, ParseAddKey, PlanTree, Emit, LoginText,
      TokenText, AnswerText, ValidCredential, ValidPlan, Validate, Reused, AnswerTo, VisibleAscii, Ascii, ValidUtf8,
      AnsweredTo, WriteDone, Run, KEY, RenderConfig, SuccessRecord;
    var args := SomeCommandLine();
    SmallInputs();
    PlanRoundTrip(p, v6);
    PlanFits(p, v6);
    LoginRoundTrip(LOGIN);
    LoginFits();
    TokenRoundTrip("t");
    TokenFits();
    var r := AnswerTo(p);
    AnswerPrintable(p, v6);
    AnswerRoundTrip(r);
    AnswerToFits(p);
    AnswerToIsApproved(p, v6);
    var free := WriteScript(0, MAX_BODY, true);
    e := Env(args, true, v6, brackets, takesHost, 0, None, Given(TextOf(PlanTree(p))), Given(LoginText(LOGIN)),
             Given("x"), Given("x"), true, true,
             Answering(TokenText("t")), Some(KeyPair(KEY, KEY)), Answering(AnswerText(r)), free, free, free);
    var login, candidate :=
      Target(TokenRequest, p.tokenIPv4, 443, None), Target(AddKeyRequest, p.candidate.ipv4, 1337, None);
    AnsweringAnswers(TokenText("t"), login, TOKEN_HOST, false, MAX_TOKEN_BODY, v6);
    AnsweringAnswers(AnswerText(r), candidate, p.candidate.commonName, true, MAX_BODY, v6);
    assert MarkValue(e) == None && PlanGiven(e) == Some(p) && CredentialsGiven(e) == Some(LOGIN);
    assert TokenOk(e) && AnswerOk(e) && AnswerGiven(e) == Some(r) && Approved(e);
    ConfigFits(AnswerText(r), r, p.portForwarding, KEY, KEY, v6);
    SuccessRecordFits(p, r, KEY, v6);
    WriteAll(ApprovedConfig(e), MAX_BODY);
    WriteAll(ApprovedRecord(e), MAX_BODY);
    SucceedsExactly(e);
  }

  /**
   A valid plan can succeed, in some environment, exactly if its common name can be sent: a
   URL can be built from it, with a host, that the library can write into a request.
   */
  lemma CanSucceedExactly(p: Plan, v6: Ipv6Parser, brackets: BracketParser, takesHost: Bytes -> bool)
    requires ValidPlan(p, v6)
    ensures (exists e :: Suits(e, p, v6, brackets, takesHost) && Run(e).stopped == Nothing) <==>
            CanBeSent(p.candidate.commonName, brackets, takesHost)
  {
    hide ValidPlan, Run, ParseCommandLine, PlanGiven, CanBeSent;
    if CanBeSent(p.candidate.commonName, brackets, takesHost) {
      var e := SomeRunSucceeds(p, v6, brackets, takesHost);
    }
    if e :| Suits(e, p, v6, brackets, takesHost) && Run(e).stopped == Nothing {
      SuccessNeedsName(e);
    }
  }

  lemma SuccessNeedsName(e: Env)
    requires Run(e).stopped == Nothing
    ensures PlanGiven(e).Some? && CanBeSent(PlanGiven(e).value.candidate.commonName, e.brackets, e.takesHost)
  {
    hide Run, PlanGiven, RequestHost, TokenOk, AnsweredTo, Ascii, MarkUsable, CredentialsGiven, BundleGood, Approved,
      ApprovedConfig, ApprovedRecord, WriteDone, Repeats, AnswerGiven, CancelledBy;
    SucceedsExactly(e);
  }

  /**
   The plan validator takes names that can never be sent: a percent sign that begins no
   escape, a byte that may not stand in a host, a control byte, and a name that leaves no host.
   */
  lemma ValidNamesThatCannotBeSent(v6: Ipv6Parser, brackets: BracketParser)
    ensures ValidCommonName("a%b", v6) && RequestHost("a%b", brackets) == None
    ensures ValidCommonName("a\\b", v6) && RequestHost("a\\b", brackets) == None
    ensures ValidCommonName(['a', 0x7f as char], v6) && RequestHost(['a', 0x7f as char], brackets) == None
    ensures ValidCommonName("?a", v6) && RequestHost("?a", brackets) == Some("")
  {
    PercentName(v6, brackets);
    BackslashName(v6, brackets);
    DeleteName(v6, brackets);
    QuestionName(v6, brackets);
  }

  lemma PercentName(v6: Ipv6Parser, brackets: BracketParser)
    ensures ValidCommonName("a%b", v6) && RequestHost("a%b", brackets) == None
  {
    var s := "a%b";
    assert s[1..] == "%b" && s[2..] == "b" && FirstSeparator("%b") == Some('%');
    var host := s + PORT;
    assert Authority(s) == host && host[1..] == "%b" + PORT;
    assert ("%b" + PORT)[2] == ':';
    assert UpTo(s, '#') == s && !HasControl(s);
  }

  lemma BackslashName(v6: Ipv6Parser, brackets: BracketParser)
    ensures ValidCommonName("a\\b", v6) && RequestHost("a\\b", brackets) == None
  {
    var s := "a\\b";
    assert s[1..] == "\\b" && s[2..] == "b" && s[1..][1..] == "b" && "b"[1..] == "";
    var host := s + PORT;
    assert Authority(s) == host && host[1..] == "\\b" + PORT;
    assert UpTo(s, '#') == s && !HasControl(s);
  }

  lemma DeleteName(v6: Ipv6Parser, brackets: BracketParser)
    ensures ValidCommonName(['a', 0x7f as char], v6) && RequestHost(['a', 0x7f as char], brackets) == None
  {
    var s := ['a', 0x7f as char];
    var rest := [0x7f as char];
    assert s[1..] == rest && rest[1..] == "" && FirstSeparator("") == None;
    assert FirstSeparator(rest) == None;
    assert UpTo(s, '#') == s && Control(s[1]);
  }

  lemma QuestionName(v6: Ipv6Parser, brackets: BracketParser)
    ensures ValidCommonName("?a", v6) && RequestHost("?a", brackets) == Some("")
  {
    var s := "?a";
    assert s[1..] == "a" && "a"[1..] == "";
    assert UpTo(s, '#') == s && UpTo(s, '?') == "";
  }

  lemma AnswerPrintable(p: Plan, v6: Ipv6Parser)
    requires ValidPlan(p, v6)
    ensures PrintableAnswer(AnswerTo(p)) && |p.tokenIPv4| <= 15
  {
    hide ValidIPv4, Dotted, KeyText;
    KeyIsKey();
    PlanLengths(p, v6);
    ValidIPv4IsAscii(p.tokenIPv4, v6);
  }
}
