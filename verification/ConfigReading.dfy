/**
 The rendered config read back the way a WireGuard config is read: line by line, a heading
 opens a section, and a line with an equals sign is a setting of the section it is in.
 */
module ConfigReading {
  import opened Text
  import opened Ipv4
  import opened AddKey
  import opened ConfigSize

  predicate OneLine(s: Bytes) { '\n' !in s }

  function FirstLine(s: Bytes): Bytes { UpTo(s, '\n') }

  function Lines(s: Bytes): (r: seq<Bytes>)
    ensures forall i :: 0 <= i < |r| ==> OneLine(r[i])
    decreases |s|
  {
    var l := FirstLine(s);
    if |l| == |s| then [l] else [l] + Lines(s[|l| + 1..])
  }

  /** Where " = " is, if anywhere. */
  function EqualsAt(s: Bytes): Option<nat>
    decreases |s|
  {
    if |s| < 3 then None
    else if s[0] == ' ' && s[1] == '=' && s[2] == ' ' then Some(0)
    else match EqualsAt(s[1..]) case None => None case Some(i) => Some(i + 1)
  }

  datatype Setting = Setting(section: Bytes, name: Bytes, value: Bytes)

  function Settings(lines: seq<Bytes>, section: Bytes): seq<Setting> {
    if lines == [] then []
    else
      var l := lines[0];
      if l == "" then Settings(lines[1..], section)
      else if l[0] == '[' then Settings(lines[1..], l)
      else
        (match EqualsAt(l)
         case None => []
         case Some(i) => if i + 3 <= |l| then [Setting(section, l[..i], l[i + 3..])] else [])
        + Settings(lines[1..], section)
  }

  function ReadConfig(s: Bytes): seq<Setting> { Settings(Lines(s), "") }

  /** The settings of a tunnel to the returned endpoint. */
  function Tunnel(privateKey: Bytes, r: AddKeyResult, v6: Ipv6Parser): seq<Setting>
    requires |r.dns| >= 1 && r.serverPort >= 0
  {
    [ Setting("[Interface]", "PrivateKey", privateKey),
      Setting("[Interface]", "Address", PeerAddress(r.peerIP, v6)),
      Setting("[Interface]", "DNS", r.dns[0]),
      Setting("[Peer]", "PublicKey", r.serverKey),
      Setting("[Peer]", "AllowedIPs", "0.0.0.0/0"),
      Setting("[Peer]", "Endpoint", HostPort(r.serverIP, r.serverPort)),
      Setting("[Peer]", "PersistentKeepalive", "25")]
  }

  // ---- Reading what was rendered -----------------------------------------------------------------

  lemma LinesOf(l: Bytes, rest: Bytes)
    requires OneLine(l)
    ensures Lines(l + ("\n" + rest)) == [l] + Lines(rest)
  {
    hide UpTo;
    UpToFirst(l, '\n', rest);
    assert l + ("\n" + rest) == l + (['\n'] + rest);
    AfterLine(l, rest);
  }

  lemma AfterLine(l: Bytes, rest: Bytes)
    ensures |l + ("\n" + rest)| > |l| && (l + ("\n" + rest))[|l| + 1..] == rest
  {}

  lemma {:induction false} EqualsAfter(name: Bytes, value: Bytes)
    requires ' ' !in name
    ensures EqualsAt(name + (" = " + value)) == Some(|name|)
  {
    var s := name + (" = " + value);
    if name == "" {
      assert s[0] == ' ' && s[1] == '=' && s[2] == ' ';
    } else {
      EqualsAfter(name[1..], value);
      assert s[1..] == name[1..] + (" = " + value);
      assert s[0] != ' ';
    }
  }

  predicate SettingName(name: Bytes) { name != "" && name[0] != '[' && ' ' !in name && OneLine(name) }

  lemma ReadSetting(section: Bytes, name: Bytes, value: Bytes, rest: Bytes)
    requires SettingName(name) && OneLine(value)
    ensures Settings(Lines(Line(name, value) + rest), section) ==
            [Setting(section, name, value)] + Settings(Lines(rest), section)
  {
    hide Lines, EqualsAt;
    var l := name + (" = " + value);
    assert Line(name, value) + rest == l + ("\n" + rest);
    assert l[0] == name[0] && l[..|name|] == name && l[|name| + 3..] == value;
    LinesOf(l, rest);
    EqualsAfter(name, value);
    assert ([l] + Lines(rest))[1..] == Lines(rest);
  }

  lemma ReadHeading(section: Bytes, heading: Bytes, rest: Bytes)
    requires heading != "" && heading[0] == '[' && OneLine(heading)
    ensures Settings(Lines(heading + ("\n" + rest)), section) == Settings(Lines(rest), heading)
  {
    hide Lines;
    LinesOf(heading, rest);
    assert ([heading] + Lines(rest))[1..] == Lines(rest);
  }

  lemma InterfaceNames()
    ensures SettingName("PrivateKey") && SettingName("Address") && SettingName("DNS") && OneLine("[Interface]")
  {}

  lemma PeerNames()
    ensures SettingName("PublicKey") && SettingName("AllowedIPs") && SettingName("Endpoint") && OneLine("[Peer]")
  {}

  lemma FixedSettings()
    ensures SettingName("PersistentKeepalive") && OneLine("25") && OneLine("0.0.0.0/0")
  {}

  lemma ReadEmpty(section: Bytes)
    ensures Settings(Lines(""), section) == []
  {
    assert Lines("") == [""];
  }

  /** If every value is on one line, the config reads back as the tunnel it describes. */
  lemma RenderedReadsBack(privateKey: Bytes, r: AddKeyResult, v6: Ipv6Parser)
    requires |r.dns| >= 1 && r.serverPort >= 0
    requires OneLine(privateKey) && OneLine(PeerAddress(r.peerIP, v6)) && OneLine(r.dns[0]) && OneLine(r.serverKey)
    requires OneLine(HostPort(r.serverIP, r.serverPort))
    ensures ReadConfig(RenderConfig(privateKey, r, v6)) == Tunnel(privateKey, r, v6)
  {
    hide Settings, Lines, PeerAddress, HostPort, Line, SettingName, OneLine;
    InterfaceNames();
    PeerNames();
    FixedSettings();
    ReadEmpty("[Peer]");
    var c8 := Line("PersistentKeepalive", "25") + "";
    ReadSetting("[Peer]", "PersistentKeepalive", "25", "");
    var c7 := Line("Endpoint", HostPort(r.serverIP, r.serverPort)) + c8;
    ReadSetting("[Peer]", "Endpoint", HostPort(r.serverIP, r.serverPort), c8);
    var c6 := Line("AllowedIPs", "0.0.0.0/0") + c7;
    ReadSetting("[Peer]", "AllowedIPs", "0.0.0.0/0", c7);
    var c5 := Line("PublicKey", r.serverKey) + c6;
    ReadSetting("[Peer]", "PublicKey", r.serverKey, c6);
    var c4 := "[Peer]" + ("\n" + c5);
    ReadHeading("[Interface]", "[Peer]", c5);
    var c3 := Line("DNS", r.dns[0]) + c4;
    ReadSetting("[Interface]", "DNS", r.dns[0], c4);
    var c2 := Line("Address", PeerAddress(r.peerIP, v6)) + c3;
    ReadSetting("[Interface]", "Address", PeerAddress(r.peerIP, v6), c3);
    var c1 := Line("PrivateKey", privateKey) + c2;
    ReadSetting("[Interface]", "PrivateKey", privateKey, c2);
    ReadHeading("", "[Interface]", c1);
    assert RenderConfig(privateKey, r, v6) == "[Interface]" + ("\n" + c1);
  }

  /** No value that is read spans lines. */
  lemma {:induction false} SettingsAreOneLine(lines: seq<Bytes>, section: Bytes)
    requires forall i :: 0 <= i < |lines| ==> OneLine(lines[i])
    ensures forall i :: 0 <= i < |Settings(lines, section)| ==> OneLine(Settings(lines, section)[i].value)
  {
    hide EqualsAt;
    if lines != [] {
      SettingsAreOneLine(lines[1..], section);
      SettingsAreOneLine(lines[1..], lines[0]);
    }
  }

  lemma AddressesAreOneLine(r: AddKeyResult, publicKey: Bytes, portForwarding: bool, v6: Ipv6Parser)
    requires Validate(portForwarding, r, publicKey, v6) == None
    ensures OneLine(r.dns[0]) && OneLine(HostPort(r.serverIP, r.serverPort))
  {
    hide Validate, Dotted, Decimal;
    AcceptedValues(r, portForwarding, publicKey, v6);
    var a := ValidIPv4Unique(r.serverIP, v6);
    var b := ValidIPv4Unique(r.dns[0], v6);
    DottedChars(a);
    DottedChars(b);
    NumberOfDecimal(r.serverPort);
  }

  /**
   The config of a validated answer reads back as the tunnel it describes exactly when neither
   the server key nor the address has a newline in it, which validation does not exclude.
   */
  lemma ConfigReadsBack(privateKey: Bytes, r: AddKeyResult, publicKey: Bytes, portForwarding: bool, v6: Ipv6Parser)
    requires OneLine(privateKey) && Validate(portForwarding, r, publicKey, v6) == None
    ensures ReadConfig(RenderConfig(privateKey, r, v6)) == Tunnel(privateKey, r, v6) <==>
            OneLine(r.serverKey) && OneLine(PeerAddress(r.peerIP, v6))
  {
    hide Validate, Settings, Lines, PeerAddress, HostPort, OneLine, RenderConfig;
    AddressesAreOneLine(r, publicKey, portForwarding, v6);
    var s := ReadConfig(RenderConfig(privateKey, r, v6));
    SettingsAreOneLine(Lines(RenderConfig(privateKey, r, v6)), "");
    assert |s| > 3 ==> OneLine(s[1].value) && OneLine(s[3].value);
    if OneLine(r.serverKey) && OneLine(PeerAddress(r.peerIP, v6)) {
      RenderedReadsBack(privateKey, r, v6);
    }
  }

  /** A newline before the key passes validation whenever the key does. */
  lemma NewlineKeyIsValid(r: AddKeyResult, publicKey: Bytes, portForwarding: bool, v6: Ipv6Parser)
    requires Validate(portForwarding, r, publicKey, v6) == None
    ensures Validate(portForwarding, r.(serverKey := "\n" + r.serverKey), publicKey, v6) == None
    ensures !OneLine("\n" + r.serverKey)
  {
    hide ValidIPv4, ValidPeerIP, Base64Char;
    var key := "\n" + r.serverKey;
    assert key[0] == '\n' && key[1..] == r.serverKey;
    assert StripNewlines(key) == StripNewlines(r.serverKey);
  }
}
