/**
 Grouping the servers of the published list by region, and what a client built from it may
 rely on when it takes the first server of its region.
 */
module Regions {
  import opened Text

  datatype Server = Server(cn: Bytes, ip: Bytes)

  datatype Region = Region(id: Bytes, portForward: bool, meta: seq<Server>, wg: seq<Server>)

  datatype Kind = Meta | Wireguard

  type ServerList = map<Bytes, seq<Server>>

  function ServersOf(r: Region, kind: Kind): seq<Server> { if kind == Meta then r.meta else r.wg }

  predicate Kept(r: Region, portForwarding: bool) { !portForwarding || r.portForward }

  /** What one entry of the list contributes to a region. */
  function Contribution(r: Region, portForwarding: bool, kind: Kind, id: Bytes): seq<Server> {
    if Kept(r, portForwarding) && r.id == id then ServersOf(r, kind) else []
  }

  /** The servers of all kept entries with this id, in the order of the list. */
  function Listed(list: seq<Region>, portForwarding: bool, kind: Kind, id: Bytes): seq<Server> {
    if list == [] then []
    else Listed(list[..|list| - 1], portForwarding, kind, id) + Contribution(list[|list| - 1], portForwarding, kind, id)
  }

  /** How many servers the kept entries have between them. */
  function Total(list: seq<Region>, portForwarding: bool, kind: Kind): nat {
    if list == [] then 0
    else
      var r := list[|list| - 1];
      Total(list[..|list| - 1], portForwarding, kind) + if Kept(r, portForwarding) then |ServersOf(r, kind)| else 0
  }

  /** How many servers a grouping holds. */
  ghost function Count(m: ServerList): nat
    decreases |m|
  {
    if m == map[] then 0 else var k :| k in m; |m[k]| + Count(m - {k})
  }

  lemma {:induction false} CountWithout(m: ServerList, k: Bytes)
    requires k in m
    ensures Count(m) == |m[k]| + Count(m - {k})
    decreases |m|
  {
    var j :| j in m && Count(m) == |m[j]| + Count(m - {j});
    if j != k {
      CountWithout(m - {j}, k);
      CountWithout(m - {k}, j);
      assert m - {j} - {k} == m - {k} - {j};
    }
  }

  lemma CountUpdated(m: ServerList, k: Bytes, v: seq<Server>)
    ensures Count(m[k := v]) == Count(m) - (if k in m then |m[k]| else 0) + |v|
  {
    CountWithout(m[k := v], k);
    if k in m {
      CountWithout(m, k);
      assert m[k := v] - {k} == m - {k};
    } else {
      assert m[k := v] - {k} == m;
    }
  }

  /** Indexing a Go map of slices: an absent key reads as an empty slice. */
  function Entry(m: ServerList, id: Bytes): seq<Server> { if id in m then m[id] else [] }

  /** A map holds what is listed, under just the ids that have something listed. */
  ghost predicate Groups(m: ServerList, list: seq<Region>, portForwarding: bool, kind: Kind) {
    forall id :: Entry(m, id) == Listed(list, portForwarding, kind, id) && (id in m ==> m[id] != [])
  }

  /** Within an entry: its first j servers are in as well. */
  ghost predicate GroupsPartly(m: ServerList, list: seq<Region>, r: Region, j: nat, portForwarding: bool, kind: Kind)
    requires j <= |ServersOf(r, kind)|
  {
    forall id ::
      && Entry(m, id) == Listed(list, portForwarding, kind, id) + (if id == r.id then ServersOf(r, kind)[..j] else [])
      && (id in m ==> m[id] != [])
  }

  lemma OneMoreServer(m: ServerList, list: seq<Region>, r: Region, j: nat, portForwarding: bool, kind: Kind)
    requires j < |ServersOf(r, kind)| && GroupsPartly(m, list, r, j, portForwarding, kind)
    ensures GroupsPartly(m[r.id := Entry(m, r.id) + [ServersOf(r, kind)[j]]], list, r, j + 1, portForwarding, kind)
    ensures Count(m[r.id := Entry(m, r.id) + [ServersOf(r, kind)[j]]]) == Count(m) + 1
  {
    hide Listed, Count;
    var s := ServersOf(r, kind);
    var more := m[r.id := Entry(m, r.id) + [s[j]]];
    CountUpdated(m, r.id, Entry(m, r.id) + [s[j]]);
    forall id
      ensures Entry(more, id) == Listed(list, portForwarding, kind, id) + (if id == r.id then s[..j + 1] else [])
      ensures id in more ==> more[id] != []
    {
      assert Entry(m, id) == Listed(list, portForwarding, kind, id) + (if id == r.id then s[..j] else []);
      Snoc(Listed(list, portForwarding, kind, id), s, j);
    }
  }

  lemma Snoc(a: seq<Server>, s: seq<Server>, j: nat)
    requires j < |s|
    ensures a + s[..j] + [s[j]] == a + s[..j + 1]
  {}

  /** An entry that is skipped, and one whose servers are all in. */
  lemma EntrySkipped(m: ServerList, list: seq<Region>, i: nat, portForwarding: bool, kind: Kind)
    requires i < |list| && !Kept(list[i], portForwarding) && Groups(m, list[..i], portForwarding, kind)
    ensures Groups(m, list[..i + 1], portForwarding, kind)
    ensures Total(list[..i + 1], portForwarding, kind) == Total(list[..i], portForwarding, kind)
  {
    hide Listed;
    assert list[..i + 1][..i] == list[..i] && list[..i + 1][i] == list[i];
    forall id ensures Entry(m, id) == Listed(list[..i + 1], portForwarding, kind, id) {
      assert Entry(m, id) == Listed(list[..i], portForwarding, kind, id);
      ListedNext(list, i, portForwarding, kind, id);
    }
  }

  lemma EntryDone(m: ServerList, list: seq<Region>, i: nat, portForwarding: bool, kind: Kind)
    requires i < |list| && Kept(list[i], portForwarding)
    requires GroupsPartly(m, list[..i], list[i], |ServersOf(list[i], kind)|, portForwarding, kind)
    ensures Groups(m, list[..i + 1], portForwarding, kind)
    ensures Total(list[..i + 1], portForwarding, kind) ==
            Total(list[..i], portForwarding, kind) + |ServersOf(list[i], kind)|
  {
    hide Listed;
    assert list[..i + 1][..i] == list[..i] && list[..i + 1][i] == list[i];
    var mine := ServersOf(list[i], kind);
    forall id ensures Entry(m, id) == Listed(list[..i + 1], portForwarding, kind, id) {
      assert Entry(m, id) ==
             Listed(list[..i], portForwarding, kind, id) + (if id == list[i].id then mine[..|mine|] else []);
      assert mine[..|mine|] == mine;
      ListedNext(list, i, portForwarding, kind, id);
    }
  }

  lemma ListedNext(list: seq<Region>, i: nat, portForwarding: bool, kind: Kind, id: Bytes)
    requires i < |list|
    ensures Listed(list[..i + 1], portForwarding, kind, id) ==
      Listed(list[..i], portForwarding, kind, id) + Contribution(list[i], portForwarding, kind, id)
  {
    assert list[..i + 1][..i] == list[..i] && list[..i + 1][i] == list[i];
  }

  /** generateWireguardServerList and generateMetadataServerList, which differ in the servers they take. */
  method Generate(list: seq<Region>, portForwarding: bool, kind: Kind) returns (r: Option<ServerList>)
    ensures r == None <==> Total(list, portForwarding, kind) == 0
    ensures r.Some? ==>
            Groups(r.value, list, portForwarding, kind) && Count(r.value) == Total(list, portForwarding, kind)
  {
    hide Listed, Total, Count, GroupsPartly;
    var servers: ServerList := map[];
    assert Groups(servers, list[..0], portForwarding, kind) &&
           Count(servers) == Total(list[..0], portForwarding, kind) by {
      NothingGrouped(list, portForwarding, kind);
    }
    for i := 0 to |list|
      invariant Groups(servers, list[..i], portForwarding, kind)
      invariant Count(servers) == Total(list[..i], portForwarding, kind)
    {
      var region := list[i];
      if portForwarding && !region.portForward {
        EntrySkipped(servers, list, i, portForwarding, kind);
        continue;
      }
      var mine := ServersOf(region, kind);
      assert GroupsPartly(servers, list[..i], region, 0, portForwarding, kind) by {
        NoneYet(servers, list[..i], region, portForwarding, kind);
      }
      for j := 0 to |mine|
        invariant GroupsPartly(servers, list[..i], region, j, portForwarding, kind)
        invariant Count(servers) == Total(list[..i], portForwarding, kind) + j
      {
        OneMoreServer(servers, list[..i], region, j, portForwarding, kind);
        servers := servers[region.id := Entry(servers, region.id) + [Server(mine[j].cn, mine[j].ip)]];
      }
      EntryDone(servers, list, i, portForwarding, kind);
    }
    assert list[..|list|] == list;
    if |servers| == 0 {
      NothingCounted(servers);
      return None;
    }
    SomethingCounted(servers);
    r := Some(servers);
  }

  lemma NothingGrouped(list: seq<Region>, portForwarding: bool, kind: Kind)
    ensures Groups(map[], list[..0], portForwarding, kind) && Count(map[]) == Total(list[..0], portForwarding, kind)
  {}

  lemma NoneYet(m: ServerList, list: seq<Region>, r: Region, portForwarding: bool, kind: Kind)
    requires Groups(m, list, portForwarding, kind)
    ensures GroupsPartly(m, list, r, 0, portForwarding, kind)
  {}

  lemma NothingCounted(m: ServerList)
    requires |m| == 0
    ensures Count(m) == 0
  {}

  lemma SomethingCounted(m: ServerList)
    requires m != map[] && forall id :: id in m ==> m[id] != []
    ensures Count(m) > 0
  {
    var k :| k in m;
    CountWithout(m, k);
  }

  datatype Problem = NoMetadataServers | NoWireguardServers | RegionMissing

  class PiaClient {
    const region: Bytes
    const portForwarding: bool
    var metadataServers: ServerList
    var wireguardServers: ServerList

    constructor (region: Bytes, portForwarding: bool)
      ensures this.region == region && this.portForwarding == portForwarding
    {
      this.region, this.portForwarding, metadataServers, wireguardServers := region, portForwarding, map[], map[];
    }

    /** The part of NewPIAClient after the list has been fetched. */
    method Populate(list: seq<Region>) returns (problem: Option<Problem>)
      modifies this
      ensures problem == Some(NoMetadataServers) <==> Total(list, portForwarding, Meta) == 0
      ensures problem == None <==>
              Total(list, portForwarding, Meta) > 0 && Listed(list, portForwarding, Wireguard, region) != []
      ensures problem == None ==> Populated(list)
    {
      var metadata := Generate(list, portForwarding, Meta);
      if metadata == None { return Some(NoMetadataServers); }
      metadataServers := metadata.value;
      var wireguard := Generate(list, portForwarding, Wireguard);
      if wireguard == None {
        NothingListed(list, portForwarding, Wireguard, region);
        return Some(NoWireguardServers);
      }
      wireguardServers := wireguard.value;
      if region !in wireguardServers { return Some(RegionMissing); }
      problem := None;
    }

    ghost predicate Populated(list: seq<Region>)
      reads this
    {
      && Groups(metadataServers, list, portForwarding, Meta)
      && Groups(wireguardServers, list, portForwarding, Wireguard)
      && region in wireguardServers
    }

    /** getWireguardServerForRegion: the first server of the region is there. */
    method WireguardServer(ghost list: seq<Region>) returns (s: Server)
      requires Populated(list)
      ensures Listed(list, portForwarding, Wireguard, region) != [] &&
              s == Listed(list, portForwarding, Wireguard, region)[0]
    {
      assert wireguardServers[region] == Listed(list, portForwarding, Wireguard, region);
      s := wireguardServers[region][0];
    }

    /** getMetadataServerForRegion, with None where indexing the empty slice would panic. */
    method MetadataServer(ghost list: seq<Region>) returns (s: Option<Server>)
      requires Populated(list)
      ensures s == None <==> Listed(list, portForwarding, Meta, region) == []
      ensures s.Some? ==> s.value == Listed(list, portForwarding, Meta, region)[0]
    {
      var found := Entry(metadataServers, region);
      assert found == Listed(list, portForwarding, Meta, region);
      if |found| == 0 { return None; }
      s := Some(found[0]);
    }
  }

  lemma {:induction false} NothingListed(list: seq<Region>, portForwarding: bool, kind: Kind, id: Bytes)
    requires Total(list, portForwarding, kind) == 0
    ensures Listed(list, portForwarding, kind, id) == []
  {
    if list != [] { NothingListed(list[..|list| - 1], portForwarding, kind, id); }
  }

  /** The region's metadata list has a server exactly when some kept entry with that id has one. */
  lemma {:induction false} ListedExactly(list: seq<Region>, portForwarding: bool, kind: Kind, id: Bytes)
    ensures Listed(list, portForwarding, kind, id) != [] <==>
            exists i :: 0 <= i < |list| && Kept(list[i], portForwarding) && list[i].id == id &&
              ServersOf(list[i], kind) != []
  {
    if list != [] {
      var rest := list[..|list| - 1];
      ListedExactly(rest, portForwarding, kind, id);
      assert forall i :: 0 <= i < |rest| ==> rest[i] == list[i];
    }
  }

  /** A list on which a client is created and yet has no metadata server to take. */
  lemma MetadataMayBeMissing(s: Server) returns (list: seq<Region>, region: Bytes)
    ensures Total(list, false, Meta) > 0 && Listed(list, false, Wireguard, region) != []
    ensures Listed(list, false, Meta, region) == []
  {
    var a, b := Region("a", true, [s], []), Region("b", true, [], [s]);
    list, region := [a, b], "b";
    assert list[..1] == [a] && [a][..0] == [];
    assert Listed([a], false, Meta, "b") == [] && Total([a], false, Meta) == 1;
  }
}
