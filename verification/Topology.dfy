/**
 The two build phases of ParseTopology in internal/configure/topology/topology.go
 and the cluster variables of internal/configure/topology/variables.go.

 Phase one resolves the variables of each service and renders its configuration;
 phase two registers the cluster variables, whose values look at every service.
 */
module Topology {
  // ------------------------------------------------------------- the services

  /** What the getters of a service read. */
  datatype Facts = Facts(kind: string, role: string, id: string, hostname: string, hostSequence: int, instance: int,
                         config: map<string, string>)

  datatype Select = ListenPort | ClientPort | DummyPort | ProxyPort | CoorServerPort | CoorRaftPort | ServerPort

  /** Getters with their defaults, service-variable values, the conversion of
      entries to their declared types, and host lookup: what other files compute
      from a service's own facts. */
  datatype Getters = Getters(
    listenIp: Facts -> string,
    port: (Facts, Select) -> string,
    serviceValue: (string, Facts) -> string,
    converts: Facts -> bool,
    lookup: string -> string)

  datatype Var = Var(name: string, kinds: seq<string>, roles: seq<string>)

  const FS := "dingofs"
  const STORE := "dingo-store"
  const DB := "dingodb"

  const METASERVER := "metaserver"
  const MDS := "mds"
  const COORDINATOR := "coordinator"
  const DISKANN := "diskann"

  const CLUSTER_VARS: seq<Var> := [
    Var("cluster_mds_dummy_addr", [], []),
    Var("cluster_mds_dummy_port", [], []),
    Var("cluster_metaserver_addr", [FS], []),
    Var("cluster_coor_srv_peers", [STORE, FS, DB], []),
    Var("cluster_coor_raft_peers", [STORE, FS, DB], []),
    Var("cluster_mds_addr", [FS], []),
    Var("coordinator_addr", [FS, STORE, DB], []),
    Var("diskann_server_start_port", [DB], [])
  ]

  predicate Skipped(v: Var, kind: string, role: string) {
    (v.kinds != [] && kind !in v.kinds) || (v.roles != [] && role !in v.roles)
  }

  // -------------------------------------------------------- cluster variables

  function Join(parts: seq<string>): string {
    if parts == [] then "" else if |parts| == 1 then parts[0] else parts[0] + "," + Join(parts[1..])
  }

  function OfRole(all: seq<Facts>, role: string): seq<Facts> {
    if all == [] then []
    else (if all[0].role == role then [all[0]] else []) + OfRole(all[1..], role)
  }

  function Peer(g: Getters, f: Facts, select: Select): string {
    g.listenIp(f) + ":" + g.port(f, select)
  }

  function Peers(g: Getters, all: seq<Facts>, select: Select): seq<string> {
    if all == [] then [] else [Peer(g, all[0], select)] + Peers(g, all[1..], select)
  }

  function Ports(g: Getters, all: seq<Facts>, select: Select): seq<string> {
    if all == [] then [] else [g.port(all[0], select)] + Ports(g, all[1..], select)
  }

  /** The value of a cluster variable: one entry per service of the role, in order. */
  function ClusterValue(g: Getters, all: seq<Facts>, name: string): string {
    match name
    case "cluster_mds_dummy_addr" => Join(Peers(g, OfRole(all, MDS), DummyPort))
    case "cluster_mds_dummy_port" => Join(Ports(g, OfRole(all, MDS), DummyPort))
    case "cluster_metaserver_addr" => Join(Peers(g, OfRole(all, METASERVER), ListenPort))
    case "cluster_coor_srv_peers" => Join(Peers(g, OfRole(all, COORDINATOR), CoorServerPort))
    case "cluster_coor_raft_peers" => Join(Peers(g, OfRole(all, COORDINATOR), CoorRaftPort))
    case "cluster_mds_addr" => Join(Peers(g, OfRole(all, MDS), ServerPort))
    case "coordinator_addr" => Join(Peers(g, OfRole(all, COORDINATOR), CoorServerPort))
    case "diskann_server_start_port" =>
      var ds := OfRole(all, DISKANN);
      if ds == [] then "0" else g.port(ds[0], CoorServerPort)
    case _ => ""
  }

  method JoinParts(parts: seq<string>) returns (s: string)
    ensures s == Join(parts)
  {
    s := "";
    var i := |parts|;
    while i > 0
      invariant 0 <= i <= |parts| && s == Join(parts[i..])
    {
      i := i - 1;
      assert parts[i..][1..] == parts[i + 1..];
      s := if i == |parts| - 1 then parts[i] else parts[i] + "," + s;
    }
  }

  method JoinPeer(g: Getters, all: seq<Facts>, role: string, select: Select) returns (s: string)
    ensures s == Join(Peers(g, OfRole(all, role), select))
  {
    var peers: seq<string> := [];
    for i := 0 to |all|
      invariant peers + Peers(g, OfRole(all[i..], role), select) == Peers(g, OfRole(all, role), select)
    {
      OfRoleHead(g, all, i, role, select, peers, []);
      if all[i].role == role {
        peers := peers + [Peer(g, all[i], select)];
      }
    }
    assert OfRole(all[|all|..], role) == [] && peers + [] == peers;
    s := JoinParts(peers);
  }

  /** What one more service adds to the entries collected so far. */
  lemma OfRoleHead(g: Getters, all: seq<Facts>, i: nat, role: string, select: Select, peers: seq<string>,
                   ports: seq<string>)
    requires i < |all|
    ensures peers + Peers(g, OfRole(all[i..], role), select) ==
      (if all[i].role == role then peers + [Peer(g, all[i], select)] else peers)
      + Peers(g, OfRole(all[i + 1..], role), select)
    ensures ports + Ports(g, OfRole(all[i..], role), select) ==
      (if all[i].role == role then ports + [g.port(all[i], select)] else ports)
      + Ports(g, OfRole(all[i + 1..], role), select)
  {
    assert all[i..][0] == all[i] && all[i..][1..] == all[i + 1..];
    var rest := OfRole(all[i + 1..], role);
    if all[i].role == role {
      PeersCons(g, all[i], rest, select);
      assert peers + ([Peer(g, all[i], select)] + Peers(g, rest, select)) ==
        (peers + [Peer(g, all[i], select)]) + Peers(g, rest, select);
      assert ports + ([g.port(all[i], select)] + Ports(g, rest, select)) ==
        (ports + [g.port(all[i], select)]) + Ports(g, rest, select);
    } else {
      assert [] + rest == rest;
    }
  }

  lemma PeersCons(g: Getters, f: Facts, rest: seq<Facts>, select: Select)
    ensures Peers(g, [f] + rest, select) == [Peer(g, f, select)] + Peers(g, rest, select)
    ensures Ports(g, [f] + rest, select) == [g.port(f, select)] + Ports(g, rest, select)
  {
    assert ([f] + rest)[1..] == rest;
  }

  method JoinDummyPort(g: Getters, all: seq<Facts>, role: string) returns (s: string)
    ensures s == Join(Ports(g, OfRole(all, role), DummyPort))
  {
    var ports: seq<string> := [];
    for i := 0 to |all|
      invariant ports + Ports(g, OfRole(all[i..], role), DummyPort) == Ports(g, OfRole(all, role), DummyPort)
    {
      OfRoleHead(g, all, i, role, DummyPort, [], ports);
      if all[i].role == role {
        ports := ports + [g.port(all[i], DummyPort)];
      }
    }
    assert OfRole(all[|all|..], role) == [] && ports + [] == ports;
    s := JoinParts(ports);
  }

  method LocateDiskannPort(g: Getters, all: seq<Facts>) returns (s: string)
    ensures s == ClusterValue(g, all, "diskann_server_start_port")
  {
    for i := 0 to |all|
      invariant OfRole(all, DISKANN) == OfRole(all[i..], DISKANN)
    {
      assert all[i..][0] == all[i] && all[i..][1..] == all[i + 1..];
      if all[i].role == DISKANN {
        return g.port(all[i], CoorServerPort);
      }
    }
    s := "0";
  }

  method GetClusterValue(g: Getters, all: seq<Facts>, name: string) returns (s: string)
    ensures s == ClusterValue(g, all, name)
  {
    match name {
      case "cluster_mds_dummy_addr" => s := JoinPeer(g, all, MDS, DummyPort);
      case "cluster_mds_dummy_port" => s := JoinDummyPort(g, all, MDS);
      case "cluster_metaserver_addr" => s := JoinPeer(g, all, METASERVER, ListenPort);
      case "cluster_coor_srv_peers" => s := JoinPeer(g, all, COORDINATOR, CoorServerPort);
      case "cluster_coor_raft_peers" => s := JoinPeer(g, all, COORDINATOR, CoorRaftPort);
      case "cluster_mds_addr" => s := JoinPeer(g, all, MDS, ServerPort);
      case "coordinator_addr" => s := JoinPeer(g, all, COORDINATOR, CoorServerPort);
      case "diskann_server_start_port" => s := LocateDiskannPort(g, all);
      case _ => s := "";
    }
  }

  // ------------------------------------------------- reading a value back

  /** The parts between commas. */
  function Split(s: string): seq<string>
    decreases |s|
  {
    var i := Comma(s);
    if i < |s| then [s[..i]] + Split(s[i + 1..]) else [s]
  }

  function Comma(s: string): (i: nat)
    ensures i <= |s|
  {
    if s == "" || s[0] == ',' then 0 else 1 + Comma(s[1..])
  }

  lemma {:induction false} CommaAfter(p: string, rest: string)
    requires ',' !in p
    ensures Comma(p) == |p| && Comma(p + "," + rest) == |p|
  {
    if p != "" {
      assert (p + "," + rest)[1..] == p[1..] + "," + rest;
      CommaAfter(p[1..], rest);
    }
  }

  lemma {:induction false} SplitJoin(parts: seq<string>)
    requires parts != [] && forall p :: p in parts ==> ',' !in p
    ensures Split(Join(parts)) == parts
  {
    CommaAfter(parts[0], Join(parts[1..]));
    if |parts| > 1 {
      var s := Join(parts);
      assert s == parts[0] + "," + Join(parts[1..]);
      assert s[..|parts[0]|] == parts[0] && s[|parts[0]| + 1..] == Join(parts[1..]);
      SplitJoin(parts[1..]);
    }
  }

  /** The services of a role, by position. */
  ghost function Holders(all: seq<Facts>, role: string): set<nat> {
    set i | 0 <= i < |all| && all[i].role == role
  }

  ghost predicate IsPeer(g: Getters, all: seq<Facts>, role: string, select: Select, p: string) {
    exists i :: i in Holders(all, role) && p == Peer(g, all[i], select)
  }

  lemma HoldersSnoc(g: Getters, all: seq<Facts>, f: Facts, role: string, select: Select, p: string)
    ensures Holders(all + [f], role) == Holders(all, role) + if f.role == role then {|all|} else {}
    ensures IsPeer(g, all + [f], role, select, p) <==>
      IsPeer(g, all, role, select, p) || (f.role == role && p == Peer(g, f, select))
  {
    assert forall i :: 0 <= i < |all| ==> (all + [f])[i] == all[i];
    if f.role == role {
      assert |all| in Holders(all + [f], role);
    }
    if IsPeer(g, all, role, select, p) {
      var i :| i in Holders(all, role) && p == Peer(g, all[i], select);
      assert i in Holders(all + [f], role) && p == Peer(g, (all + [f])[i], select);
    }
  }

  lemma {:induction false} PeersOfRole(g: Getters, all: seq<Facts>, role: string, select: Select, p: string)
    ensures |Peers(g, OfRole(all, role), select)| == |Holders(all, role)|
    ensures p in Peers(g, OfRole(all, role), select) <==> IsPeer(g, all, role, select, p)
    decreases |all|
  {
    if all != [] {
      var k := |all| - 1;
      assert all == all[..k] + [all[k]];
      PeersOfRole(g, all[..k], role, select, p);
      OfRoleSnoc(all[..k], all[k], role);
      assert OfRole(all[..k], role) + [] == OfRole(all[..k], role);
      PeersSnoc(g, OfRole(all[..k], role), all[k], select);
      HoldersSnoc(g, all[..k], all[k], role, select, p);
    }
  }

  lemma {:induction false} OfRoleSnoc(all: seq<Facts>, f: Facts, role: string)
    ensures OfRole(all + [f], role) == OfRole(all, role) + if f.role == role then [f] else []
  {
    if all == [] {
      assert all + [f] == [f];
    } else {
      OfRoleSnoc(all[1..], f, role);
      var head := if all[0].role == role then [all[0]] else [];
      var last := if f.role == role then [f] else [];
      assert (all + [f])[0] == all[0] && (all + [f])[1..] == all[1..] + [f];
      assert OfRole(all, role) == head + OfRole(all[1..], role);
      assert head + (OfRole(all[1..], role) + last) == (head + OfRole(all[1..], role)) + last;
    }
  }

  lemma {:induction false} PeersSnoc(g: Getters, all: seq<Facts>, f: Facts, select: Select)
    ensures Peers(g, all + [f], select) == Peers(g, all, select) + [Peer(g, f, select)]
  {
    if all == [] {
      assert [] + [f] == [f];
    } else {
      assert (all + [f])[0] == all[0] && (all + [f])[1..] == all[1..] + [f];
      PeersSnoc(g, all[1..], f, select);
    }
  }

  /** Read back at the commas, an address list has exactly one entry for each
      service of the role, and no other. */
  lemma AddressListEntries(g: Getters, all: seq<Facts>, role: string, select: Select)
    requires Holders(all, role) != {}
    requires forall i :: 0 <= i < |all| ==> ',' !in Peer(g, all[i], select)
    ensures |Split(Join(Peers(g, OfRole(all, role), select)))| == |Holders(all, role)|
    ensures forall p :: p in Split(Join(Peers(g, OfRole(all, role), select))) <==> IsPeer(g, all, role, select, p)
  {
    var peers := Peers(g, OfRole(all, role), select);
    forall p ensures |peers| == |Holders(all, role)| && (p in peers <==> IsPeer(g, all, role, select, p)) {
      PeersOfRole(g, all, role, select, p);
    }
    PeersOfRole(g, all, role, select, "");
    SplitJoin(peers);
  }
}
