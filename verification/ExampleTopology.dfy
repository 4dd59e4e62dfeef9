/**
 A small topology of MDSs, from the instances asked for to the finished services:
 with addresses that refer to the host name, and with addresses that, rendered, refer
 to the id of whoever reads them.
 */
module ExampleTopology {
  import opened VariableText
  import opened Variables
  import opened Topology
  import opened TopologyPhases
  import opened ClusterReferences
  import P = ParseTopology

  const LISTEN_IP := "listen.ip"

  /** GetListenIp: the configured address, or the host name. */
  function ListenIp(f: Facts): string {
    if LISTEN_IP in f.config then f.config[LISTEN_IP] else f.hostname
  }

  /** What the lemmas below use of the getters and the service variables: the id, the
      host name and the address of a service, under names of at most twelve letters. */
  datatype Setting = Setting(g: Getters, vs: seq<Var>, dollar: string, id: string, host: string, addr: string,
                             port: string, own: string -> nat, rank: string -> nat) {
    ghost predicate Valid() {
      && vs == [Var(id, [], []), Var(host, [], []), Var(addr, [], [])]
      && IsName(dollar) && IsName(id) && IsName(host) && IsName(addr)
      && dollar != id && dollar != host && dollar != addr && id != host && id != addr && host != addr
      && |dollar| <= 12 && |id| <= 12 && |host| <= 12 && |addr| <= 12 && '$' !in port
      && (forall f :: g.serviceValue(id, f) == f.id && g.serviceValue(host, f) == f.hostname)
      && (forall f :: g.serviceValue(addr, f) == g.listenIp(f) == ListenIp(f))
      && (forall f, select :: g.port(f, select) == port)
      && (forall f :: g.converts(f)) && (forall h :: g.lookup(h) == h)
      && (forall n :: own(n) == if n == addr then 1 else 0)
      && forall n :: rank(n) == if n == id then 0 else 1
    }
  }

  function Names(e: Setting): set<string> {
    {e.dollar, e.id, e.host, e.addr}
  }

  /** An MDS instance with a variable set to a dollar sign. */
  function Asked(e: Setting, host: string, id: string, ip: string): Draft {
    Draft(FS, MDS, host, "", 0, 0, 1, map[ID := id], map[LISTEN_IP := ip], map[e.dollar := Variable("$", false)])
  }

  /** The address refers to the dollar sign and to the host name at most. */
  predicate Simple(e: Setting, host: string, id: string, ip: string) {
    && host != [] && '$' !in host && '$' !in id
    && forall r :: r in RefsOf(ip) ==> r == e.dollar || r == e.host
  }

  function HostedTable(e: Setting): Table {
    map[e.dollar := Variable("$", true)]
  }

  function HostedDraft(e: Setting, host: string, id: string, ip: string): Draft {
    Asked(e, host, id, ip).(table := HostedTable(e), hostname := host)
  }

  lemma AskedHosted(e: Setting, host: string, id: string, ip: string)
    requires e.Valid() && Simple(e, host, id, ip)
    ensures Ranked(Asked(e, host, id, ip).table, e.own)
    ensures Hosted(Asked(e, host, id, ip), e.g, e.own) == Some(HostedDraft(e, host, id, ip))
  {
    var d := Asked(e, host, id, ip);
    Dollar();
    assert Expanded(d.table, e.own) == HostedTable(e);
    PlainIsText(host);
    RenderNoRefs(host, HostedTable(e));
  }

  /** The values that the service variables are registered with. */
  lemma AskedRanked(e: Setting, host: string, id: string, ip: string)
    requires e.Valid() && Simple(e, host, id, ip)
    ensures RankedDraft(Asked(e, host, id, ip), e.g, e.vs, e.own)
    ensures RefsOf(id) == [] && RefsOf(host) == []
  {
    AskedHosted(e, host, id, ip);
    PlainIsText(id);
    PlainIsText(host);
  }

  /** Everything in the instance refers to names that it has. */
  lemma AskedFits(e: Setting, host: string, id: string, ip: string)
    requires e.Valid() && Simple(e, host, id, ip)
    ensures Fits(HostedDraft(e, host, id, ip), e.g, e.vs)
  {
    var h := HostedDraft(e, host, id, ip);
    PlainIsText(id);
    PlainIsText(host);
    assert Defined(h, e.vs, e.dollar);
    assert Defined(h, e.vs, e.host) by {
      assert e.vs[1] in e.vs;
    }
  }

  lemma AskedBuilt(e: Setting, host: string, id: string, ip: string) returns (b: Draft)
    requires e.Valid() && Simple(e, host, id, ip)
    ensures BuildsTo(e.g, e.vs, Asked(e, host, id, ip), e.own, b)
  {
    AskedRanked(e, host, id, ip);
    AskedHosted(e, host, id, ip);
    AskedFits(e, host, id, ip);
    BuiltIff(Asked(e, host, id, ip), e.g, e.vs, e.own);
    b := Built(Asked(e, host, id, ip), e.g, e.vs, e.own).value;
    BuiltHolds(Asked(e, host, id, ip), e.g, e.vs, e.own);
  }

  /** What the built instance holds. */
  ghost predicate Holds(e: Setting, b: Draft, host: string, id: string, ip: string) {
    && b.table.Keys == Names(e) && ListenIp(FactsOf(b)) == Render(Tokenize(ip), b.table)
    && Stands(b.table, e.dollar, "$") && Stands(b.table, e.id, id) && Stands(b.table, e.host, host)
    && StandsFor(b.table, e.addr, ip)
  }

  lemma AskedHost(e: Setting, host: string, id: string, ip: string, b: Draft)
    requires e.Valid() && Simple(e, host, id, ip) && BuildsTo(e.g, e.vs, Asked(e, host, id, ip), e.own, b)
    ensures b.host == b.hostname == host && Stands(b.table, e.dollar, "$")
    ensures ListenIp(FactsOf(b)) == Render(Tokenize(ip), b.table)
  {
    var d := Asked(e, host, id, ip);
    OwnParts(e.g, e.vs, d, e.own, b, e.dollar);
    PlainIsText(host);
    RenderNoRefs(host, Expanded(d.table, e.own));
    Dollar();
  }

  lemma NamesDefined(e: Setting, d: Draft, n: string)
    requires e.Valid() && d.table.Keys == {e.dollar}
    ensures Defined(d, e.vs, n) <==> n in Names(e)
  {
    assert e.vs[0] in e.vs && e.vs[1] in e.vs && e.vs[2] in e.vs;
  }

  lemma AskedNames(e: Setting, d: Draft, b: Draft)
    requires e.Valid() && d.table.Keys == {e.dollar} && BuildsTo(e.g, e.vs, d, e.own, b)
    ensures b.table.Keys == Names(e)
  {
    BuiltNames(d, e.g, e.vs, e.own);
    forall n ensures n in b.table <==> n in Names(e) {
      NamesDefined(e, d, n);
    }
  }

  lemma AskedValues(e: Setting, host: string, id: string, ip: string, b: Draft)
    requires e.Valid() && Simple(e, host, id, ip) && BuildsTo(e.g, e.vs, Asked(e, host, id, ip), e.own, b)
    requires b.hostname == host
    ensures Stands(b.table, e.id, id) && Stands(b.table, e.host, host) && StandsFor(b.table, e.addr, ip)
  {
    var d := Asked(e, host, id, ip);
    PlainIsText(id);
    PlainIsText(host);
    ServiceValue(e.g, e.vs, d, e.own, b, e.vs[0], id);
    ServiceValue(e.g, e.vs, d, e.own, b, e.vs[1], host);
    ServiceValue(e.g, e.vs, d, e.own, b, e.vs[2], ip);
  }

  lemma AskedHolds(e: Setting, host: string, id: string, ip: string, b: Draft)
    requires e.Valid() && Simple(e, host, id, ip) && BuildsTo(e.g, e.vs, Asked(e, host, id, ip), e.own, b)
    ensures Holds(e, b, host, id, ip)
  {
    AskedHost(e, host, id, ip, b);
    AskedNames(e, Asked(e, host, id, ip), b);
    AskedValues(e, host, id, ip, b);
  }

  // ------------------------------------------------------------ the second loop

  /** Tells the names of the cluster variables apart. */
  function Code(s: string): nat {
    if |s| == 22 then if s[8] == 'c' then 3 else if s[18] == 'a' then 0 else 1
    else if |s| == 23 then if s[8] == 'm' then 2 else 4
    else if |s| == 16 then if s[1] == 'l' then 5 else 6
    else 7
  }

  lemma Codes(i: nat)
    requires i < |CLUSTER_VARS|
    ensures Code(CLUSTER_VARS[i].name) == i && |CLUSTER_VARS[i].name| > 12
  {
  }

  lemma FreeByCode(e: Setting, m: Table, vs: seq<Var>)
    requires e.Valid() && m.Keys == Names(e)
    requires forall i :: 0 <= i < |vs| ==> Code(vs[i].name) == i && |vs[i].name| > 12
    ensures Free(m, vs, FS, MDS) && forall v :: v in vs ==> v.name != e.id
  {
  }

  lemma ClusterNames(e: Setting, m: Table)
    requires e.Valid() && m.Keys == Names(e)
    ensures Free(m, CLUSTER_VARS, FS, MDS) && forall v :: v in CLUSTER_VARS ==> v.name != e.id
  {
    forall i | 0 <= i < |CLUSTER_VARS| ensures Code(CLUSTER_VARS[i].name) == i && |CLUSTER_VARS[i].name| > 12 {
      Codes(i);
    }
    FreeByCode(e, m, CLUSTER_VARS);
  }

  ghost predicate RefersToId(e: Setting, text: string) {
    forall r :: r in RefsOf(text) ==> r == e.id
  }

  ghost predicate Ready(e: Setting, b: Draft) {
    b.kind == FS && b.role == MDS && AllResolved(b.table) && b.table.Keys == Names(e)
  }

  ghost predicate AllReady(e: Setting, bs: seq<Draft>) {
    forall i :: 0 <= i < |bs| ==> Ready(e, bs[i])
  }

  ghost predicate AddressesReferToId(e: Setting, all: seq<Facts>) {
    && RefersToId(e, Join(Peers(e.g, all, ServerPort))) && RefersToId(e, Join(Peers(e.g, all, DummyPort)))
    && RefersToId(e, Join(Ports(e.g, all, DummyPort)))
  }

  lemma ValueRefersToId(e: Setting, all: seq<Facts>, n: string)
    requires (forall f :: f in all ==> f.role == MDS) && AddressesReferToId(e, all)
    ensures RefersToId(e, ClusterValue(e.g, all, n))
  {
    ClusterTexts(e.g, all, n);
    PlainIsText("");
    PlainIsText("0");
  }

  lemma ClusterRanked(e: Setting, bs: seq<Draft>)
    requires e.Valid() && AllReady(e, bs) && AddressesReferToId(e, AllFacts(bs))
    ensures RankedCluster(e.g, AllFacts(bs), e.rank)
  {
    if bs != [] {
      ClusterNames(e, bs[0].table);
    } else {
      ClusterNames(e, map n | n in Names(e) :: Variable("", true));
    }
    forall n ensures RefersToId(e, ClusterValue(e.g, AllFacts(bs), n)) {
      ValueRefersToId(e, AllFacts(bs), n);
    }
  }

  /** The second loop goes through. */
  lemma CanCluster(e: Setting, bs: seq<Draft>)
    requires e.Valid() && AllReady(e, bs) && AddressesReferToId(e, AllFacts(bs))
    ensures RankedCluster(e.g, AllFacts(bs), e.rank) && AllBuilt(bs)
    ensures ClusteredAll(bs, e.g, e.rank).Some?
  {
    var all := AllFacts(bs);
    ClusterRanked(e, bs);
    forall i | 0 <= i < |bs| ensures Clustered(bs[i], e.g, all, e.rank).Some? {
      ClusterNames(e, bs[i].table);
      forall n ensures AllDefined(bs[i], CLUSTER_VARS, ClusterValue(e.g, all, n)) {
        ValueRefersToId(e, all, n);
      }
      ClusteredIff(bs[i], e.g, all, e.rank);
    }
  }

  // ------------------------------------------------------ addresses by host name

  lemma OneAddress(e: Setting, f: Facts)
    requires e.Valid() && f.role == MDS && '$' !in ListenIp(f)
    ensures var text := ListenIp(f) + ":" + e.port;
      && Join(Peers(e.g, [f], ServerPort)) == text && RefsOf(text) == []
      && AddressesReferToId(e, [f])
  {
    assert Peers(e.g, [f][1..], ServerPort) == Peers(e.g, [f][1..], DummyPort) == [];
    PlainIsText(ListenIp(f) + ":" + e.port);
    PlainIsText(e.port);
  }

  lemma HostBuilt(e: Setting, host: string, id: string) returns (b: Draft)
    requires e.Valid() && host != [] && '$' !in host && '$' !in id
    ensures BuildsTo(e.g, e.vs, Asked(e, host, id, Reference(e.host)), e.own, b)
    ensures Ready(e, b) && ListenIp(FactsOf(b)) == host && Stands(b.table, e.addr, host)
  {
    ReferenceAlone(e.host);
    b := AskedBuilt(e, host, id, Reference(e.host));
    AskedHolds(e, host, id, Reference(e.host), b);
    RenderedReference(b.table, e.host);
    SubstituteOne(e.host, Values(b.table));
  }

  /** The references are acyclic, both loops go through, and the service listens on its
      host name, which is also what the cluster variable says. */
  ghost predicate ListensOnHost(e: Setting, d: Draft) {
    && EndsWith(e.g, e.vs, [d], [e.own], e.rank, 0, e.addr, d.host)
    && EndsWith(e.g, e.vs, [d], [e.own], e.rank, 0, ADDR, d.host + ":" + e.port)
  }

  lemma HostReference(e: Setting, host: string, id: string)
    requires e.Valid() && host != [] && '$' !in host && '$' !in id
    ensures ListensOnHost(e, Asked(e, host, id, Reference(e.host)))
  {
    var b := HostBuilt(e, host, id);
    assert AllFacts([b]) == [FactsOf(b)];
    OneAddress(e, FactsOf(b));
    CanCluster(e, [b]);
    OneResolves(e.g, e.vs, Asked(e, host, id, Reference(e.host)), e.own, b, e.rank, host + ":" + e.port, e.addr, host);
  }

  // ----------------------------------------------------------- addresses that disagree

  /** The address "${d}{service_id}". */
  function Crossed(e: Setting): string {
    Reference(e.dollar) + "{" + e.id + "}"
  }

  lemma CrossedRefs(e: Setting)
    requires e.Valid()
    ensures RefsOf(Crossed(e)) == [e.dollar]
  {
    assert Crossed(e) == Reference(e.dollar) + ("{" + e.id + "}");
    Braced(e.dollar, e.id);
    RefPrefix(e.dollar, "{" + e.id + "}", map[]);
  }

  lemma CrossedBuilt(e: Setting, host: string, id: string) returns (b: Draft)
    requires e.Valid() && host != [] && '$' !in host && '$' !in id
    ensures BuildsTo(e.g, e.vs, Asked(e, host, id, Crossed(e)), e.own, b)
    ensures Ready(e, b) && ListenIp(FactsOf(b)) == Reference(e.id) && Stands(b.table, e.id, id)
  {
    CrossedRefs(e);
    b := AskedBuilt(e, host, id, Crossed(e));
    AskedHolds(e, host, id, Crossed(e), b);
    DollarRenders(b.table, e.dollar, e.id);
  }

  lemma TwoTexts(e: Setting, f: Facts, f': Facts)
    requires e.Valid() && f.role == f'.role == MDS && ListenIp(f) == ListenIp(f') == Reference(e.id)
    ensures var a := Reference(e.id) + ":" + e.port; Join(Peers(e.g, [f, f'], ServerPort)) == a + "," + a
    ensures AddressesReferToId(e, [f, f'])
  {
    var a, all := Reference(e.id) + ":" + e.port, [f, f'];
    assert all[1..] == [f'] && all[1..][1..] == [];
    forall select ensures Join(Peers(e.g, all, select)) == a + "," + a {
      assert Peers(e.g, [f'], select) == [Peer(e.g, f', select)] == [a];
      assert Peers(e.g, all, select) == [a] + [a];
      assert ([a] + [a])[1..] == [a];
    }
    assert Ports(e.g, [f'], DummyPort) == [e.port];
    assert Ports(e.g, all, DummyPort) == [e.port] + [e.port];
    assert ([e.port] + [e.port])[1..] == [e.port];
    TwoAddresses(e.id, e.port, map[e.id := ""]);
    PlainIsText(e.port + "," + e.port);
  }

  lemma TwoClustered(e: Setting, b: Draft, b': Draft)
    requires e.Valid() && Ready(e, b) && Ready(e, b')
    requires ListenIp(FactsOf(b)) == ListenIp(FactsOf(b')) == Reference(e.id)
    ensures RankedCluster(e.g, AllFacts([b, b']), e.rank) && AllBuilt([b, b'])
    ensures ClusteredAll([b, b'], e.g, e.rank).Some?
    ensures var a := Reference(e.id) + ":" + e.port; Join(Peers(e.g, AllFacts([b, b']), ServerPort)) == a + "," + a
  {
    assert AllFacts([b, b']) == [FactsOf(b), FactsOf(b')];
    TwoTexts(e, FactsOf(b), FactsOf(b'));
    CanCluster(e, [b, b']);
  }

  /** Two MDSs with this address: the cluster variable of each repeats its own id. */
  lemma EachItsOwn(e: Setting, host: string, host': string, id: string, id': string)
    requires e.Valid() && host != [] && '$' !in host && '$' !in id && host' != [] && '$' !in host' && '$' !in id'
    ensures var ds := [Asked(e, host, id, Crossed(e)), Asked(e, host', id', Crossed(e))];
      && EndsWith(e.g, e.vs, ds, [e.own, e.own], e.rank, 0, ADDR, Twice(id, e.port))
      && EndsWith(e.g, e.vs, ds, [e.own, e.own], e.rank, 1, ADDR, Twice(id', e.port))
  {
    var b := CrossedBuilt(e, host, id);
    var b' := CrossedBuilt(e, host', id');
    TwoClustered(e, b, b');
    TwoDiffer(e.g, e.vs, Asked(e, host, id, Crossed(e)), Asked(e, host', id', Crossed(e)), e.own, b, b', e.rank,
      e.id, e.port, id, id');
  }

  /** The references are acyclic, both loops go through, and the two services hold
      different values of the cluster variable. */
  ghost predicate Disagree(e: Setting, ds: seq<Draft>) {
    && P.Acyclic(ds, e.g, e.vs, [e.own, e.own], e.rank)
    && var r := P.Finished(ds, e.g, e.vs, [e.own, e.own], e.rank);
    && r.Ok? && |r.services| == |ds| == 2 && ADDR in r.services[0].table && ADDR in r.services[1].table
    && r.services[0].table[ADDR] != r.services[1].table[ADDR]
  }

  lemma TwiceApart(id: string, id': string, port: string)
    requires id != id'
    ensures Twice(id, port) != Twice(id', port)
  {
    if |id| == |id'| {
      assert Twice(id, port)[..|id|] == id && Twice(id', port)[..|id|] == id';
    } else {
      assert |Twice(id, port)| == 2 * |id| + 2 * |port| + 3;
    }
  }

  /** Whatever the hosts, services with different ids disagree. */
  lemma DifferentIdsDisagree(e: Setting, host: string, host': string, id: string, id': string)
    requires e.Valid() && host != [] && '$' !in host && '$' !in id && host' != [] && '$' !in host' && '$' !in id'
    requires id != id'
    ensures Disagree(e, [Asked(e, host, id, Crossed(e)), Asked(e, host', id', Crossed(e))])
  {
    EachItsOwn(e, host, host', id, id');
    TwiceApart(id, id', e.port);
  }

  // ---------------------------------------------------------------- the names of the source

  /** getValue for the service variables of the example. */
  function ServiceText(n: string, f: Facts): string {
    if n == "service_id" then f.id
    else if n == "service_host" then f.hostname
    else if n == "service_addr" then ListenIp(f)
    else ""
  }

  function ExampleGetters(): Getters {
    Getters(f => ListenIp(f), (f, select) => "6700", (n, f) => ServiceText(n, f), f => true, h => h)
  }

  /** The variable `d` of the example, and three service variables of getValue. */
  function Example(): Setting {
    Setting(ExampleGetters(), [Var("service_id", [], []), Var("service_host", [], []), Var("service_addr", [], [])],
      "d", "service_id", "service_host", "service_addr", "6700",
      n => if n == "service_addr" then 1 else 0, n => if n == "service_id" then 0 else 1)
  }

  lemma ExampleNames()
    ensures IsName("d") && IsName("service_id") && IsName("service_host") && IsName("service_addr")
    ensures "service_host" != "service_addr"
  {
    assert "service_host"[8] != "service_addr"[8];
  }

  lemma ExampleValid()
    ensures Example().Valid()
  {
    ExampleNames();
  }

  /** An MDS on the host a with the address "${service_host}". */
  lemma HostReferenceResolves()
    ensures ListensOnHost(Example(), Asked(Example(), "a", "mds_a_0_0", Reference(Example().host)))
  {
    ExampleValid();
    HostReference(Example(), "a", "mds_a_0_0");
  }

  /** MDSs on the hosts a and b with the address "${d}{service_id}". */
  lemma ReferencesDisagree()
    ensures Disagree(Example(), [Asked(Example(), "a", "mds_a_0_0", Crossed(Example())),
                                 Asked(Example(), "b", "mds_b_0_0", Crossed(Example()))])
  {
    ExampleValid();
    assert "mds_a_0_0"[4] != "mds_b_0_0"[4];
    DifferentIdsDisagree(Example(), "a", "b", "mds_a_0_0", "mds_b_0_0");
  }
}
