/**
 Cluster variables whose values refer to variables of the service: when services
 share such a value, and what both loops of ParseTopology leave of it.
 */
module ClusterReferences {
  import opened VariableText
  import opened Variables
  import opened Topology
  import opened TopologyPhases
  import P = ParseTopology

  // ---------------------------------------------- when cluster values are shared

  /** Every two services that hold a cluster value hold the same text for it. */
  ghost predicate SharedBy(text: string) {
    forall a: Table, b: Table, n ::
      StandsFor(a, n, text) && StandsFor(b, n, text) && Defines(Values(a), text) && Defines(Values(b), text) ==>
        a[n] == b[n]
  }

  /** A cluster value is the same in all services, whatever variables of their own
      they have, iff it holds no reference. */
  lemma SharedIffPlain(text: string)
    ensures SharedBy(text) <==> RefsOf(text) == []
  {
    if RefsOf(text) == [] {
      forall m: Table ensures Substitute(Tokenize(text), Values(m)) == text {
        NoRefsIsText(text, Values(m));
      }
    } else {
      SameEverywhereIff(text);
      var v, w :| Defines(v, text) && Defines(w, text) &&
        Substitute(Tokenize(text), v) != Substitute(Tokenize(text), w);
      var n := NewName(RefsOf(text));
      TableFor(text, v, n);
      TableFor(text, w, n);
    }
  }

  function Joined(names: seq<string>): string {
    if names == [] then "_" else names[0] + Joined(names[1..])
  }

  lemma {:induction false} JoinedLonger(names: seq<string>)
    ensures |Joined(names)| >= 1 && forall n :: n in names ==> |n| < |Joined(names)|
  {
    if names != [] {
      JoinedLonger(names[1..]);
    }
  }

  lemma NewName(names: seq<string>) returns (n: string)
    ensures n !in names
  {
    JoinedLonger(names);
    n := Joined(names);
  }

  function TableOfValues(text: string, v: map<string, string>, n: string): Table {
    (map r | r in v :: Variable(v[r], true))[n := Variable(Substitute(Tokenize(text), v), true)]
  }

  lemma TableFor(text: string, v: map<string, string>, n: string)
    requires Defines(v, text) && n !in RefsOf(text)
    ensures var m := TableOfValues(text, v, n);
      StandsFor(m, n, text) && Defines(Values(m), text) && m[n].value == Substitute(Tokenize(text), v)
  {
    var m := TableOfValues(text, v, n);
    SubstituteAgrees(Tokenize(text), v, Values(m));
  }

  function Reference(n: string): string {
    "${" + n + "}"
  }

  lemma DollarRenders(m: Table, d: string, name: string)
    requires IsName(d) && IsName(name) && d in m && m[d] == Variable("$", true)
    ensures Render(Tokenize(Reference(d) + "{" + name + "}"), m) == Reference(name)
  {
    Braced(d, name);
    TokenizeRef(d, "{" + name + "}");
    RenderFirst(m, d, "{" + name + "}");
  }

  lemma Braced(d: string, name: string)
    requires IsName(name)
    ensures Reference(d) + "{" + name + "}" == Reference(d) + ("{" + name + "}")
    ensures "$" + ("{" + name + "}") == Reference(name)
    ensures RefsOf("{" + name + "}") == []
  {
    assert "$" + "{" == "${";
    assert forall i :: 0 <= i < |name| ==> name[i] != '$';
    PlainIsText("{" + name + "}");
  }

  lemma RenderFirst(m: Table, d: string, rest: string)
    requires d in m && m[d].resolved && RefsOf(rest) == []
    ensures Render([Ref(d)] + Tokenize(rest), m) == m[d].value + rest
  {
    RenderNoRefs(rest, m);
    var ts := [Ref(d)] + Tokenize(rest);
    assert ts[0] == Ref(d) && ts[1..] == Tokenize(rest);
  }

  /** Without a dollar sign there is no reference. */
  lemma {:induction false} PlainIsText(s: string)
    requires '$' !in s
    ensures RefsOf(s) == []
    decreases |s|
  {
    if s != [] {
      PlainIsText(s[1..]);
      assert Tokenize(s) == [Text(s[0])] + Tokenize(s[1..]);
      assert ([Text(s[0])] + Tokenize(s[1..]))[1..] == Tokenize(s[1..]);
    }
  }

  lemma SubstituteOne(n: string, values: map<string, string>)
    requires n in values && IsName(n)
    ensures Substitute(Tokenize(Reference(n)), values) == values[n]
  {
    TokenizeRef(n, "");
    assert Reference(n) + "" == Reference(n);
    assert [Ref(n)] + Tokenize("") == [Ref(n)] && [Ref(n)][1..] == [];
    assert values[n] + [] == values[n];
  }

  // -------------------------------------------------------------------- texts

  lemma ReferenceAlone(n: string)
    requires IsName(n)
    ensures Tokenize(Reference(n)) == [Ref(n)] && RefsOf(Reference(n)) == [n]
  {
    TokenizeRef(n, "");
    assert Reference(n) + "" == Reference(n);
    var ts := [Ref(n)];
    assert ts + Tokenize("") == ts && ts[1..] == [];
    assert Refs(ts) == [n] + Refs([]);
  }

  lemma RenderedReference(m: Table, n: string)
    requires IsName(n) && n in m && m[n].resolved
    ensures Render(Tokenize(Reference(n)), m) == m[n].value
  {
    ReferenceAlone(n);
    RenderFirst(m, n, "");
    assert [Ref(n)] + Tokenize("") == [Ref(n)];
  }

  ghost predicate Stands(m: Table, n: string, value: string) {
    n in m && m[n] == Variable(value, true)
  }

  lemma {:induction false} PlainPrefix(p: string, rest: string)
    requires '$' !in p
    ensures RefsOf(p + rest) == RefsOf(rest)
  {
    if p == [] {
      assert p + rest == rest;
    } else {
      PlainPrefix(p[1..], rest);
      PlainHead(p, rest);
    }
  }

  lemma PlainHead(p: string, rest: string)
    requires p != [] && '$' !in p
    ensures Tokenize(p + rest) == [Text(p[0])] + Tokenize(p[1..] + rest)
    ensures Tokenize(p + rest)[1..] == Tokenize(p[1..] + rest)
  {
    assert (p + rest)[1..] == p[1..] + rest;
  }

  lemma {:induction false} PlainSubstitute(p: string, rest: string, v: map<string, string>)
    requires '$' !in p
    ensures Substitute(Tokenize(p + rest), v) == p + Substitute(Tokenize(rest), v)
  {
    if p == [] {
      assert p + rest == rest;
    } else {
      PlainSubstitute(p[1..], rest, v);
      PlainHead(p, rest);
      assert [p[0]] + (p[1..] + Substitute(Tokenize(rest), v)) == p + Substitute(Tokenize(rest), v);
    }
  }

  lemma RefPrefix(n: string, rest: string, v: map<string, string>)
    requires IsName(n)
    ensures RefsOf(Reference(n) + rest) == [n] + RefsOf(rest)
    ensures n in v ==> Substitute(Tokenize(Reference(n) + rest), v) == v[n] + Substitute(Tokenize(rest), v)
  {
    TokenizeRef(n, rest);
    var ts := [Ref(n)] + Tokenize(rest);
    assert ts[0] == Ref(n) && ts[1..] == Tokenize(rest);
  }

  /** Two addresses of the form "${n}:port". */
  lemma TwoAddresses(n: string, port: string, v: map<string, string>)
    requires IsName(n) && '$' !in port && n in v
    ensures var a := Reference(n) + ":" + port;
      && RefsOf(a + "," + a) == [n, n]
      && Substitute(Tokenize(a + "," + a), v) == v[n] + (":" + port + "," + (v[n] + (":" + port)))
  {
    var a, mid, end := Reference(n) + ":" + port, ":" + port + ",", ":" + port;
    var tail := Reference(n) + end;
    assert a + "," + a == Reference(n) + (mid + tail);
    PlainIsText(end);
    NoRefsIsText(end, v);
    RefPrefix(n, end, v);
    PlainPrefix(mid, tail);
    PlainSubstitute(mid, tail, v);
    RefPrefix(n, mid + tail, v);
  }

  lemma Dollar()
    ensures RefsOf("$") == [] && forall v :: Substitute(Tokenize("$"), v) == "$"
  {
    assert Tokenize("$") == [Text('$')] + Tokenize("$"[1..]) && "$"[1..] == "";
    assert RefsOf("$") == [];
    forall v ensures Substitute(Tokenize("$"), v) == "$" {
      NoRefsIsText("$", v);
    }
  }

  // ------------------------------------------------------------ topologies of MDSs

  lemma {:induction false} AllOfOne(all: seq<Facts>, role: string)
    requires forall f :: f in all ==> f.role == MDS
    ensures OfRole(all, role) == if role == MDS then all else []
  {
    if all != [] {
      AllOfOne(all[1..], role);
    }
  }

  /** Every cluster value of a topology of MDSs. */
  lemma ClusterTexts(g: Getters, all: seq<Facts>, n: string)
    requires forall f :: f in all ==> f.role == MDS
    ensures ClusterValue(g, all, n) in
      {Join(Peers(g, all, ServerPort)), Join(Peers(g, all, DummyPort)), Join(Ports(g, all, DummyPort)), "", "0"}
  {
    AllOfOne(all, MDS);
    AllOfOne(all, METASERVER);
    AllOfOne(all, COORDINATOR);
    AllOfOne(all, DISKANN);
  }

  /** Both loops go through once every instance is built and can take its cluster
      variables. */
  lemma Loops(g: Getters, vs: seq<Var>, ds: seq<Draft>, ranks: seq<string -> nat>, bs: seq<Draft>, rank: string -> nat)
    requires |ds| == |bs| == |ranks| && AllBuilt(bs) && RankedCluster(g, AllFacts(bs), rank)
    requires forall i :: 0 <= i < |ds| ==>
      RankedDraft(ds[i], g, vs, ranks[i]) && Built(ds[i], g, vs, ranks[i]) == Some(bs[i])
    requires ClusteredAll(bs, g, rank).Some?
    ensures P.Acyclic(ds, g, vs, ranks, rank)
    ensures P.Finished(ds, g, vs, ranks, rank) == P.Ok(ClusteredAll(bs, g, rank).value)
  {
    assert BuiltAll(ds, g, vs, ranks).value == bs;
  }

  lemma ClusterVariable(d: Draft, g: Getters, all: seq<Facts>, rank: string -> nat, v: Var)
    requires AllResolved(d.table) && RankedCluster(g, all, rank) && Clustered(d, g, all, rank).Some?
    requires v in CLUSTER_VARS && !Skipped(v, d.kind, d.role)
    ensures var m := Clustered(d, g, all, rank).value.table;
      && StandsFor(m, v.name, ClusterValue(g, all, v.name))
      && forall n :: n in d.table ==> n in m && m[n] == d.table[n]
  {
    ClusteredHolds(d, g, all, rank);
  }

  const ADDR := "cluster_mds_addr"

  lemma AddressVar() returns (v: Var)
    ensures v in CLUSTER_VARS && v.name == ADDR && !Skipped(v, FS, MDS)
  {
    v := CLUSTER_VARS[5];
  }

  lemma MdsAddress(g: Getters, all: seq<Facts>)
    requires forall f :: f in all ==> f.role == MDS
    ensures ClusterValue(g, all, ADDR) == Join(Peers(g, all, ServerPort))
  {
    AllOfOne(all, MDS);
  }

  /** The cluster variable of a topology of MDSs after the second loop. */
  lemma ClusteredAddress(g: Getters, bs: seq<Draft>, rank: string -> nat, i: nat)
    requires i < |bs| && forall b :: b in bs ==> b.kind == FS && b.role == MDS
    requires RankedCluster(g, AllFacts(bs), rank) && AllBuilt(bs) && ClusteredAll(bs, g, rank).Some?
    ensures var m := ClusteredAll(bs, g, rank).value[i].table;
      && StandsFor(m, ADDR, Join(Peers(g, AllFacts(bs), ServerPort)))
      && forall n :: n in bs[i].table ==> n in m && m[n] == bs[i].table[n]
  {
    var v := AddressVar();
    MdsAddress(g, AllFacts(bs));
    ClusterVariable(bs[i], g, AllFacts(bs), rank, v);
  }

  /** What both loops make of MDSs that are built and can take their cluster variables. */
  ghost predicate Finishes(g: Getters, vs: seq<Var>, ds: seq<Draft>, ranks: seq<string -> nat>, bs: seq<Draft>,
                           rank: string -> nat, text: string) {
    && P.Acyclic(ds, g, vs, ranks, rank)
    && var r := P.Finished(ds, g, vs, ranks, rank);
    && r.Ok? && |r.services| == |ds| == |bs|
    && forall i :: 0 <= i < |ds| ==>
         StandsFor(r.services[i].table, ADDR, text) && Keeps(bs[i].table, r.services[i].table)
  }

  ghost predicate Keeps(m: Table, m': Table) {
    forall n :: n in m ==> n in m' && m'[n] == m[n]
  }

  lemma BothLoops(g: Getters, vs: seq<Var>, ds: seq<Draft>, ranks: seq<string -> nat>, bs: seq<Draft>,
                  rank: string -> nat)
    requires |ds| == |bs| == |ranks| && AllBuilt(bs) && RankedCluster(g, AllFacts(bs), rank)
    requires forall i :: 0 <= i < |ds| ==>
      RankedDraft(ds[i], g, vs, ranks[i]) && Built(ds[i], g, vs, ranks[i]) == Some(bs[i])
    requires (forall b :: b in bs ==> b.kind == FS && b.role == MDS) && ClusteredAll(bs, g, rank).Some?
    ensures Finishes(g, vs, ds, ranks, bs, rank, Join(Peers(g, AllFacts(bs), ServerPort)))
  {
    Loops(g, vs, ds, ranks, bs, rank);
    forall i | 0 <= i < |bs|
      ensures var m := ClusteredAll(bs, g, rank).value[i].table;
        StandsFor(m, ADDR, Join(Peers(g, AllFacts(bs), ServerPort))) && Keeps(bs[i].table, m)
    {
      ClusteredAddress(g, bs, rank, i);
    }
  }

  /** Both loops go through and leave service `i` with this value of variable `n`. */
  ghost predicate EndsWith(g: Getters, vs: seq<Var>, ds: seq<Draft>, ranks: seq<string -> nat>, rank: string -> nat,
                           i: nat, n: string, value: string) {
    && P.Acyclic(ds, g, vs, ranks, rank)
    && var r := P.Finished(ds, g, vs, ranks, rank);
       r.Ok? && i < |r.services| && Stands(r.services[i].table, n, value)
  }

  ghost predicate BuildsTo(g: Getters, vs: seq<Var>, d: Draft, rank: string -> nat, b: Draft) {
    && RankedDraft(d, g, vs, rank) && Built(d, g, vs, rank) == Some(b)
    && b.kind == FS && b.role == MDS && AllResolved(b.table)
  }

  lemma OneResolves(g: Getters, vs: seq<Var>, d: Draft, own: string -> nat, b: Draft, rank: string -> nat,
                    text: string, n: string, value: string)
    requires BuildsTo(g, vs, d, own, b) && RankedCluster(g, AllFacts([b]), rank) && ClusteredAll([b], g, rank).Some?
    requires text == Join(Peers(g, AllFacts([b]), ServerPort)) && RefsOf(text) == [] && Stands(b.table, n, value)
    ensures EndsWith(g, vs, [d], [own], rank, 0, n, value) && EndsWith(g, vs, [d], [own], rank, 0, ADDR, text)
  {
    BothLoops(g, vs, [d], [own], [b], rank);
    NoRefsIsText(text, Values(P.Finished([d], g, vs, [own], rank).services[0].table));
  }

  function Twice(address: string, port: string): string {
    address + (":" + port + "," + (address + (":" + port)))
  }

  lemma TwiceStands(m: Table, n: string, port: string, id: string)
    requires IsName(n) && '$' !in port && Stands(m, n, id)
    requires var a := Reference(n) + ":" + port; StandsFor(m, ADDR, a + "," + a)
    ensures Stands(m, ADDR, Twice(id, port))
  {
    TwoAddresses(n, port, Values(m));
  }

  lemma EndsTwice(g: Getters, vs: seq<Var>, ds: seq<Draft>, ranks: seq<string -> nat>, bs: seq<Draft>,
                  rank: string -> nat, n: string, port: string, i: nat, id: string)
    requires var a := Reference(n) + ":" + port; Finishes(g, vs, ds, ranks, bs, rank, a + "," + a)
    requires IsName(n) && '$' !in port && i < |ds| == |bs| && Stands(bs[i].table, n, id)
    ensures EndsWith(g, vs, ds, ranks, rank, i, ADDR, Twice(id, port))
  {
    TwiceStands(P.Finished(ds, g, vs, ranks, rank).services[i].table, n, port, id);
  }

  lemma TwoFinish(g: Getters, vs: seq<Var>, d: Draft, d': Draft, own: string -> nat, b: Draft, b': Draft,
                  rank: string -> nat)
    requires BuildsTo(g, vs, d, own, b) && BuildsTo(g, vs, d', own, b')
    requires RankedCluster(g, AllFacts([b, b']), rank) && ClusteredAll([b, b'], g, rank).Some?
    ensures Finishes(g, vs, [d, d'], [own, own], [b, b'], rank, Join(Peers(g, AllFacts([b, b']), ServerPort)))
  {
    var ds, bs := [d, d'], [b, b'];
    forall i | 0 <= i < 2 ensures BuildsTo(g, vs, ds[i], [own, own][i], bs[i]) {
    }
    BothLoops(g, vs, ds, [own, own], bs, rank);
  }

  /** Two services whose common address refers to a variable that each has for itself. */
  lemma TwoDiffer(g: Getters, vs: seq<Var>, d: Draft, d': Draft, own: string -> nat, b: Draft, b': Draft,
                  rank: string -> nat, n: string, port: string, id: string, id': string)
    requires BuildsTo(g, vs, d, own, b) && BuildsTo(g, vs, d', own, b')
    requires RankedCluster(g, AllFacts([b, b']), rank) && ClusteredAll([b, b'], g, rank).Some?
    requires IsName(n) && '$' !in port && Stands(b.table, n, id) && Stands(b'.table, n, id')
    requires var a := Reference(n) + ":" + port; Join(Peers(g, AllFacts([b, b']), ServerPort)) == a + "," + a
    ensures EndsWith(g, vs, [d, d'], [own, own], rank, 0, ADDR, Twice(id, port))
    ensures EndsWith(g, vs, [d, d'], [own, own], rank, 1, ADDR, Twice(id', port))
  {
    TwoFinish(g, vs, d, d', own, b, b', rank);
    EndsTwice(g, vs, [d, d'], [own, own], [b, b'], rank, n, port, 0, id);
    EndsTwice(g, vs, [d, d'], [own, own], [b, b'], rank, n, port, 1, id');
  }

  lemma OwnParts(g: Getters, vs: seq<Var>, d: Draft, rank: string -> nat, b: Draft, n: string)
    requires BuildsTo(g, vs, d, rank, b) && n in d.table
    ensures b.host == Render(Tokenize(d.host), Expanded(d.table, rank)) && b.hostname == g.lookup(b.host)
    ensures Stands(b.table, n, Expand(d.table, rank, n)) && b.config == RenderAll(b.table, d.config)
  {
    BuiltHolds(d, g, vs, rank);
  }

  lemma ServiceValue(g: Getters, vs: seq<Var>, d: Draft, rank: string -> nat, b: Draft, v: Var, text: string)
    requires BuildsTo(g, vs, d, rank, b) && v in vs && !Skipped(v, d.kind, d.role)
    requires text == g.serviceValue(v.name, FactsOf(d.(host := b.host, hostname := b.hostname)))
    ensures StandsFor(b.table, v.name, text) && (RefsOf(text) == [] ==> Stands(b.table, v.name, text))
  {
    BuiltHolds(d, g, vs, rank);
    if RefsOf(text) == [] {
      NoRefsIsText(text, Values(b.table));
    }
  }
}
