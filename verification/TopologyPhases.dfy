/**
 The two loops at the end of ParseTopology in
 internal/configure/topology/topology.go, over services of
 internal/configure/topology/dc.go.  Each step is proved against a function on
 drafts, the values of services.
 */
module TopologyPhases {
  import opened VariableText
  import opened Variables
  import opened Topology

  datatype Option<T> = None | Some(value: T)

  // ---------------------------------------------------------------- services

  /** A service as a value.  `labels` holds the fields name, id and parentId. */
  datatype Draft = Draft(kind: string, role: string, host: string, hostname: string,
                         hostSequence: int, instance: int, instances: nat,
                         labels: map<string, string>, config: map<string, string>, table: Table)

  const ID := "id"

  function FactsOf(d: Draft): Facts {
    Facts(d.kind, d.role, if ID in d.labels then d.labels[ID] else "", d.hostname, d.hostSequence, d.instance, d.config)
  }

  class Service {
    const kind: string
    const role: string
    const hostSequence: int
    const instance: int
    const instances: nat
    const vars: VariableTable
    var host: string
    var hostname: string
    var labels: map<string, string>
    var config: map<string, string>

    constructor (d: Draft, vars: VariableTable)
      requires d.table == vars.m
      ensures View() == d && this.vars == vars
    {
      this.kind, this.role, this.vars := d.kind, d.role, vars;
      this.hostSequence, this.instance, this.instances := d.hostSequence, d.instance, d.instances;
      this.host, this.hostname, this.labels, this.config := d.host, d.hostname, d.labels, d.config;
    }

    ghost function View(): Draft
      reads this, vars
    {
      Draft(kind, role, host, hostname, hostSequence, instance, instances, labels, config, vars.m)
    }

    function Facts(): Facts
      reads this
      ensures Facts() == FactsOf(View())
    {
      Topology.Facts(kind, role, if ID in labels then labels[ID] else "", hostname, hostSequence, instance, config)
    }
  }

  ghost predicate AllResolved(m: Table) {
    forall n :: n in m ==> m[n].resolved
  }

  // ------------------------------------------------------ registering variables

  /** addVariables as a function: the table with one unresolved variable for each
      entry that applies; none if a name is taken. */
  function Registered(m: Table, vs: seq<Var>, kind: string, role: string, value: string -> string): Option<Table>
    decreases |vs|
  {
    if vs == [] then Some(m)
    else if Skipped(vs[0], kind, role) then Registered(m, vs[1..], kind, role, value)
    else if vs[0].name in m then None
    else Registered(m[vs[0].name := Variable(value(vs[0].name), false)], vs[1..], kind, role, value)
  }

  lemma {:induction false} RegisteredEntries(m: Table, vs: seq<Var>, kind: string, role: string,
                                             value: string -> string)
    requires Registered(m, vs, kind, role, value).Some?
    ensures var m' := Registered(m, vs, kind, role, value).value;
      && (forall n :: n in m ==> n in m' && m'[n] == m[n])
      && (forall v :: v in vs && !Skipped(v, kind, role) ==>
            v.name in m' && v.name !in m && m'[v.name] == Variable(value(v.name), false))
      && (forall n :: n in m' && n !in m ==>
            m'[n] == Variable(value(n), false) && exists v :: v in vs && !Skipped(v, kind, role) && v.name == n)
    decreases |vs|
  {
    if vs != [] {
      assert vs == [vs[0]] + vs[1..];
      if Skipped(vs[0], kind, role) {
        RegisteredEntries(m, vs[1..], kind, role, value);
      } else {
        RegisteredEntries(m[vs[0].name := Variable(value(vs[0].name), false)], vs[1..], kind, role, value);
      }
    }
  }

  method AddVariables(table: VariableTable, vs: seq<Var>, kind: string, role: string, value: string -> string)
    returns (ok: bool)
    modifies table
    ensures ok <==> Registered(old(table.m), vs, kind, role, value).Some?
    ensures ok ==> table.m == Registered(old(table.m), vs, kind, role, value).value
  {
    for i := 0 to |vs|
      invariant Registered(table.m, vs[i..], kind, role, value) == Registered(old(table.m), vs, kind, role, value)
    {
      assert vs[i..][0] == vs[i] && vs[i..][1..] == vs[i + 1..];
      if !Skipped(vs[i], kind, role) {
        var r := table.Register(vs[i].name, Variable(value(vs[i].name), false));
        if r.Err? {
          return false;
        }
      }
    }
    ok := true;
  }

  /** The references of the variables that apply go strictly down. */
  ghost predicate RankedVars(vs: seq<Var>, kind: string, role: string, value: string -> string, rank: string -> nat) {
    forall v, r :: v in vs && !Skipped(v, kind, role) && r in RefsOf(value(v.name)) ==> rank(r) < rank(v.name)
  }

  /** Variables can be registered iff no two that apply have one name and none has a
      name that is taken. */
  ghost predicate Free(m: Table, vs: seq<Var>, kind: string, role: string) {
    && (forall v :: v in vs && !Skipped(v, kind, role) ==> v.name !in m)
    && forall i, j :: 0 <= i < j < |vs| && !Skipped(vs[i], kind, role) && !Skipped(vs[j], kind, role) ==>
         vs[i].name != vs[j].name
  }

  lemma {:induction false} RegisteredIff(m: Table, vs: seq<Var>, kind: string, role: string, value: string -> string)
    ensures Registered(m, vs, kind, role, value).Some? <==> Free(m, vs, kind, role)
    decreases |vs|
  {
    if vs != [] {
      var rest := vs[1..];
      assert vs == [vs[0]] + rest;
      if Skipped(vs[0], kind, role) {
        RegisteredIff(m, rest, kind, role, value);
        assert forall i :: 0 < i < |vs| ==> vs[i] == rest[i - 1];
      } else if vs[0].name !in m {
        var m' := m[vs[0].name := Variable(value(vs[0].name), false)];
        RegisteredIff(m', rest, kind, role, value);
        assert forall i :: 0 < i < |vs| ==> vs[i] == rest[i - 1];
      }
    }
  }

  /** The variables registered on top of a resolved table are acyclic when their
      own references are ranked. */
  lemma RegisteredRanked(m: Table, vs: seq<Var>, kind: string, role: string, value: string -> string,
                         rank: string -> nat)
    requires AllResolved(m) && Registered(m, vs, kind, role, value).Some? && RankedVars(vs, kind, role, value, rank)
    ensures Ranked(Registered(m, vs, kind, role, value).value, rank)
  {
    RegisteredEntries(m, vs, kind, role, value);
    var m' := Registered(m, vs, kind, role, value).value;
    forall n, r | Open(m', n) && r in Edges(m', n) ensures rank(r) < rank(n) {
      assert n !in m;
      var v :| v in vs && !Skipped(v, kind, role) && v.name == n;
      assert r in RefsOf(value(v.name));
    }
  }

  /** Registering on a resolved table and building keeps what was there, and gives
      each variable its value with the references filled in from the final table. */
  lemma RegisteredBuilt(m: Table, vs: seq<Var>, kind: string, role: string, value: string -> string,
                        rank: string -> nat)
    requires AllResolved(m) && Registered(m, vs, kind, role, value).Some?
    requires var m' := Registered(m, vs, kind, role, value).value; Ranked(m', rank) && NoDangling(m')
    ensures var e := Expanded(Registered(m, vs, kind, role, value).value, rank);
      && (forall n :: n in m ==> n in e && e[n] == m[n])
      && (forall v :: v in vs && !Skipped(v, kind, role) ==>
            v.name in e && v.name !in m && StandsFor(e, v.name, value(v.name)))
  {
    RegisteredEntries(m, vs, kind, role, value);
    var m' := Registered(m, vs, kind, role, value).value;
    forall v | v in vs && !Skipped(v, kind, role) ensures StandsFor(Expanded(m', rank), v.name, value(v.name)) {
      ExpandedIsSubstitution(m', rank, v.name);
    }
  }

  /** The resolved variable `n` is `text` with its references filled in from the table. */
  ghost predicate StandsFor(m: Table, n: string, text: string) {
    n in m && m[n] == Variable(Substitute(Tokenize(text), Values(m)), true)
  }

  // --------------------------------------------------------- stages of phase one

  /** Every entry renders without a failing lookup. */
  predicate Renders(m: Table, config: map<string, string>) {
    forall k :: k in config ==> FirstError(RefsOf(config[k]), m).Ok?
  }

  function RenderAll(m: Table, config: map<string, string>): map<string, string> {
    map k | k in config :: Render(Tokenize(config[k]), m)
  }

  /** A host text that renders to a host the context knows. */
  predicate Hosts(m: Table, g: Getters, host: string) {
    FirstError(RefsOf(host), m).Ok? && g.lookup(Render(Tokenize(host), m)) != ""
  }

  function ServiceValues(g: Getters, facts: Facts): string -> string {
    n => g.serviceValue(n, facts)
  }

  /** ResolveHost: none if a reference dangles, the host does not render or is unknown. */
  ghost function Hosted(d: Draft, g: Getters, rank: string -> nat): Option<Draft>
    requires Ranked(d.table, rank)
  {
    var m := Expanded(d.table, rank);
    if NoDangling(d.table) && Hosts(m, g, d.host) then
      var host := Render(Tokenize(d.host), m);
      Some(d.(table := m, host := host, hostname := g.lookup(host)))
    else None
  }

  /** References go strictly down, in the table and, once the host is resolved, in the
      service variables that apply. */
  ghost predicate RankedDraft(d: Draft, g: Getters, serviceVars: seq<Var>, rank: string -> nat) {
    && Ranked(d.table, rank)
    && (Hosted(d, g, rank).Some? ==>
          var h := Hosted(d, g, rank).value;
          RankedVars(serviceVars, h.kind, h.role, ServiceValues(g, FactsOf(h)), rank))
  }

  /** AddServiceVariables: none if a name is taken. */
  function Extended(d: Draft, vs: seq<Var>, value: string -> string): Option<Draft> {
    match Registered(d.table, vs, d.kind, d.role, value)
    case None => None
    case Some(m) => Some(d.(table := m))
  }

  /** Build: none if a reference dangles, an entry does not render or does not convert. */
  ghost function Rendered(d: Draft, g: Getters, rank: string -> nat): Option<Draft>
    requires Ranked(d.table, rank)
  {
    var m := Expanded(d.table, rank);
    var r := d.(table := m, labels := RenderAll(m, d.labels), config := RenderAll(m, d.config));
    if NoDangling(d.table) && Renders(m, d.labels) && Renders(m, d.config) && g.converts(FactsOf(r)) then Some(r)
    else None
  }

  /** Once the host is resolved the service variables are acyclic too. */
  lemma HostedRanked(d: Draft, g: Getters, serviceVars: seq<Var>, rank: string -> nat)
    requires RankedDraft(d, g, serviceVars, rank) && Hosted(d, g, rank).Some?
    ensures var h := Hosted(d, g, rank).value;
      var e := Extended(h, serviceVars, ServiceValues(g, FactsOf(h)));
      AllResolved(h.table) && (e.Some? ==> Ranked(e.value.table, rank))
  {
    var h := Hosted(d, g, rank).value;
    var value := ServiceValues(g, FactsOf(h));
    if Extended(h, serviceVars, value).Some? {
      RegisteredRanked(h.table, serviceVars, h.kind, h.role, value, rank);
    }
  }

  /** One service of the first loop. */
  ghost function Built(d: Draft, g: Getters, serviceVars: seq<Var>, rank: string -> nat): Option<Draft>
    requires RankedDraft(d, g, serviceVars, rank)
  {
    match Hosted(d, g, rank)
    case None => None
    case Some(h) =>
      match Extended(h, serviceVars, ServiceValues(g, FactsOf(h)))
      case None => None
      case Some(e) =>
        HostedRanked(d, g, serviceVars, rank);
        Rendered(e, g, rank)
  }

  /** What a built service holds: every variable resolved, those it had by what they
      stand for, the service variables that apply with their values for this service,
      and its configuration rendered. */
  lemma BuiltHolds(d: Draft, g: Getters, serviceVars: seq<Var>, rank: string -> nat)
    requires RankedDraft(d, g, serviceVars, rank) && Built(d, g, serviceVars, rank).Some?
    ensures var b := Built(d, g, serviceVars, rank).value;
      && AllResolved(b.table) && b.hostname == g.lookup(b.host) != ""
      && b.host == Render(Tokenize(d.host), Expanded(d.table, rank))
      && (forall n :: n in d.table ==> n in b.table && b.table[n].value == Expand(d.table, rank, n))
      && b.labels == RenderAll(b.table, d.labels) && b.config == RenderAll(b.table, d.config)
      && (forall v :: v in serviceVars && !Skipped(v, d.kind, d.role) ==>
            && v.name !in d.table
            && StandsFor(b.table, v.name, g.serviceValue(v.name, FactsOf(d.(host := b.host, hostname := b.hostname)))))
      && b == d.(host := b.host, hostname := b.hostname, table := b.table, labels := b.labels, config := b.config)
  {
    var h := Hosted(d, g, rank).value;
    HostedRanked(d, g, serviceVars, rank);
    RegisteredBuilt(h.table, serviceVars, h.kind, h.role, ServiceValues(g, FactsOf(h)), rank);
    assert FactsOf(h) == FactsOf(d.(host := h.host, hostname := h.hostname));
  }

  /** A name that is in the table or among the variables that apply. */
  ghost predicate Defined(d: Draft, vs: seq<Var>, n: string) {
    n in d.table || exists v :: v in vs && !Skipped(v, d.kind, d.role) && v.name == n
  }

  ghost predicate AllDefined(d: Draft, vs: seq<Var>, text: string) {
    forall r :: r in RefsOf(text) ==> Defined(d, vs, r)
  }

  /** A service whose host is resolved: the service variables can be registered, and they,
      the labels and the entries refer to names that are defined then. */
  ghost predicate Fits(h: Draft, g: Getters, vs: seq<Var>) {
    && Free(h.table, vs, h.kind, h.role)
    && (forall v :: v in vs && !Skipped(v, h.kind, h.role) ==> AllDefined(h, vs, g.serviceValue(v.name, FactsOf(h))))
    && (forall k :: k in h.labels ==> AllDefined(h, vs, h.labels[k]))
    && (forall k :: k in h.config ==> AllDefined(h, vs, h.config[k]))
  }

  /** The service with its variables, labels and entries filled in. */
  ghost function Filled(e: Draft, rank: string -> nat): Draft
    requires Ranked(e.table, rank)
  {
    var m := Expanded(e.table, rank);
    e.(table := m, labels := RenderAll(m, e.labels), config := RenderAll(m, e.config))
  }

  lemma {:induction false} NoErrorIff(refs: seq<string>, m: Table)
    requires AllResolved(m)
    ensures FirstError(refs, m).Ok? <==> forall r :: r in refs ==> r in m
  {
    if refs != [] {
      NoErrorIff(refs[1..], m);
    }
  }

  lemma ExtendedNames(h: Draft, vs: seq<Var>, value: string -> string)
    requires Extended(h, vs, value).Some?
    ensures forall n :: n in Extended(h, vs, value).value.table <==> Defined(h, vs, n)
  {
    RegisteredEntries(h.table, vs, h.kind, h.role, value);
  }

  /** A resolved host and variables that fit: all that is left is the conversion. */
  lemma RenderedIff(h: Draft, e: Draft, g: Getters, vs: seq<Var>, rank: string -> nat)
    requires AllResolved(h.table) && Ranked(e.table, rank)
    requires Extended(h, vs, ServiceValues(g, FactsOf(h))) == Some(e)
    ensures Rendered(e, g, rank) ==
      if Fits(h, g, vs) && g.converts(FactsOf(Filled(e, rank))) then Some(Filled(e, rank)) else None
  {
    var m := Expanded(e.table, rank);
    RegisteredIff(h.table, vs, h.kind, h.role, ServiceValues(g, FactsOf(h)));
    ExtendedNames(h, vs, ServiceValues(g, FactsOf(h)));
    assert forall n :: n in m <==> Defined(h, vs, n);
    RendersIff(h, vs, m, h.labels);
    RendersIff(h, vs, m, h.config);
    NoneDangles(h, vs, ServiceValues(g, FactsOf(h)));
  }

  lemma RendersIff(h: Draft, vs: seq<Var>, m: Table, config: map<string, string>)
    requires AllResolved(m) && forall n :: n in m <==> Defined(h, vs, n)
    ensures Renders(m, config) <==> forall k :: k in config ==> AllDefined(h, vs, config[k])
  {
    forall k | k in config ensures FirstError(RefsOf(config[k]), m).Ok? <==> AllDefined(h, vs, config[k]) {
      NoErrorIff(RefsOf(config[k]), m);
    }
  }

  lemma NoneDangles(h: Draft, vs: seq<Var>, value: string -> string)
    requires AllResolved(h.table) && Extended(h, vs, value).Some?
    ensures NoDangling(Extended(h, vs, value).value.table) <==>
      forall v :: v in vs && !Skipped(v, h.kind, h.role) ==> AllDefined(h, vs, value(v.name))
  {
    var m := Extended(h, vs, value).value.table;
    RegisteredEntries(h.table, vs, h.kind, h.role, value);
    ExtendedNames(h, vs, value);
    forall v | v in vs && !Skipped(v, h.kind, h.role)
      ensures Open(m, v.name) && Edges(m, v.name) == RefsOf(value(v.name))
    {
    }
  }

  /** A service is built iff its host is resolved, its variables fit and its entries
      convert. */
  lemma BuiltIff(d: Draft, g: Getters, vs: seq<Var>, rank: string -> nat)
    requires RankedDraft(d, g, vs, rank)
    ensures Built(d, g, vs, rank).Some? <==>
      && Hosted(d, g, rank).Some?
      && var h := Hosted(d, g, rank).value;
         var e := Extended(h, vs, ServiceValues(g, FactsOf(h)));
      && Fits(h, g, vs)
      && (RegisteredIff(h.table, vs, h.kind, h.role, ServiceValues(g, FactsOf(h)));
          HostedRanked(d, g, vs, rank);
          g.converts(FactsOf(Filled(e.value, rank))))
  {
    if Hosted(d, g, rank).Some? {
      var h := Hosted(d, g, rank).value;
      HostedRanked(d, g, vs, rank);
      RegisteredIff(h.table, vs, h.kind, h.role, ServiceValues(g, FactsOf(h)));
      var e := Extended(h, vs, ServiceValues(g, FactsOf(h)));
      if e.Some? {
        RenderedIff(h, e.value, g, vs, rank);
      }
    }
  }

  /** The variables of a built service are those it had and those that apply. */
  lemma BuiltNames(d: Draft, g: Getters, vs: seq<Var>, rank: string -> nat)
    requires RankedDraft(d, g, vs, rank) && Built(d, g, vs, rank).Some?
    ensures forall n :: n in Built(d, g, vs, rank).value.table <==> Defined(d, vs, n)
  {
    var h := Hosted(d, g, rank).value;
    ExtendedNames(h, vs, ServiceValues(g, FactsOf(h)));
    assert forall n :: Defined(h, vs, n) <==> Defined(d, vs, n);
  }

  /** Renders every entry of a map, in whatever order it delivers them. */
  method RenderMap(table: VariableTable, config: map<string, string>)
    returns (ok: bool, rendered: map<string, string>)
    requires table.compiled
    ensures ok ==> rendered == RenderAll(table.m, config)
    ensures ok <==> Renders(table.m, config)
  {
    rendered := config;
    var keys := config.Keys;
    ghost var done: set<string> := {};
    while keys != {}
      invariant keys + done == config.Keys && keys !! done
      invariant rendered.Keys == config.Keys
      invariant forall k :: k in keys ==> rendered[k] == config[k]
      invariant forall k :: k in done ==>
        rendered[k] == Render(Tokenize(config[k]), table.m) && FirstError(RefsOf(config[k]), table.m).Ok?
      decreases keys
    {
      var k :| k in keys;
      var value, error := table.Rendering(rendered[k]);
      if error.Err? {
        return false, rendered;
      }
      rendered := rendered[k := value];
      keys, done := keys - {k}, done + {k};
    }
    ok := true;
  }

  method ResolveHost(s: Service, g: Getters, ghost rank: string -> nat) returns (ok: bool)
    requires Ranked(s.vars.m, rank)
    modifies s`host, s`hostname, s.vars
    ensures ok <==> Hosted(old(s.View()), g, rank).Some?
    ensures ok ==> Some(s.View()) == Hosted(old(s.View()), g, rank)
  {
    ghost var m := s.vars.m;
    var r := s.vars.Build(rank);
    if r.Err? {
      return false;
    }
    assert s.vars.m == Expanded(m, rank);
    var host, error := s.vars.Rendering(s.host);
    if error.Err? {
      return false;
    }
    s.host := host;
    s.hostname := g.lookup(s.host);
    ok := s.hostname != "";
  }

  /** Build of a service: renderVariables, then convert. */
  method BuildConfig(s: Service, g: Getters, ghost rank: string -> nat) returns (ok: bool)
    requires Ranked(s.vars.m, rank)
    modifies s`labels, s`config, s.vars
    ensures ok <==> Rendered(old(s.View()), g, rank).Some?
    ensures ok ==> Some(s.View()) == Rendered(old(s.View()), g, rank)
  {
    ghost var m := s.vars.m;
    var r := s.vars.Build(rank);
    if r.Err? {
      return false;
    }
    assert s.vars.m == Expanded(m, rank);
    var labels, config;
    ok, labels := RenderMap(s.vars, s.labels);
    if !ok {
      return false;
    }
    s.labels := labels;
    ok, config := RenderMap(s.vars, s.config);
    if !ok {
      return false;
    }
    s.config := config;
    ok := g.converts(s.Facts());
  }

  /** One service of the first loop: ResolveHost, AddServiceVariables, Build. */
  method BuildService(s: Service, g: Getters, serviceVars: seq<Var>, ghost rank: string -> nat) returns (ok: bool)
    requires RankedDraft(s.View(), g, serviceVars, rank)
    modifies s, s.vars
    ensures ok <==> Built(old(s.View()), g, serviceVars, rank).Some?
    ensures ok ==> Some(s.View()) == Built(old(s.View()), g, serviceVars, rank)
  {
    ghost var d := s.View();
    ok := ResolveHost(s, g, rank);
    if !ok {
      return;
    }
    HostedRanked(d, g, serviceVars, rank);
    var value := ServiceValues(g, s.Facts());
    ok := AddVariables(s.vars, serviceVars, s.kind, s.role, value);
    if !ok {
      return;
    }
    ok := BuildConfig(s, g, rank);
  }

  // --------------------------------------------------------------- the first loop

  /** Services that share no object. */
  ghost predicate Distinct(ss: seq<Service>) {
    forall i, j :: 0 <= i < j < |ss| ==> ss[i] != ss[j] && ss[i].vars != ss[j].vars
  }

  ghost function Tables(ss: seq<Service>): set<VariableTable> {
    set s | s in ss :: s.vars
  }

  /** The body of the first loop: only service `i` changes. */
  method BuildAt(ss: seq<Service>, i: nat, g: Getters, serviceVars: seq<Var>, ghost rank: string -> nat,
                 ghost now: seq<Draft>) returns (ok: bool)
    requires Distinct(ss) && i < |ss| && Shows(ss, now) && RankedDraft(now[i], g, serviceVars, rank)
    modifies ss[i], ss[i].vars
    ensures ok <==> Built(now[i], g, serviceVars, rank).Some?
    ensures ok ==> Shows(ss, now[i := Built(now[i], g, serviceVars, rank).value])
  {
    ok := BuildService(ss[i], g, serviceVars, rank);
  }

  ghost predicate AllRanked(ds: seq<Draft>, g: Getters, serviceVars: seq<Var>, ranks: seq<string -> nat>) {
    |ranks| == |ds| && forall i :: 0 <= i < |ds| ==> RankedDraft(ds[i], g, serviceVars, ranks[i])
  }

  /** The first loop as a function: none if some service cannot be built. */
  ghost function BuiltAll(ds: seq<Draft>, g: Getters, serviceVars: seq<Var>, ranks: seq<string -> nat>):
    Option<seq<Draft>>
    requires AllRanked(ds, g, serviceVars, ranks)
  {
    if forall i :: 0 <= i < |ds| ==> Built(ds[i], g, serviceVars, ranks[i]).Some? then
      Some(seq(|ds|, i requires 0 <= i < |ds| && Built(ds[i], g, serviceVars, ranks[i]).Some? =>
        Built(ds[i], g, serviceVars, ranks[i]).value))
    else None
  }

  ghost predicate Shows(ss: seq<Service>, ds: seq<Draft>)
    reads ss, Tables(ss)
  {
    |ss| == |ds| && forall i :: 0 <= i < |ss| ==> ss[i].View() == ds[i]
  }

  method PhaseOne(ss: seq<Service>, g: Getters, serviceVars: seq<Var>, ghost ranks: seq<string -> nat>,
                  ghost was: seq<Draft>) returns (ok: bool)
    requires Distinct(ss) && Shows(ss, was) && AllRanked(was, g, serviceVars, ranks)
    modifies ss, Tables(ss)
    ensures ok <==> BuiltAll(was, g, serviceVars, ranks).Some?
    ensures ok ==> Shows(ss, BuiltAll(was, g, serviceVars, ranks).value)
  {
    ghost var now := was;
    for i := 0 to |ss|
      invariant Shows(ss, now)
      invariant forall j :: 0 <= j < i ==> Some(now[j]) == Built(was[j], g, serviceVars, ranks[j])
      invariant forall j :: i <= j < |ss| ==> now[j] == was[j]
    {
      assert ss[i] in ss && ss[i].vars in Tables(ss);
      ok := BuildAt(ss, i, g, serviceVars, ranks[i], now);
      if !ok {
        return;
      }
      now := now[i := Built(now[i], g, serviceVars, ranks[i]).value];
    }
    assert forall j :: 0 <= j < |was| ==> Built(was[j], g, serviceVars, ranks[j]).Some?;
    ok := true;
  }

  // -------------------------------------------------------------- the second loop

  function ClusterValues(g: Getters, all: seq<Facts>): string -> string {
    n => ClusterValue(g, all, n)
  }

  ghost predicate RankedCluster(g: Getters, all: seq<Facts>, rank: string -> nat) {
    forall v, r :: v in CLUSTER_VARS && r in RefsOf(ClusterValue(g, all, v.name)) ==> rank(r) < rank(v.name)
  }

  /** One service of the second loop: none if a name is taken or a reference dangles. */
  ghost function Clustered(d: Draft, g: Getters, all: seq<Facts>, rank: string -> nat): Option<Draft>
    requires AllResolved(d.table) && RankedCluster(g, all, rank)
  {
    match Extended(d, CLUSTER_VARS, ClusterValues(g, all))
    case None => None
    case Some(e) =>
      RegisteredRanked(d.table, CLUSTER_VARS, d.kind, d.role, ClusterValues(g, all), rank);
      if NoDangling(e.table) then Some(e.(table := Expanded(e.table, rank))) else None
  }

  /** The variables a service has, and each cluster variable that applies, its
      references filled in from the service's own table. */
  lemma ClusteredHolds(d: Draft, g: Getters, all: seq<Facts>, rank: string -> nat)
    requires AllResolved(d.table) && RankedCluster(g, all, rank) && Clustered(d, g, all, rank).Some?
    ensures var c := Clustered(d, g, all, rank).value;
      && c == d.(table := c.table) && AllResolved(c.table)
      && (forall n :: n in d.table ==> n in c.table && c.table[n] == d.table[n])
      && (forall v :: v in CLUSTER_VARS && !Skipped(v, d.kind, d.role) ==>
            v.name !in d.table && StandsFor(c.table, v.name, ClusterValue(g, all, v.name)))
  {
    RegisteredRanked(d.table, CLUSTER_VARS, d.kind, d.role, ClusterValues(g, all), rank);
    RegisteredBuilt(d.table, CLUSTER_VARS, d.kind, d.role, ClusterValues(g, all), rank);
  }

  /** A service gets its cluster variables iff none of their names is taken and they
      refer to names that are defined then. */
  lemma ClusteredIff(d: Draft, g: Getters, all: seq<Facts>, rank: string -> nat)
    requires AllResolved(d.table) && RankedCluster(g, all, rank)
    ensures Clustered(d, g, all, rank).Some? <==>
      && Free(d.table, CLUSTER_VARS, d.kind, d.role)
      && forall v :: v in CLUSTER_VARS && !Skipped(v, d.kind, d.role) ==>
           AllDefined(d, CLUSTER_VARS, ClusterValue(g, all, v.name))
  {
    RegisteredIff(d.table, CLUSTER_VARS, d.kind, d.role, ClusterValues(g, all));
    if Extended(d, CLUSTER_VARS, ClusterValues(g, all)).Some? {
      NoneDangles(d, CLUSTER_VARS, ClusterValues(g, all));
    }
  }

  method RegisterCluster(s: Service, g: Getters, all: seq<Facts>, ghost rank: string -> nat) returns (ok: bool)
    requires AllResolved(s.vars.m) && RankedCluster(g, all, rank)
    modifies s.vars
    ensures ok <==> Clustered(old(s.View()), g, all, rank).Some?
    ensures ok ==> Some(s.View()) == Clustered(old(s.View()), g, all, rank)
  {
    var value := ClusterValues(g, all);
    ghost var m := s.vars.m;
    ok := AddVariables(s.vars, CLUSTER_VARS, s.kind, s.role, value);
    if !ok {
      return;
    }
    RegisteredRanked(m, CLUSTER_VARS, s.kind, s.role, value, rank);
    ghost var m1 := s.vars.m;
    var r := s.vars.Build(rank);
    ok := r.Ok?;
    assert ok ==> s.vars.m == Expanded(m1, rank);
  }

  function AllFacts(ds: seq<Draft>): seq<Facts> {
    seq(|ds|, i requires 0 <= i < |ds| => FactsOf(ds[i]))
  }

  /** Registering variables changes no fact. */
  lemma FactsKept(ds: seq<Draft>, i: nat, g: Getters, all: seq<Facts>, rank: string -> nat)
    requires i < |ds| && AllResolved(ds[i].table) && RankedCluster(g, all, rank)
    requires Clustered(ds[i], g, all, rank).Some?
    ensures AllFacts(ds[i := Clustered(ds[i], g, all, rank).value]) == AllFacts(ds)
  {
    ClusteredHolds(ds[i], g, all, rank);
  }

  method CollectFacts(ss: seq<Service>, ghost ds: seq<Draft>) returns (all: seq<Facts>)
    requires Shows(ss, ds)
    ensures all == AllFacts(ds)
  {
    all := [];
    for i := 0 to |ss|
      invariant |all| == i && forall j :: 0 <= j < i ==> all[j] == FactsOf(ds[j])
    {
      all := all + [ss[i].Facts()];
    }
  }

  ghost predicate AllBuilt(ds: seq<Draft>) {
    forall i :: 0 <= i < |ds| ==> AllResolved(ds[i].table)
  }

  /** The second loop as a function: none if some service cannot take its variables. */
  ghost function ClusteredAll(ds: seq<Draft>, g: Getters, rank: string -> nat): Option<seq<Draft>>
    requires AllBuilt(ds) && RankedCluster(g, AllFacts(ds), rank)
  {
    if forall i :: 0 <= i < |ds| ==> Clustered(ds[i], g, AllFacts(ds), rank).Some? then
      Some(seq(|ds|, i requires 0 <= i < |ds| && Clustered(ds[i], g, AllFacts(ds), rank).Some? =>
        Clustered(ds[i], g, AllFacts(ds), rank).value))
    else None
  }

  /** Any two services hold the same value for a cluster variable that applies to
      both: the one computed, if it has no references. */
  ghost predicate Agree(ds: seq<Draft>, g: Getters, all: seq<Facts>) {
    forall i, v :: 0 <= i < |ds| && v in CLUSTER_VARS && !Skipped(v, ds[i].kind, ds[i].role) ==>
      HoldsPlain(ds[i].table, v.name, ClusterValue(g, all, v.name))
  }

  ghost predicate HoldsPlain(m: Table, n: string, text: string) {
    RefsOf(text) == [] ==> n in m && m[n] == Variable(text, true)
  }

  lemma AllAgree(ds: seq<Draft>, g: Getters, rank: string -> nat)
    requires AllBuilt(ds) && RankedCluster(g, AllFacts(ds), rank) && ClusteredAll(ds, g, rank).Some?
    ensures Agree(ClusteredAll(ds, g, rank).value, g, AllFacts(ds))
  {
    var all, cs := AllFacts(ds), ClusteredAll(ds, g, rank).value;
    forall i, v | 0 <= i < |cs| && v in CLUSTER_VARS && !Skipped(v, cs[i].kind, cs[i].role)
      ensures HoldsPlain(cs[i].table, v.name, ClusterValue(g, all, v.name))
    {
      ClusteredHolds(ds[i], g, all, rank);
      var text := ClusterValue(g, all, v.name);
      if RefsOf(text) == [] {
        NoRefsIsText(text, Values(cs[i].table));
      }
    }
  }

  /** The body of the second loop: only the table of service `i` changes. */
  method ClusterAt(ss: seq<Service>, i: nat, g: Getters, all: seq<Facts>, ghost rank: string -> nat,
                   ghost now: seq<Draft>) returns (ok: bool)
    requires Distinct(ss) && i < |ss| && Shows(ss, now) && AllResolved(now[i].table) && RankedCluster(g, all, rank)
    modifies ss[i].vars
    ensures ok <==> Clustered(now[i], g, all, rank).Some?
    ensures ok ==> Shows(ss, now[i := Clustered(now[i], g, all, rank).value])
  {
    ok := RegisterCluster(ss[i], g, all, rank);
  }

  /** The second loop.  It starts when every configuration is rendered and writes
      variables only, so the same facts are read for every service. */
  method PhaseTwo(ss: seq<Service>, g: Getters, ghost rank: string -> nat, ghost was: seq<Draft>) returns (ok: bool)
    requires Distinct(ss) && Shows(ss, was) && AllBuilt(was) && RankedCluster(g, AllFacts(was), rank)
    modifies Tables(ss)
    ensures ok <==> ClusteredAll(was, g, rank).Some?
    ensures ok ==> Shows(ss, ClusteredAll(was, g, rank).value)
    ensures ok ==> Agree(ClusteredAll(was, g, rank).value, g, AllFacts(was))
  {
    ghost var all, now := AllFacts(was), was;
    for i := 0 to |ss|
      invariant Shows(ss, now) && AllFacts(now) == all
      invariant forall j :: 0 <= j < i ==> Some(now[j]) == Clustered(was[j], g, all, rank)
      invariant forall j :: i <= j < |ss| ==> now[j] == was[j]
    {
      var facts := CollectFacts(ss, now);
      assert ss[i].vars in Tables(ss);
      ok := ClusterAt(ss, i, g, facts, rank, now);
      if !ok {
        return;
      }
      FactsKept(now, i, g, all, rank);
      now := now[i := Clustered(now[i], g, all, rank).value];
    }
    assert forall j :: 0 <= j < |was| ==> Clustered(was[j], g, all, rank).Some?;
    AllAgree(was, g, rank);
    ok := true;
  }
}
