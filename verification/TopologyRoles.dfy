/**
 The loops of ParseTopology in internal/configure/topology/topology.go that turn
 the roles of a topology into services: inheritance, instance counts, deep copies
 and NewDeployConfig.
 */
module TopologyRoles {
  import opened ConfigMerge
  import opened ConfigLayers
  import opened PlainConfigs
  import opened DeployConfigs
  import opened TopologyPhases

  /** One deploy of a service as parsed; a missing configuration is null. */
  datatype Deploy = Deploy(host: string, name: string, replica: int, replicas: int, instances: int, config: Config?)

  datatype Count = Times(n: nat) | Negative

  /** The first positive of `instances`, `replicas`, `replica`; none may be negative. */
  function InstanceCount(d: Deploy): (c: Count)
    ensures c.Negative? <==> d.replica < 0 || d.replicas < 0 || d.instances < 0
    ensures c.Times? ==> c.n >= 1 && (d.instances > 0 ==> c.n == d.instances)
    ensures c.Times? && d.instances == 0 ==> (d.replicas > 0 ==> c.n == d.replicas)
    ensures c.Times? && d.instances == d.replicas == 0 ==> c.n == if d.replica > 0 then d.replica else 1
  {
    if d.replicas < 0 || d.replica < 0 || d.instances < 0 then Negative
    else if d.instances > 0 then Times(d.instances)
    else if d.replicas > 0 then Times(d.replicas)
    else if d.replica > 0 then Times(d.replica)
    else Times(1)
  }

  // ----------------------------------------------------- configurations as parsed

  /** Entries and what they stand for. */
  datatype Level = Level(entries: Entries, layer: Layer)

  function Stack(parent: Level, child: Level): Level {
    Level(Over(parent.entries, child.entries), OverLayer(parent.layer, child.layer))
  }

  /** A configuration, or none, with the maps it may consist of and what it holds. */
  datatype Given = Given(c: Config?, maps: set<Config>, level: Level)

  ghost predicate Sited(g: Given) {
    if g.c == null then g.maps == {}
    else g.c in g.maps && VariableMap(g.level.entries) <= g.maps && g.c !in VariableMap(g.level.entries)
  }

  ghost predicate Holds(g: Given)
    reads g.maps
  {
    && Sited(g)
    && if g.c == null then g.level == Level(map[], Layer(map[], Absent))
       else g.c.m == g.level.entries && View(g.c) == g.level.layer && PlainLayer(g.level.layer)
  }

  /** What the configuration `c` holds after it has inherited. */
  function Under(top: Level, own: Given, c: Config): Given {
    Given(c, own.maps + VariableMap(top.entries) + {c}, Stack(top, own.level))
  }

  /** A configuration after it has inherited; a missing one stays missing. */
  function Later(top: Level, own: Given): Given {
    if own.c == null then own else Under(top, own, own.c)
  }

  method NewIfNil(c: Config?) returns (r: Config)
    ensures if c == null then fresh(r) && r.m == map[] else r == c
  {
    if c == null {
      r := new Config();
    } else {
      r := c;
    }
  }

  /** newIfNil and the first merge: the result stands for the stack of both. */
  method MergeInto(parent: Config, c: Config?, ghost top: Given, ghost own: Given) returns (ok: bool, r: Config)
    requires Holds(top) && top.c == parent && Holds(own) && own.c == c && top.maps !! own.maps
    modifies own.maps
    ensures ok <==> !Panics(top.level.entries, own.level.entries)
    ensures Holds(top) && (c != null ==> r == c) && (c == null ==> fresh(r))
    ensures ok ==> Holds(Under(top.level, own, r)) && Holds(Later(top.level, own))
  {
    r := NewIfNil(c);
    ok := Inherit(parent, r);
    if ok {
      OverLayerPlain(top.level.layer, own.level.layer);
    }
  }

  /** What has inherited has everything the parent could give. */
  lemma LaterCovers(top: Given, own: Given)
    requires Holds(top) && top.c != null && own.c != null && Holds(Later(top.level, own))
    ensures Covers(top.level.entries, own.c)
  {
    OverTwice(top.level.entries, own.level.entries);
    OverLayerTwice(top.level.layer, own.level.layer);
  }

  /** newIfNil and the merge of a level that has inherited before: what there was
      keeps every entry, and the result stands for the same stack. */
  method MergeAgain(parent: Config, c: Config?, ghost top: Given, ghost own: Given, ghost region: set<Config>)
    returns (ok: bool, r: Config)
    requires Holds(top) && top.c == parent && Holds(Later(top.level, own)) && Sited(own) && own.c == c
    requires top.maps !! own.maps && own.maps + VariableMap(top.level.entries) <= region
    requires !Panics(top.level.entries, own.level.entries)
    requires !Panics(top.level.entries, Stack(top.level, own.level).entries)
    modifies region
    ensures ok && (c != null ==> r == c) && (c == null ==> fresh(r))
    ensures forall x :: x in region ==> x.m == old(x.m)
    ensures Holds(top) && Holds(Under(top.level, own, r))
  {
    if c == null {
      ok, r := MergeInto(parent, c, top, own);
    } else {
      r := c;
      LaterCovers(top, own);
      ok := InheritAgain(parent, r);
    }
  }

  // ------------------------------------------------------------------- one deploy

  datatype Failure = Panicked | NegativeInstances | Refused

  /** The first `j` instances of deploy `h`. */
  function Instances(kind: string, role: string, d: Deploy, h: nat, count: nat, j: nat, l: Layer): (ds: seq<Draft>)
    ensures |ds| == j
  {
    if j == 0 then []
    else
      Instances(kind, role, d, h, count, j - 1, l) +
      [DraftOf(Place(kind, role, d.host, d.name, count, h, j - 1), l)]
  }

  /** What deploy `h` asks for. */
  function DeployPlan(kind: string, role: string, d: Deploy, h: nat, l: Layer): seq<Draft> {
    match InstanceCount(d)
    case Times(n) => Instances(kind, role, d, h, n, n, l)
    case Negative => []
  }

  /** How a deploy or a role ends, and the services it asks for. */
  datatype Outcome = Outcome(failure: Option<Failure>, services: seq<Draft>)

  /** Deploy `h` of a role whose service configuration stands for `top`. */
  function DeployOutcome(kind: string, role: string, top: Level, d: Deploy, h: nat, own: Level): Outcome {
    Outcome(
      if Panics(top.entries, own.entries) then Some(Panicked)
      else if InstanceCount(d).Negative? then Some(NegativeInstances)
      else if !Acceptable(Stack(top, own).layer) then Some(Refused)
      else None,
      DeployPlan(kind, role, d, h, Stack(top, own).layer))
  }

  /** The failure of the first that fails. */
  function FirstFailure(os: seq<Outcome>): Option<Failure> {
    if os == [] then None
    else if FirstFailure(os[..|os| - 1]).Some? then FirstFailure(os[..|os| - 1])
    else os[|os| - 1].failure
  }

  function AllServices(os: seq<Outcome>): seq<Draft> {
    if os == [] then [] else AllServices(os[..|os| - 1]) + os[|os| - 1].services
  }

  /** One more outcome. */
  lemma OutcomesStep(os: seq<Outcome>, h: nat)
    requires h < |os| && FirstFailure(os[..h]).None?
    ensures FirstFailure(os[..h + 1]) == os[h].failure
    ensures AllServices(os[..h + 1]) == AllServices(os[..h]) + os[h].services
  {
    assert os[..h + 1][..h] == os[..h];
  }

  lemma {:induction false} NoFailureIff(os: seq<Outcome>)
    ensures FirstFailure(os).None? <==> forall h :: 0 <= h < |os| ==> os[h].failure.None?
  {
    if os != [] {
      NoFailureIff(os[..|os| - 1]);
    }
  }

  lemma {:induction false} FailureStays(os: seq<Outcome>, h: nat)
    requires h <= |os| && FirstFailure(os[..h]).Some?
    ensures FirstFailure(os) == FirstFailure(os[..h])
  {
    if h < |os| {
      assert os[..|os| - 1][..h] == os[..h];
      FailureStays(os[..|os| - 1], h);
    } else {
      assert os[..h] == os;
    }
  }

  /** New services that show the drafts and share no object. */
  twostate predicate Made(new ss: seq<Service>, ds: seq<Draft>)
    reads ss, Tables(ss)
  {
    && Distinct(ss) && Shows(ss, ds)
    && forall s :: s in ss ==> fresh(s) && fresh(s.vars)
  }

  /** One instance from a copy of the configuration. */
  method MakeOne(p: Place, config: Config) returns (r: Result)
    requires Plain(config)
    ensures r.Ok? <==> Acceptable(View(config))
    ensures r.Ok? ==>
      fresh(r.service) && fresh(r.service.vars) && r.service.View() == DraftOf(p, View(config))
  {
    var copy := CopyOne(config);
    r := NewDeployConfig(p, copy);
  }

  /** The instances of one deploy: each has a copy of the configuration of its own. */
  method MakeInstances(kind: string, role: string, d: Deploy, h: nat, count: nat, config: Config)
    returns (ok: bool, ss: seq<Service>)
    requires Plain(config) && count >= 1
    ensures ok <==> Acceptable(View(config))
    ensures ok ==> Made(ss, Instances(kind, role, d, h, count, count, View(config)))
  {
    ss := [];
    for j := 0 to count
      invariant Made(ss, Instances(kind, role, d, h, count, j, View(config)))
      invariant j > 0 ==> Acceptable(View(config))
    {
      var r := MakeOne(Place(kind, role, d.host, d.name, count, h, j), config);
      if r.Err? {
        return false, ss;
      }
      ss := ss + [r.service];
    }
    ok := true;
  }

  /** The instances of a deploy that has inherited. */
  method MakeDeploy(kind: string, role: string, d: Deploy, h: nat, config: Config, ghost g: Given)
    returns (failure: Option<Failure>, ss: seq<Service>)
    requires Holds(g) && g.c == config
    ensures failure ==
      if InstanceCount(d).Negative? then Some(NegativeInstances)
      else if !Acceptable(g.level.layer) then Some(Refused) else None
    ensures failure.None? ==> Made(ss, DeployPlan(kind, role, d, h, g.level.layer))
  {
    ss := [];
    var count := InstanceCount(d);
    if count.Negative? {
      return Some(NegativeInstances), [];
    }
    PlainIsPlainLayer(config);
    var ok;
    ok, ss := MakeInstances(kind, role, d, h, count.n, config);
    failure := if ok then None else Some(Refused);
  }

  /** The body of the loop over the deploys: only this deploy's maps change. */
  method ExpandDeploy(kind: string, role: string, d: Deploy, h: nat, service: Config,
                      ghost top: Given, ghost own: Given)
    returns (failure: Option<Failure>, ss: seq<Service>)
    requires Holds(top) && top.c == service && Holds(own) && own.c == d.config && top.maps !! own.maps
    modifies own.maps
    ensures failure == DeployOutcome(kind, role, top.level, d, h, own.level).failure
    ensures failure.None? ==> Made(ss, DeployOutcome(kind, role, top.level, d, h, own.level).services)
    ensures Holds(top) && (failure.None? ==> Holds(Later(top.level, own)))
  {
    var ok, config := MergeInto(service, d.config, top, own);
    if !ok {
      return Some(Panicked), [];
    }
    failure, ss := MakeDeploy(kind, role, d, h, config, Under(top.level, own, config));
  }

  // --------------------------------------------------------------------- one role

  function DeployOutcomes(kind: string, role: string, top: Level, deploys: seq<Deploy>, own: seq<Given>):
    (os: seq<Outcome>)
    requires |deploys| == |own|
    ensures |os| == |deploys|
  {
    if deploys == [] then []
    else
      var h := |deploys| - 1;
      DeployOutcomes(kind, role, top, deploys[..h], own[..h]) +
      [DeployOutcome(kind, role, top, deploys[h], h, own[h].level)]
  }

  lemma {:induction false} OutcomeAt(kind: string, role: string, top: Level, deploys: seq<Deploy>,
                                     own: seq<Given>, h: nat)
    requires h < |deploys| == |own|
    ensures DeployOutcomes(kind, role, top, deploys, own)[h] ==
      DeployOutcome(kind, role, top, deploys[h], h, own[h].level)
  {
    if h < |deploys| - 1 {
      OutcomeAt(kind, role, top, deploys[..|deploys| - 1], own[..|own| - 1], h);
    }
  }

  /** Configurations that share no map, all of them in a region. */
  ghost predicate Apart(gs: seq<Given>, region: set<Config>) {
    && (forall h :: 0 <= h < |gs| ==> Sited(gs[h]) && gs[h].maps <= region)
    && forall h, j :: 0 <= h < |gs| && 0 <= j < |gs| && h != j ==> gs[h].maps !! gs[j].maps
  }

  /** The configurations of the deploys, as parsed. */
  ghost predicate Lists(own: seq<Given>, deploys: seq<Deploy>) {
    |own| == |deploys| && forall h :: 0 <= h < |own| ==> own[h].c == deploys[h].config
  }

  method ExpandNth(kind: string, role: string, deploys: seq<Deploy>, h: nat, service: Config,
                   ghost top: Given, ghost own: seq<Given>, ghost os: seq<Outcome>)
    returns (failure: Option<Failure>, ss: seq<Service>)
    requires h < |deploys| && Lists(own, deploys) && os == DeployOutcomes(kind, role, top.level, deploys, own)
    requires Holds(top) && top.c == service && Holds(own[h]) && top.maps !! own[h].maps
    modifies own[h].maps
    ensures failure == os[h].failure && (failure.None? ==> Made(ss, os[h].services))
    ensures Holds(top) && (failure.None? ==> Holds(Later(top.level, own[h])))
  {
    OutcomeAt(kind, role, top.level, deploys, own, h);
    failure, ss := ExpandDeploy(kind, role, deploys[h], h, service, top, own[h]);
  }

  /** The body of the loop over the deploys: only the maps of deploy `h` change. */
  method ExpandAt(kind: string, role: string, deploys: seq<Deploy>, h: nat, service: Config, ghost top: Given,
                  ghost own: seq<Given>, ghost os: seq<Outcome>, ghost region: set<Config>)
    returns (failure: Option<Failure>, ss: seq<Service>)
    requires Holds(top) && top.c == service && Lists(own, deploys) && Apart(own, region) && top.maps !! region
    requires h < |deploys| && os == DeployOutcomes(kind, role, top.level, deploys, own)
    requires (forall j :: h <= j < |own| ==> Holds(own[j])) && (h > 0 ==> Holds(Later(top.level, own[0])))
    modifies own[h].maps
    ensures failure == os[h].failure && (failure.None? ==> Made(ss, os[h].services))
    ensures Holds(top) && forall j :: h < j < |own| ==> Holds(own[j])
    ensures failure.None? ==> Holds(Later(top.level, own[0]))
  {
    failure, ss := ExpandNth(kind, role, deploys, h, service, top, own, os);
  }

  lemma Append(ss: seq<Service>, ds: seq<Draft>, more: seq<Service>, ds': seq<Draft>)
    requires Distinct(ss) && Shows(ss, ds) && Distinct(more) && Shows(more, ds')
    requires forall s, t :: s in ss && t in more ==> s != t && s.vars != t.vars
    ensures Distinct(ss + more) && Shows(ss + more, ds + ds')
  {
  }

  method ExpandDeploys(kind: string, role: string, deploys: seq<Deploy>, service: Config,
                       ghost top: Given, ghost own: seq<Given>, ghost os: seq<Outcome>, ghost region: set<Config>)
    returns (failure: Option<Failure>, ss: seq<Service>)
    requires Holds(top) && top.c == service && Lists(own, deploys) && Apart(own, region) && top.maps !! region
    requires os == DeployOutcomes(kind, role, top.level, deploys, own) && (forall h :: 0 <= h < |own| ==> Holds(own[h]))
    modifies region
    ensures failure == FirstFailure(os) && (failure.None? ==> Made(ss, AllServices(os)))
    ensures Holds(top) && (failure.None? && own != [] ==> Holds(Later(top.level, own[0])))
  {
    ss := [];
    for h := 0 to |deploys|
      invariant Holds(top) && (h > 0 ==> Holds(Later(top.level, own[0])))
      invariant forall j :: h <= j < |own| ==> Holds(own[j])
      invariant FirstFailure(os[..h]).None?
      invariant Made(ss, AllServices(os[..h]))
    {
      OutcomesStep(os, h);
      var more;
      failure, more := ExpandAt(kind, role, deploys, h, service, top, own, os, region);
      if failure.Some? {
        FailureStays(os, h + 1);
        return;
      }
      Append(ss, AllServices(os[..h]), more, os[h].services);
      ss := ss + more;
    }
    assert os[..|os|] == os;
    failure := None;
  }

  // ------------------------------------------------------------------- the roles

  /** The services of one role; a list that is not in the file is none. */
  datatype Services = Services(config: Config?, deploy: Option<seq<Deploy>>)

  function Deploys(s: Services): seq<Deploy> {
    if s.deploy.Some? then s.deploy.value else []
  }

  /** What the services of a role hold as parsed, and the region of all their maps. */
  datatype Part = Part(config: Given, deploys: seq<Given>, region: set<Config>)

  ghost predicate PartOf(p: Part, s: Services) {
    && p.config.c == s.config && Sited(p.config) && p.config.maps <= p.region
    && Lists(p.deploys, Deploys(s)) && Apart(p.deploys, p.region - p.config.maps)
  }

  /** As parsed. */
  ghost predicate Fresh(p: Part, s: Services)
    reads p.region
  {
    PartOf(p, s) && Holds(p.config) && forall h :: 0 <= h < |p.deploys| ==> Holds(p.deploys[h])
  }

  /** After the role was expanded: the service configuration and the first deploy. */
  ghost predicate Used(g: Given, p: Part, s: Services)
    reads p.region, VariableMap(g.level.entries)
  {
    && PartOf(p, s) && Holds(Later(g.level, p.config))
    && (p.deploys != [] ==> Holds(Later(Stack(g.level, p.config.level), p.deploys[0])))
  }

  /** A role below the global level: its deploys one after the other. */
  function RoleOutcome(kind: string, role: string, g: Level, deploys: seq<Deploy>, p: Part): Outcome
    requires |deploys| == |p.deploys|
  {
    if Panics(g.entries, p.config.level.entries) then Outcome(Some(Panicked), [])
    else
      var os := DeployOutcomes(kind, role, Stack(g, p.config.level), deploys, p.deploys);
      Outcome(FirstFailure(os), AllServices(os))
  }

  /** A role goes well iff no merge panics, no deploy asks for a negative number of
      instances, and every stack of three levels is an acceptable configuration. */
  lemma RoleSucceedsIff(kind: string, role: string, g: Level, deploys: seq<Deploy>, p: Part)
    requires |deploys| == |p.deploys|
    ensures RoleOutcome(kind, role, g, deploys, p).failure.None? <==>
      && !Panics(g.entries, p.config.level.entries)
      && forall h :: 0 <= h < |deploys| ==>
           && !Panics(Stack(g, p.config.level).entries, p.deploys[h].level.entries)
           && InstanceCount(deploys[h]).Times?
           && Acceptable(Stack(Stack(g, p.config.level), p.deploys[h].level).layer)
  {
    var mid := Stack(g, p.config.level);
    var os := DeployOutcomes(kind, role, mid, deploys, p.deploys);
    NoFailureIff(os);
    forall h | 0 <= h < |deploys|
      ensures os[h].failure == DeployOutcome(kind, role, mid, deploys[h], h, p.deploys[h].level).failure
    {
      OutcomeAt(kind, role, mid, deploys, p.deploys, h);
    }
  }

  /** `s` is instance `j` of deploy `h`: it starts with the deploy's, else the service's,
      else the global configuration. */
  predicate InstanceOf(s: Draft, kind: string, role: string, g: Level, deploys: seq<Deploy>, p: Part, h: nat, j: nat)
    requires |deploys| == |p.deploys|
  {
    && h < |deploys| && InstanceCount(deploys[h]).Times? && j < InstanceCount(deploys[h]).n
    && s == DraftOf(
         Place(kind, role, deploys[h].host, deploys[h].name, InstanceCount(deploys[h]).n, h, j),
         OverLayer(OverLayer(g.layer, p.config.level.layer), p.deploys[h].level.layer))
  }

  lemma {:induction false} InstancesAt(kind: string, role: string, d: Deploy, h: nat, count: nat, n: nat,
                                       l: Layer, j: nat)
    requires j < n
    ensures Instances(kind, role, d, h, count, n, l)[j] == DraftOf(Place(kind, role, d.host, d.name, count, h, j), l)
  {
    if j < n - 1 {
      InstancesAt(kind, role, d, h, count, n - 1, l, j);
    }
  }

  lemma {:induction false} ServicesOf(os: seq<Outcome>, s: Draft)
    ensures s in AllServices(os) <==> exists h :: 0 <= h < |os| && s in os[h].services
  {
    if os != [] {
      ServicesOf(os[..|os| - 1], s);
    }
  }

  /** The services of a role are the instances of its deploys, all of them and no other. */
  lemma RoleServices(kind: string, role: string, g: Level, deploys: seq<Deploy>, p: Part, s: Draft)
    requires |deploys| == |p.deploys| && RoleOutcome(kind, role, g, deploys, p).failure.None?
    ensures s in RoleOutcome(kind, role, g, deploys, p).services <==>
      exists h: nat, j: nat :: InstanceOf(s, kind, role, g, deploys, p, h, j)
  {
    var mid := Stack(g, p.config.level);
    var os := DeployOutcomes(kind, role, mid, deploys, p.deploys);
    ServicesOf(os, s);
    forall h: nat | h < |os|
      ensures s in os[h].services <==> exists j: nat :: InstanceOf(s, kind, role, g, deploys, p, h, j)
    {
      DeployServices(kind, role, g, deploys, p, s, h);
    }
    if h: nat, j: nat :| InstanceOf(s, kind, role, g, deploys, p, h, j) {
      assert s in os[h].services;
    }
    if s in AllServices(os) {
      var h: nat :| h < |os| && s in os[h].services;
      var j: nat :| InstanceOf(s, kind, role, g, deploys, p, h, j);
    }
  }

  lemma DeployServices(kind: string, role: string, g: Level, deploys: seq<Deploy>, p: Part, s: Draft, h: nat)
    requires h < |deploys| == |p.deploys|
    ensures s in DeployOutcomes(kind, role, Stack(g, p.config.level), deploys, p.deploys)[h].services <==>
      exists j: nat :: InstanceOf(s, kind, role, g, deploys, p, h, j)
  {
    var d, l := deploys[h], Stack(Stack(g, p.config.level), p.deploys[h].level).layer;
    OutcomeAt(kind, role, Stack(g, p.config.level), deploys, p.deploys, h);
    if InstanceCount(d).Times? {
      var n := InstanceCount(d).n;
      var ds := Instances(kind, role, d, h, n, n, l);
      forall j: nat | j < n ensures s == ds[j] <==> InstanceOf(s, kind, role, g, deploys, p, h, j) {
        InstancesAt(kind, role, d, h, n, n, l, j);
      }
    }
  }

  /** One role: its service configuration inherits the global one, each deploy the
      result, and the instances come out in order. */
  method ExpandRole(kind: string, role: string, global: Config, s: Services, ghost g: Given, ghost p: Part)
    returns (failure: Option<Failure>, ss: seq<Service>)
    requires Holds(g) && g.c == global && Fresh(p, s) && g.maps !! p.region
    modifies p.region
    ensures failure == RoleOutcome(kind, role, g.level, Deploys(s), p).failure
    ensures failure.None? ==> Made(ss, RoleOutcome(kind, role, g.level, Deploys(s), p).services) && Used(g, p, s)
    ensures Holds(g)
  {
    var ok, service := MergeInto(global, s.config, g, p.config);
    if !ok {
      return Some(Panicked), [];
    }
    ghost var top := Under(g.level, p.config, service);
    failure, ss := ExpandDeploys(kind, role, Deploys(s), service, top, p.deploys,
      DeployOutcomes(kind, role, top.level, Deploys(s), p.deploys), p.region - p.config.maps);
  }

  // -------------------------------------------------------------- the role mds-client

  /** Its deploy: the first one of the role mds, without replicas. */
  function ClientDeploy(d: Deploy): Deploy {
    d.(replicas := 0)
  }

  /** The layer has the section that the entry makes. */
  predicate SectionShown(l: Level) {
    && (l.layer.variables.Absent? <==> !Present(l.entries, VARIABLE))
    && (l.layer.variables.Scalar? <==> ScalarSection(l.entries))
  }

  lemma HoldsShown(g: Given)
    requires Holds(g)
    ensures SectionShown(g.level)
  {
  }

  lemma LaterShown(top: Level, own: Given)
    requires SectionShown(top) && Holds(Later(top, own))
    ensures SectionShown(Stack(top, own.level))
  {
    if own.c != null {
      HoldsShown(Later(top, own));
    }
  }

  /** What the second expansion of a deploy relies on. */
  predicate GoesAgain(g: Level, mid: Level, own: Level, d: Deploy) {
    && !Panics(g.entries, mid.entries) && !Panics(Stack(g, mid).entries, own.entries)
    && !ScalarSection(Stack(Stack(g, mid), own).entries)
    && InstanceCount(d).Times? && Acceptable(Stack(Stack(g, mid), own).layer)
  }

  /** It follows from the success of the role mds. */
  lemma ClientGoesWell(kind: string, mds: string, g: Level, deploys: seq<Deploy>, p: Part)
    requires |deploys| == |p.deploys| > 0 && RoleOutcome(kind, mds, g, deploys, p).failure.None?
    requires SectionShown(Stack(Stack(g, p.config.level), p.deploys[0].level))
    ensures GoesAgain(g, p.config.level, p.deploys[0].level, ClientDeploy(deploys[0]))
  {
    NoFailureIff(DeployOutcomes(kind, mds, Stack(g, p.config.level), deploys, p.deploys));
    OutcomeAt(kind, mds, Stack(g, p.config.level), deploys, p.deploys, 0);
  }

  lemma SingleOutcome(o: Outcome)
    ensures FirstFailure([o]) == o.failure && AllServices([o]) == o.services
  {
    var os := [o];
    assert os[..|os| - 1] == [] && [] + o.services == o.services;
  }

  /** The outcome of a role with a single deploy. */
  lemma OneDeploy(kind: string, role: string, g: Level, d: Deploy, p: Part, own: Given)
    requires p.deploys == [own] && !Panics(g.entries, p.config.level.entries)
    requires DeployOutcome(kind, role, Stack(g, p.config.level), d, 0, own.level).failure.None?
    ensures RoleOutcome(kind, role, g, [d], p) ==
      Outcome(None, DeployPlan(kind, role, d, 0, Stack(Stack(g, p.config.level), own.level).layer))
  {
    var mid, ds := Stack(g, p.config.level), [d];
    var o := DeployOutcome(kind, role, mid, d, 0, own.level);
    assert ds[..|ds| - 1] == [] && p.deploys[..|ds| - 1] == [];
    assert DeployOutcomes(kind, role, mid, ds, p.deploys) == [o];
    SingleOutcome(o);
  }

  /** mds-client is meant to be one service.  It is one iff the first MDS deploy asks for
      one instance when its replicas are left out. */
  lemma SingleClientIff(kind: string, role: string, mds: string, g: Level, deploys: seq<Deploy>, p: Part)
    requires |deploys| == |p.deploys| > 0 && RoleOutcome(kind, mds, g, deploys, p).failure.None?
    ensures var d := deploys[0];
      |RoleOutcome(kind, role, g, [ClientDeploy(d)], p.(deploys := [p.deploys[0]])).services| == 1 <==>
        d.instances == 1 || (d.instances == 0 && d.replica <= 1)
  {
    var mid := Stack(g, p.config.level);
    NoFailureIff(DeployOutcomes(kind, mds, mid, deploys, p.deploys));
    OutcomeAt(kind, mds, mid, deploys, p.deploys, 0);
    OneDeploy(kind, role, g, ClientDeploy(deploys[0]), p.(deploys := [p.deploys[0]]), p.deploys[0]);
  }

  /** A deploy without a configuration, as a level. */
  const NOTHING := Given(null, {}, Level(map[], Layer(map[], Absent)))

  /** With three instances there are three services of the role mds-client. */
  lemma ThreeClients(kind: string)
    ensures var d := Deploy("a", "", 0, 0, 3, null);
      |RoleOutcome(kind, "mds-client", NOTHING.level, [ClientDeploy(d)], Part(NOTHING, [NOTHING], {})).services| == 3
  {
    OneDeploy(kind, "mds-client", NOTHING.level, Deploy("a", "", 0, 0, 3, null), Part(NOTHING, [NOTHING], {}), NOTHING);
  }

  /** Both merges for a deploy of levels that have inherited before; a missing level
      is made anew. */
  method MergeBothAgain(global: Config, config: Config?, deploy: Config?, ghost g: Given, ghost mid: Given,
                        ghost own: Given, ghost region: set<Config>) returns (ok: bool, r: Config)
    requires Holds(g) && g.c == global && g.maps !! mid.maps && g.maps !! own.maps && mid.maps !! own.maps
    requires Sited(mid) && mid.c == config && Holds(Later(g.level, mid))
    requires Sited(own) && own.c == deploy && Holds(Later(Stack(g.level, mid.level), own))
    requires !Panics(g.level.entries, mid.level.entries)
    requires !Panics(Stack(g.level, mid.level).entries, own.level.entries)
    requires !ScalarSection(Stack(Stack(g.level, mid.level), own.level).entries)
    requires mid.maps + own.maps + VariableMap(g.level.entries) <= region
    modifies region
    ensures ok && Holds(g) && Holds(Under(Stack(g.level, mid.level), own, r))
    ensures forall x :: x in region ==> x.m == old(x.m)
  {
    NoPanicAgain(g.level.entries, mid.level.entries, own.level.entries);
    var service;
    ok, service := MergeAgain(global, config, g, mid, region);
    ok, r := MergeAgain(service, deploy, Under(g.level, mid, service), own, region);
  }

  /** Merges levels that were merged before: the services are those of a deploy that
      is expanded for the first time, and no map there was before changes. */
  method ExpandClient(kind: string, role: string, global: Config, config: Config?, d: Deploy,
                      ghost g: Given, ghost mid: Given, ghost own: Given, ghost region: set<Config>)
    returns (failure: Option<Failure>, ss: seq<Service>)
    requires Holds(g) && g.c == global && g.maps !! mid.maps && g.maps !! own.maps && mid.maps !! own.maps
    requires Sited(mid) && mid.c == config && Holds(Later(g.level, mid))
    requires Sited(own) && own.c == d.config && Holds(Later(Stack(g.level, mid.level), own))
    requires GoesAgain(g.level, mid.level, own.level, d)
    requires mid.maps + own.maps + VariableMap(g.level.entries) <= region
    modifies region
    ensures failure.None? && Made(ss, DeployPlan(kind, role, d, 0, Stack(Stack(g.level, mid.level), own.level).layer))
    ensures Holds(g) && forall x :: x in region ==> x.m == old(x.m)
  {
    var ok, c := MergeBothAgain(global, config, d.config, g, mid, own, region);
    failure, ss := MakeDeploy(kind, role, d, 0, c, Under(Stack(g.level, mid.level), own, c));
  }
}
