/**
 ParseTopology of internal/configure/topology/topology.go, from the parsed file on:
 the roles of its kind, the services they ask for, and the two loops over them.
 */
module ParseTopology {
  import opened ConfigMerge
  import opened TopologyPhases
  import opened TopologyRoles
  import V = Variables
  import T = Topology

  /** A parsed file.  `section` gives the services under the key of a role, such as
      mds_services for the role mds. */
  datatype Blueprint = Blueprint(kind: string, global: Config?, section: string -> Services)

  const CLIENT := "mds-client"
  const EXECUTOR := "executor"

  const FS_ROLES := ["etcd", T.METASERVER, T.COORDINATOR, "store", T.MDS, EXECUTOR]
  const ONLY_ROLES := [T.MDS, CLIENT]
  const FOLLOW_ROLES := [T.MDS, T.COORDINATOR, "store", CLIENT]
  const STORE_ROLES := [T.COORDINATOR, "store", EXECUTOR]
  const DB_ROLES := [T.COORDINATOR, "store", "document", "index", T.DISKANN, EXECUTOR, "proxy", "web"]

  /** The roles of a kind; none for a kind that is not supported. */
  function Roles(b: Blueprint): Option<seq<string>> {
    if b.kind == T.FS then
      Some(
        if b.section(T.COORDINATOR).deploy.Some? then
          FOLLOW_ROLES + (if b.section(EXECUTOR).deploy.Some? then [EXECUTOR] else [])
        else if b.section("etcd").deploy.None? then ONLY_ROLES
        else FS_ROLES)
    else if b.kind == T.STORE then Some(STORE_ROLES)
    else if b.kind == T.DB then Some(DB_ROLES)
    else None
  }

  /** No role comes twice, and mds-client comes after mds. */
  predicate Ordered(roles: seq<string>) {
    && (forall i, j :: 0 <= i < j < |roles| ==> roles[i] != roles[j])
    && forall j :: 0 <= j < |roles| && roles[j] == CLIENT ==> roles[0] == T.MDS && j > 0
  }

  lemma RolesOrdered(b: Blueprint)
    requires Roles(b).Some?
    ensures Ordered(Roles(b).value)
  {
  }

  // ------------------------------------------------------------ the loop over the roles

  /** The parts of the roles, each in a region of its own, apart from the global maps. */
  ghost predicate Laid(b: Blueprint, roles: seq<string>, parts: string -> Part, g: Given, region: set<Config>) {
    && g.maps !! region
    && (forall j :: 0 <= j < |roles| && roles[j] != CLIENT ==>
          PartOf(parts(roles[j]), b.section(roles[j])) && parts(roles[j]).region <= region)
    && forall i, j :: 0 <= i < j < |roles| && roles[i] != CLIENT && roles[j] != CLIENT ==>
         parts(roles[i]).region !! parts(roles[j]).region
  }

  /** How role `role` ends; mds-client reads the services of mds. */
  function OutcomeOf(b: Blueprint, g: Level, role: string, parts: string -> Part): Outcome {
    var from := if role == CLIENT then T.MDS else role;
    var deploys, p := Deploys(b.section(from)), parts(from); // one part for each deploy
    if |deploys| != |p.deploys| || (role == CLIENT && deploys == []) then Outcome(Some(Panicked), [])
    else if role == CLIENT then
      RoleOutcome(b.kind, role, g, [ClientDeploy(deploys[0])], p.(deploys := [p.deploys[0]]))
    else RoleOutcome(b.kind, role, g, deploys, p)
  }

  function OutcomesOf(b: Blueprint, g: Level, roles: seq<string>, parts: string -> Part): (os: seq<Outcome>)
    ensures |os| == |roles|
  {
    if roles == [] then []
    else OutcomesOf(b, g, roles[..|roles| - 1], parts) + [OutcomeOf(b, g, roles[|roles| - 1], parts)]
  }

  lemma {:induction false} OutcomesAt(b: Blueprint, g: Level, roles: seq<string>, parts: string -> Part, k: nat)
    requires k < |roles|
    ensures OutcomesOf(b, g, roles, parts)[k] == OutcomeOf(b, g, roles[k], parts)
  {
    if k < |roles| - 1 {
      OutcomesAt(b, g, roles[..|roles| - 1], parts, k);
    }
  }

  /** A role other than mds-client: the parts of the other roles stay as they are. */
  method ExpandOther(b: Blueprint, global: Config, roles: seq<string>, k: nat, ghost g: Given,
                     ghost parts: string -> Part, ghost region: set<Config>)
    returns (failure: Option<Failure>, ss: seq<Service>)
    requires Holds(g) && g.c == global && Laid(b, roles, parts, g, region)
    requires k < |roles| && roles[k] != CLIENT && Fresh(parts(roles[k]), b.section(roles[k]))
    modifies parts(roles[k]).region
    ensures failure == OutcomeOf(b, g.level, roles[k], parts).failure
    ensures failure.None? ==>
      && Made(ss, OutcomeOf(b, g.level, roles[k], parts).services)
      && Used(g, parts(roles[k]), b.section(roles[k]))
    ensures Holds(g)
  {
    failure, ss := ExpandRole(b.kind, roles[k], global, b.section(roles[k]), g, parts(roles[k]));
  }

  /** The role mds-client, after the role mds went well. */
  method ExpandLast(b: Blueprint, global: Config, ghost g: Given, ghost parts: string -> Part)
    returns (failure: Option<Failure>, ss: seq<Service>)
    requires Holds(g) && g.c == global && Used(g, parts(T.MDS), b.section(T.MDS)) && g.maps !! parts(T.MDS).region
    requires OutcomeOf(b, g.level, T.MDS, parts).failure.None?
    modifies parts(T.MDS).region, VariableMap(g.level.entries)
    ensures failure == OutcomeOf(b, g.level, CLIENT, parts).failure
    ensures failure.None? ==> Made(ss, OutcomeOf(b, g.level, CLIENT, parts).services)
    ensures Holds(g)
  {
    var s := b.section(T.MDS);
    if Deploys(s) == [] {
      return Some(Panicked), [];
    }
    var d := ClientDeploy(Deploys(s)[0]);
    ghost var p := parts(T.MDS);
    ghost var own := p.deploys[0];
    HoldsShown(g);
    LaterShown(g.level, p.config);
    LaterShown(Stack(g.level, p.config.level), own);
    ClientGoesWell(b.kind, T.MDS, g.level, Deploys(s), p);
    OneDeploy(b.kind, CLIENT, g.level, d, p.(deploys := [own]), own);
    failure, ss := ExpandClient(b.kind, CLIENT, global, s.config, d, g, p.config, own,
      p.region + VariableMap(g.level.entries));
  }

  /** The roles from `k` on are as parsed, and the maps of the role mds are as it left
      them if mds-client is still to come. */
  ghost predicate Ahead(b: Blueprint, roles: seq<string>, k: nat, parts: string -> Part, g: Given)
    reads set j, c | k <= j < |roles| && c in parts(roles[j]).region :: c
    reads parts(T.MDS).region, VariableMap(g.level.entries)
  {
    && (forall j :: k <= j < |roles| && roles[j] != CLIENT ==> Fresh(parts(roles[j]), b.section(roles[j])))
    && forall j :: 0 < k <= j < |roles| && roles[j] == CLIENT ==> Used(g, parts(T.MDS), b.section(T.MDS))
  }

  /** The body of the loop over the roles. */
  method ExpandNext(b: Blueprint, global: Config, roles: seq<string>, k: nat, ghost g: Given,
                    ghost parts: string -> Part, ghost region: set<Config>, ghost os: seq<Outcome>)
    returns (failure: Option<Failure>, ss: seq<Service>)
    requires Holds(g) && g.c == global && Laid(b, roles, parts, g, region) && Ordered(roles)
    requires k < |roles| && Ahead(b, roles, k, parts, g) && os == OutcomesOf(b, g.level, roles, parts)
    requires k > 0 ==> os[0].failure.None?
    modifies region, VariableMap(g.level.entries)
    ensures failure == os[k].failure && (failure.None? ==> Made(ss, os[k].services))
    ensures Holds(g) && (failure.None? ==> Ahead(b, roles, k + 1, parts, g))
  {
    OutcomesAt(b, g.level, roles, parts, k);
    if roles[k] == CLIENT {
      OutcomesAt(b, g.level, roles, parts, 0);
      failure, ss := ExpandLast(b, global, g, parts);
    } else {
      failure, ss := ExpandOther(b, global, roles, k, g, parts, region);
    }
  }

  method ExpandRoles(b: Blueprint, global: Config, roles: seq<string>, ghost g: Given,
                     ghost parts: string -> Part, ghost region: set<Config>, ghost os: seq<Outcome>)
    returns (failure: Option<Failure>, ss: seq<Service>)
    requires Holds(g) && g.c == global && Laid(b, roles, parts, g, region) && Ordered(roles)
    requires Ahead(b, roles, 0, parts, g) && os == OutcomesOf(b, g.level, roles, parts)
    modifies region, VariableMap(g.level.entries)
    ensures failure == FirstFailure(os) && (failure.None? ==> Made(ss, AllServices(os)))
  {
    ss := [];
    for k := 0 to |roles|
      invariant Holds(g) && Ahead(b, roles, k, parts, g)
      invariant FirstFailure(os[..k]).None?
      invariant k > 0 ==> os[0].failure.None?
      invariant Made(ss, AllServices(os[..k]))
    {
      OutcomesStep(os, k);
      var more;
      failure, more := ExpandNext(b, global, roles, k, g, parts, region, os);
      if failure.Some? {
        FailureStays(os, k + 1);
        return;
      }
      Append(ss, AllServices(os[..k]), more, os[k].services);
      ss := ss + more;
    }
    assert os[..|os|] == os;
    failure := None;
  }

  // ---------------------------------------------------------------- the whole of it

  datatype Error = UnsupportedKind | Expanding(failure: Failure) | Building | Clustering

  datatype Result<T> = Ok(services: T) | Err(error: Error)

  lemma BuiltAllBuilt(ds: seq<Draft>, g: T.Getters, serviceVars: seq<T.Var>, ranks: seq<string -> nat>)
    requires AllRanked(ds, g, serviceVars, ranks) && BuiltAll(ds, g, serviceVars, ranks).Some?
    ensures AllBuilt(BuiltAll(ds, g, serviceVars, ranks).value)
  {
    forall i | 0 <= i < |ds| ensures AllResolved(BuiltAll(ds, g, serviceVars, ranks).value[i].table) {
      BuiltHolds(ds[i], g, serviceVars, ranks[i]);
    }
  }

  /** The references among the variables of the services are acyclic, as are those in
      the cluster values. */
  ghost predicate Acyclic(ds: seq<Draft>, g: T.Getters, serviceVars: seq<T.Var>, ranks: seq<string -> nat>,
                          rank: string -> nat) {
    && AllRanked(ds, g, serviceVars, ranks)
    && (BuiltAll(ds, g, serviceVars, ranks).Some? ==>
          RankedCluster(g, AllFacts(BuiltAll(ds, g, serviceVars, ranks).value), rank))
  }

  /** Both loops over the services. */
  ghost function Finished(ds: seq<Draft>, g: T.Getters, serviceVars: seq<T.Var>, ranks: seq<string -> nat>,
                          rank: string -> nat): Result<seq<Draft>>
    requires Acyclic(ds, g, serviceVars, ranks, rank)
  {
    match BuiltAll(ds, g, serviceVars, ranks)
    case None => Err(Building)
    case Some(built) =>
      BuiltAllBuilt(ds, g, serviceVars, ranks);
      match ClusteredAll(built, g, rank)
      case None => Err(Clustering)
      case Some(all) => Ok(all)
  }

  lemma ClusteredFacts(ds: seq<Draft>, g: T.Getters, rank: string -> nat)
    requires AllBuilt(ds) && RankedCluster(g, AllFacts(ds), rank) && ClusteredAll(ds, g, rank).Some?
    ensures AllFacts(ClusteredAll(ds, g, rank).value) == AllFacts(ds)
  {
    forall i | 0 <= i < |ds| ensures FactsOf(ClusteredAll(ds, g, rank).value[i]) == FactsOf(ds[i]) {
      ClusteredHolds(ds[i], g, AllFacts(ds), rank);
    }
  }

  /** The finished services agree on every cluster value without a reference, and that
      value is computed from these very services. */
  lemma FinishedAgree(ds: seq<Draft>, g: T.Getters, serviceVars: seq<T.Var>, ranks: seq<string -> nat>,
                      rank: string -> nat)
    requires Acyclic(ds, g, serviceVars, ranks, rank) && Finished(ds, g, serviceVars, ranks, rank).Ok?
    ensures var all := Finished(ds, g, serviceVars, ranks, rank).services; Agree(all, g, AllFacts(all))
  {
    var built := BuiltAll(ds, g, serviceVars, ranks).value;
    BuiltAllBuilt(ds, g, serviceVars, ranks);
    AllAgree(built, g, rank);
    ClusteredFacts(built, g, rank);
  }

  /** What service `i` ends with, given what it was asked to be: a host that the context
      knows, its texts rendered, everything resolved, the variables it had by what they
      stand for, its service variables and its cluster variables. */
  lemma FinishedHolds(ds: seq<Draft>, g: T.Getters, serviceVars: seq<T.Var>, ranks: seq<string -> nat>,
                      rank: string -> nat, i: nat)
    requires Acyclic(ds, g, serviceVars, ranks, rank) && Finished(ds, g, serviceVars, ranks, rank).Ok? && i < |ds|
    ensures var all := Finished(ds, g, serviceVars, ranks, rank).services;
      |all| == |ds| && Finishes(ds[i], BuiltAll(ds, g, serviceVars, ranks).value[i].table, all[i], g, serviceVars,
                                ranks[i], AllFacts(all))
  {
    var built := BuiltAll(ds, g, serviceVars, ranks).value;
    BuiltAllBuilt(ds, g, serviceVars, ranks);
    BuiltHolds(ds[i], g, serviceVars, ranks[i]);
    ClusteredFacts(built, g, rank);
    ClusteredHolds(built[i], g, AllFacts(built), rank);
  }

  /** `m` is the table that the configuration was rendered with. */
  ghost predicate Finishes(d: Draft, m: V.Table, s: Draft, g: T.Getters, serviceVars: seq<T.Var>,
                           rank: string -> nat, all: seq<T.Facts>)
    requires V.Ranked(d.table, rank)
  {
    && AllResolved(s.table) && s.hostname == g.lookup(s.host) != ""
    && (forall n :: n in m ==> n in s.table && s.table[n] == m[n])
    && (forall n :: n in d.table ==> n in m && m[n].value == V.Expand(d.table, rank, n))
    && s.labels == RenderAll(m, d.labels) && s.config == RenderAll(m, d.config)
    && (forall v :: v in serviceVars && !T.Skipped(v, d.kind, d.role) ==>
          StandsFor(m, v.name, g.serviceValue(v.name, FactsOf(d.(host := s.host, hostname := s.hostname)))))
    && (forall v :: v in T.CLUSTER_VARS && !T.Skipped(v, d.kind, d.role) ==>
          StandsFor(s.table, v.name, T.ClusterValue(g, all, v.name)))
    && s == d.(host := s.host, hostname := s.hostname, table := s.table, labels := s.labels, config := s.config)
  }

  /** What a parsed file yields. */
  ghost function Yields(b: Blueprint, global: Level, parts: string -> Part, g: T.Getters, serviceVars: seq<T.Var>,
                        ranks: seq<string -> nat>, rank: string -> nat): Result<seq<Draft>>
    requires Roles(b).Some? ==>
      var os := OutcomesOf(b, global, Roles(b).value, parts);
      FirstFailure(os).None? ==> Acyclic(AllServices(os), g, serviceVars, ranks, rank)
  {
    match Roles(b)
    case None => Err(UnsupportedKind)
    case Some(roles) =>
      var os := OutcomesOf(b, global, roles, parts);
      match FirstFailure(os)
      case Some(f) => Err(Expanding(f))
      case None => Finished(AllServices(os), g, serviceVars, ranks, rank)
  }

  /** The two loops, over the services that the roles asked for. */
  method Finish(ss: seq<Service>, g: T.Getters, serviceVars: seq<T.Var>, ghost ds: seq<Draft>,
                ghost ranks: seq<string -> nat>, ghost rank: string -> nat) returns (r: Result<seq<Service>>)
    requires Distinct(ss) && Shows(ss, ds) && Acyclic(ds, g, serviceVars, ranks, rank)
    modifies ss, Tables(ss)
    ensures r.Err? ==> Err(r.error) == Finished(ds, g, serviceVars, ranks, rank)
    ensures r.Ok? ==> r.services == ss && Finished(ds, g, serviceVars, ranks, rank).Ok?
    ensures r.Ok? ==> Shows(ss, Finished(ds, g, serviceVars, ranks, rank).services)
  {
    var ok := PhaseOne(ss, g, serviceVars, ranks, ds);
    if !ok {
      return Err(Building);
    }
    BuiltAllBuilt(ds, g, serviceVars, ranks);
    ok := PhaseTwo(ss, g, rank, BuiltAll(ds, g, serviceVars, ranks).value);
    r := if ok then Ok(ss) else Err(Clustering);
  }

  /** From the parsed file to the finished services: the first thing that fails, or
      every service with its configuration and all its variables. */
  method ParseTopology(b: Blueprint, g: T.Getters, serviceVars: seq<T.Var>, ghost global: Given,
                       ghost parts: string -> Part, ghost region: set<Config>,
                       ghost ranks: seq<string -> nat>, ghost rank: string -> nat)
    returns (r: Result<seq<Service>>)
    requires Holds(global) && global.c == b.global
    requires Roles(b).Some? ==>
      && Laid(b, Roles(b).value, parts, global, region) && Ahead(b, Roles(b).value, 0, parts, global)
      && var os := OutcomesOf(b, global.level, Roles(b).value, parts);
         FirstFailure(os).None? ==> Acyclic(AllServices(os), g, serviceVars, ranks, rank)
    modifies region, VariableMap(global.level.entries)
    ensures var y := Yields(b, global.level, parts, g, serviceVars, ranks, rank);
      if r.Err? then y == Err(r.error) else y.Ok? && Distinct(r.services) && Shows(r.services, y.services)
  {
    if Roles(b).None? {
      return Err(UnsupportedKind);
    }
    var roles := Roles(b).value;
    RolesOrdered(b);
    var config := NewIfNil(b.global);
    ghost var top := Given(config, global.maps + {config}, global.level);
    ghost var os := OutcomesOf(b, global.level, roles, parts);
    var failure, ss := ExpandRoles(b, config, roles, top, parts, region, os);
    if failure.Some? {
      return Err(Expanding(failure.value));
    }
    r := Finish(ss, g, serviceVars, AllServices(os), ranks, rank);
  }
}
