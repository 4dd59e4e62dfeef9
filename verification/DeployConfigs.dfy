/**
 NewDeployConfig of internal/configure/topology/dc.go: takes the variable section
 out of an instance's configuration, registers its names, and turns every other
 entry into text.
 */
module DeployConfigs {
  import opened ConfigMerge
  import opened ConfigLayers
  import opened TopologyPhases
  import opened Decimal
  import V = Variables

  datatype Error = InvalidSection | UnsupportedVariable | EmptyVariable | UnsupportedEntry

  datatype Result = Ok(service: Service) | Err(error: Error)

  function All2Str(v: Value): Option<string> {
    match v
    case Str(s) => Some(s)
    case Int(i) => Some(Itoa(i))
    case Bool(b) => Some(if b then "true" else "false")
    case _ => None
  }

  function Text(v: Value): string {
    if All2Str(v).Some? then All2Str(v).value else ""
  }

  function Texts(m: Entries): map<string, string> {
    map k | k in m :: Text(m[k])
  }

  /** The table of a variable section: every name unresolved. */
  function TableOf(names: Entries): V.Table {
    map n | n in names :: V.Variable(Text(names[n]), false)
  }

  function NamesOf(v: Section): Entries {
    if v.Names? then v.names else map[]
  }

  predicate Textual(m: Entries) {
    forall k :: k in m ==> All2Str(m[k]).Some?
  }

  predicate NoneEmpty(m: Entries) {
    forall k :: k in m ==> Text(m[k]) != ""
  }

  /** A configuration that NewDeployConfig accepts. */
  predicate Acceptable(l: Layer) {
    && !l.variables.Scalar?
    && Textual(NamesOf(l.variables)) && NoneEmpty(NamesOf(l.variables))
    && Textual(l.top)
  }

  /** newVariables; the names come in map order. */
  method NewVariables(names: Entries) returns (r: Option<Error>, vars: V.VariableTable)
    ensures fresh(vars)
    ensures r.None? <==> Textual(names) && NoneEmpty(names)
    ensures r.None? ==> vars.m == TableOf(names)
    ensures r == Some(UnsupportedVariable) ==> !Textual(names)
    ensures r == Some(EmptyVariable) ==> !NoneEmpty(names)
    ensures r.Some? ==> r.value in {UnsupportedVariable, EmptyVariable}
  {
    vars := new V.VariableTable();
    var keys := names.Keys;
    ghost var done: set<string> := {};
    while keys != {}
      invariant keys + done == names.Keys && keys !! done
      invariant fresh(vars) && vars.m.Keys == done
      invariant forall n :: n in done ==>
        vars.m[n] == V.Variable(Text(names[n]), false) && All2Str(names[n]).Some? && Text(names[n]) != ""
      decreases keys
    {
      var k :| k in keys;
      var value := All2Str(names[k]);
      if value.None? {
        return Some(UnsupportedVariable), vars;
      } else if value.value == "" {
        return Some(EmptyVariable), vars;
      }
      var registered := vars.Register(k, V.Variable(value.value, false));
      keys, done := keys - {k}, done + {k};
    }
    r := None;
  }

  /** Rewrites every entry of a map as text, in place. */
  method ConvertEntries(config: Config) returns (ok: bool)
    modifies config
    ensures ok <==> Textual(old(config.m))
    ensures ok ==> config.m == map k | k in old(config.m) :: Str(Text(old(config.m)[k]))
  {
    ghost var was := config.m;
    var keys := config.m.Keys;
    ghost var done: set<string> := {};
    while keys != {}
      invariant keys + done == was.Keys && keys !! done
      invariant config.m.Keys == was.Keys
      invariant forall k :: k in keys ==> config.m[k] == was[k]
      invariant forall k :: k in done ==> config.m[k] == Str(Text(was[k])) && All2Str(was[k]).Some?
      decreases keys
    {
      var k :| k in keys;
      var value := All2Str(config.m[k]);
      if value.None? {
        return false;
      }
      config.m := config.m[k := Str(value.value)];
      keys, done := keys - {k}, done + {k};
    }
    ok := true;
  }

  function FormatName(name: string, hostSequence: int): string {
    if name == "" then Itoa(hostSequence) else name
  }

  function FormatId(role: string, host: string, name: string, instance: int): string {
    role + "_" + host + "_" + name + "_" + Itoa(instance)
  }

  /** The fields that are rendered later beside the configuration. */
  function Labels(role: string, host: string, name: string, instance: int): map<string, string> {
    map["name" := name, ID := FormatId(role, host, name, instance), "parentId" := FormatId(role, host, name, 0)]
  }

  /** What an instance is to be: its kind and role, its deploy and its number there. */
  datatype Place = Place(kind: string, role: string, host: string, name: string, instances: nat,
                         hostSequence: int, instance: int)

  /** The service an accepted configuration makes. */
  function DraftOf(p: Place, l: Layer): Draft {
    Draft(p.kind, p.role, p.host, "", p.hostSequence, p.instance, p.instances,
      Labels(p.role, p.host, FormatName(p.name, p.hostSequence), p.instance),
      Texts(l.top), TableOf(NamesOf(l.variables)))
  }

  method NewDeployConfig(p: Place, config: Config) returns (r: Result)
    requires config !in VariableMap(config.m)
    modifies config
    ensures r.Ok? <==> Acceptable(old(View(config)))
    ensures r.Ok? ==>
      fresh(r.service) && fresh(r.service.vars) && r.service.View() == DraftOf(p, old(View(config)))
    ensures r == Err(InvalidSection) <==> old(View(config)).variables.Scalar?
  {
    ghost var l := View(config);
    var names: Entries := map[];
    if Present(config.m, VARIABLE) {
      if !config.m[VARIABLE].Nested? {
        return Err(InvalidSection);
      }
      names := config.m[VARIABLE].c.m;
    }
    assert names == NamesOf(l.variables);
    var error, vars := NewVariables(names);
    if error.Some? {
      return Err(error.value);
    }
    config.m := config.m - {VARIABLE};
    assert config.m == l.top;
    var ok := ConvertEntries(config);
    if !ok {
      return Err(UnsupportedEntry);
    }
    var texts := map k | k in config.m && config.m[k].Str? :: config.m[k].s;
    assert texts == Texts(l.top);
    var labels := Labels(p.role, p.host, FormatName(p.name, p.hostSequence), p.instance);
    var d := Draft(p.kind, p.role, p.host, "", p.hostSequence, p.instance, p.instances, labels, texts, vars.m);
    var s := new Service(d, vars);
    r := Ok(s);
  }

  /** Merging, section by section: an absent section is an empty one. */
  lemma NamesOver(parent: Section, child: Section)
    requires !parent.Scalar? && !child.Scalar?
    ensures NamesOf(OverVariables(parent, child)) == Over(NamesOf(parent), NamesOf(child))
    ensures !OverVariables(parent, child).Scalar?
  {
    assert Over(NamesOf(parent), map[]) == NamesOf(parent);
    assert Over(map[], NamesOf(child)) == NamesOf(child);
  }

  /** The text of the innermost level that has `k`, or none if no level has it. */
  predicate Innermost(deploy: Entries, service: Entries, global: Entries, k: string, text: Option<string>) {
    if Present(deploy, k) then text == All2Str(deploy[k])
    else if Present(service, k) then text == All2Str(service[k])
    else if Present(global, k) then text == All2Str(global[k])
    else text == None
  }

  function Get<T>(m: map<string, T>, k: string): Option<T> {
    if k in m then Some(m[k]) else None
  }

  lemma TextOfInnermost(deploy: Entries, service: Entries, global: Entries, k: string)
    requires Textual(Over(Over(global, service), deploy))
    ensures Innermost(deploy, service, global, k, Get(Texts(Over(Over(global, service), deploy)), k))
  {
    var all := Over(Over(global, service), deploy);
    ThreeLevels(deploy, service, global, k);
    if k in all {
      assert All2Str(all[k]).Some?;
      assert FirstOf(deploy, service, global, k, all[k]);
    }
  }

  /** What an accepted instance starts with: each entry, and each variable, is the
      text of the deploy's value, else the service's, else the global one. */
  lemma InstanceStartsWith(global: Layer, service: Layer, deploy: Layer, k: string)
    requires Acceptable(OverLayer(OverLayer(global, service), deploy))
    requires !global.variables.Scalar? && !service.variables.Scalar? && !deploy.variables.Scalar?
    ensures var all := OverLayer(OverLayer(global, service), deploy);
      && Innermost(deploy.top, service.top, global.top, k, Get(Texts(all.top), k))
      && Innermost(NamesOf(deploy.variables), NamesOf(service.variables), NamesOf(global.variables), k,
                   Get(Texts(NamesOf(all.variables)), k))
      && (k in TableOf(NamesOf(all.variables)) ==>
            Get(Texts(NamesOf(all.variables)), k) == Some(TableOf(NamesOf(all.variables))[k].value))
  {
    TextOfInnermost(deploy.top, service.top, global.top, k);
    NamesOver(global.variables, service.variables);
    NamesOver(OverVariables(global.variables, service.variables), deploy.variables);
    TextOfInnermost(NamesOf(deploy.variables), NamesOf(service.variables), NamesOf(global.variables), k);
  }
}
