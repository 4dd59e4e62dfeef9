/**
 The three-level inheritance of ParseTopology in
 internal/configure/topology/topology.go (global into service, service into each
 deploy) against the pure lookup "deploy, else service, else global".
 */
module ConfigLayers {
  import opened ConfigMerge

  /** The entry "variable": none, a scalar, or a map of names. */
  datatype Section = Absent | Scalar(v: Value) | Names(names: Entries)

  /** A configuration as a value: the other entries, and the entry "variable". */
  datatype Layer = Layer(top: Entries, variables: Section)

  ghost function View(c: Config): Layer
    reads c, VariableMap(c.m)
  {
    Layer(c.m - {VARIABLE},
      if !Present(c.m, VARIABLE) then Absent
      else if c.m[VARIABLE].Nested? then Names(c.m[VARIABLE].c.m)
      else Scalar(c.m[VARIABLE]))
  }

  function OverVariables(parent: Section, child: Section): Section {
    if child.Absent? then parent
    else if parent.Names? && child.Names? then Names(Over(parent.names, child.names))
    else child
  }

  function OverLayer(parent: Layer, child: Layer): Layer {
    Layer(Over(parent.top, child.top), OverVariables(parent.variables, child.variables))
  }

  /** The first level, from the innermost outwards, that has the entry. */
  predicate FirstOf(deploy: Entries, service: Entries, global: Entries, k: string, v: Value) {
    if Present(deploy, k) then v == deploy[k]
    else if Present(service, k) then v == service[k]
    else k in global && v == global[k]
  }

  /** Stacking three levels is the pure lookup, for entries and per variable name. */
  lemma ThreeLevels(deploy: Entries, service: Entries, global: Entries, k: string)
    ensures var all := Over(Over(global, service), deploy);
      && (Present(all, k) <==> Present(deploy, k) || Present(service, k) || Present(global, k))
      && (Present(all, k) ==> FirstOf(deploy, service, global, k, all[k]))
  {
  }

  lemma OverTwice(parent: Entries, child: Entries)
    ensures Over(parent, Over(parent, child)) == Over(parent, child)
    ensures Over(parent, parent) == parent
  {
  }

  /** Merging a level again changes nothing. */
  lemma OverLayerTwice(parent: Layer, child: Layer)
    ensures OverLayer(parent, OverLayer(parent, child)) == OverLayer(parent, child)
  {
    OverTwice(parent.top, child.top);
    if parent.variables.Names? {
      OverTwice(parent.variables.names, parent.variables.names);
      if child.variables.Names? {
        OverTwice(parent.variables.names, child.variables.names);
      }
    }
  }

  lemma TopOver(parent: Entries, child: Entries)
    ensures Over(parent, child) - {VARIABLE} == Over(parent - {VARIABLE}, child - {VARIABLE})
  {
  }

  /** The child already has everything it can inherit from the parent's entries. */
  ghost predicate Covers(parent: Entries, child: Config)
    reads child, VariableMap(parent), VariableMap(child.m)
  {
    && child.m == Over(parent, child.m)
    && (MergesVariables(parent, child.m) && !Panics(parent, child.m) ==>
          child.m[VARIABLE].c.m == Over(parent[VARIABLE].c.m, child.m[VARIABLE].c.m))
  }

  /** One merge between two levels.  The parent keeps its value even when the two
      share a variable map, and what they share is not changed. */
  method Inherit(parent: Config, child: Config) returns (ok: bool)
    requires Layered(parent, child)
    modifies Written(child, 1)
    ensures ok <==> !Panics(old(parent.m), old(child.m))
    ensures ok ==> child.m == Over(old(parent.m), old(child.m))
    ensures ok ==> View(child) == old(OverLayer(View(parent), View(child)))
    ensures View(parent) == old(View(parent)) && parent.m == old(parent.m)
    ensures ok ==>
      VariableMap(child.m) == old(VariableMap(child.m)) || VariableMap(child.m) == old(VariableMap(parent.m))
    ensures forall v :: v in old(VariableMap(parent.m)) ==> v.m == old(v.m)
    ensures ok ==> Covers(parent.m, child)
  {
    TopOver(parent.m, child.m);
    OverTwice(parent.m, child.m);
    forall v | v in VariableMap(parent.m) ensures Over(v.m, v.m) == v.m {
      OverTwice(v.m, v.m);
      forall w | w in VariableMap(child.m) ensures Over(v.m, Over(v.m, w.m)) == Over(v.m, w.m) {
        OverTwice(v.m, w.m);
      }
    }
    ok := Merge(parent, child, 1);
  }

  /** The same merge once more: the maps may be shared by now, and no map changes. */
  method InheritAgain(parent: Config, child: Config) returns (ok: bool)
    requires Layered(parent, child) && Covers(parent.m, child)
    modifies Written(child, 1)
    ensures ok <==> !Panics(old(parent.m), old(child.m))
    ensures ok ==> forall c :: c in old(Written(child, 1)) ==> c.m == old(c.m)
  {
    ok := Merge(parent, child, 1);
  }

  predicate ScalarSection(m: Entries) {
    Present(m, VARIABLE) && !m[VARIABLE].Nested?
  }

  /** Two merges that went well and left no scalar section go well again. */
  lemma NoPanicAgain(global: Entries, service: Entries, deploy: Entries)
    requires !Panics(global, service) && !Panics(Over(global, service), deploy)
    requires !ScalarSection(Over(Over(global, service), deploy))
    ensures !Panics(global, Over(global, service))
    ensures !Panics(Over(global, service), Over(Over(global, service), deploy))
  {
  }
}
