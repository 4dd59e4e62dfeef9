/**
 Configuration inheritance of internal/configure/topology/topology.go: merge
 writes a parent's entries into a child map in place.  The value of the entry
 "variable" is itself a map; it is merged by name when both sides have one, and
 shared when only the parent has one.
 */
module ConfigMerge {

  /** A Go map[string]interface{}; like a Go map it is an object that can be shared. */
  class Config {
    var m: map<string, Value>

    constructor ()
      ensures m == map[]
    {
      m := map[];
    }
  }

  /** `Other` is any value that is no text, int or bool and no map that the code
      writes to: a list, a float, a map under an ordinary key. */
  datatype Value = Nil | Str(s: string) | Int(i: int) | Bool(b: bool) | Other(id: nat) | Nested(c: Config)

  type Entries = map<string, Value>

  const VARIABLE := "variable"

  /** `child[k] != nil` */
  predicate Present(m: Entries, k: string) {
    k in m && m[k] != Nil
  }

  /** The pure lookup: the child's entry if it has one, else the parent's. */
  function Over(parent: Entries, child: Entries): Entries {
    map k | k in parent.Keys + child.Keys ::
      if Present(child, k) || k !in parent then child[k] else parent[k]
  }

  /** The variable map of a configuration, if it has one. */
  function VariableMap(m: Entries): set<Config> {
    if VARIABLE in m && m[VARIABLE].Nested? then {m[VARIABLE].c} else {}
  }

  /** Whether merge reaches the nested call for the key "variable". */
  predicate MergesVariables(parent: Entries, child: Entries) {
    VARIABLE in parent && Present(child, VARIABLE) && !parent[VARIABLE].Str? && !parent[VARIABLE].Int?
  }

  /** The type assertions of the nested call fail. */
  predicate Panics(parent: Entries, child: Entries) {
    MergesVariables(parent, child) && !(parent[VARIABLE].Nested? && child[VARIABLE].Nested?)
  }

  /** The maps that a merge may write. */
  function Written(child: Config, deep: nat): set<Config>
    reads child
  {
    {child} + if deep < 2 then VariableMap(child.m) else {}
  }

  /** Parent and child are different maps, and neither is a variable map of the
      other; their variable maps may be the same object. */
  ghost predicate Layered(parent: Config, child: Config)
    reads parent, child
  {
    && parent != child
    && parent !in VariableMap(child.m) && child !in VariableMap(child.m)
    && child !in VariableMap(parent.m)
  }

  ghost function Only(m: Entries, keys: set<string>): Entries {
    map k | k in m && k in keys :: m[k]
  }

  /** One more key of the parent. */
  lemma OverStep(parent: Entries, child: Entries, done: set<string>, k: string)
    requires k in parent && k !in done
    ensures var now, next := Over(Only(parent, done), child), Over(Only(parent, done + {k}), child);
      && (Present(now, k) <==> Present(child, k))
      && (k in child ==> k in now && now[k] == child[k])
      && next == if Present(child, k) then now else now[k := parent[k]]
  {
  }

  method Merge(parent: Config, child: Config, deep: nat) returns (ok: bool)
    requires deep >= 1
    requires deep < 2 ==> Layered(parent, child)
    modifies Written(child, deep)
    ensures deep < 2 ==> (ok <==> !Panics(old(parent.m), old(child.m)))
    ensures deep >= 2 ==> ok
    ensures ok ==> child.m == Over(old(parent.m), old(child.m))
    ensures ok && deep < 2 ==>
      if MergesVariables(old(parent.m), old(child.m))
      then old(child.m)[VARIABLE].c.m == old(Over(parent.m[VARIABLE].c.m, child.m[VARIABLE].c.m))
      else forall v :: v in old(VariableMap(child.m)) ==> v.m == old(v.m)
    decreases if deep < 2 then 2 - deep else 0
  {
    ghost var pm, cm := parent.m, child.m;
    var keys := parent.m.Keys;
    ghost var done: set<string> := {};
    while keys != {}
      invariant keys + done == pm.Keys && keys !! done
      invariant parent.m == if parent == child then child.m else pm
      invariant child.m == Over(Only(pm, done), cm)
      invariant deep < 2 && VARIABLE in done ==> !Panics(pm, cm)
      invariant deep < 2 && !(VARIABLE in done && MergesVariables(pm, cm)) ==>
        forall v :: v in VariableMap(pm) + VariableMap(cm) ==> v.m == old(v.m)
      invariant deep < 2 && VARIABLE in done && MergesVariables(pm, cm) ==>
        cm[VARIABLE].c.m == old(Over(parent.m[VARIABLE].c.m, child.m[VARIABLE].c.m))
      decreases keys
    {
      var k :| k in keys;
      var v := parent.m[k];
      OverStep(pm, cm, done, k);
      if !Present(child.m, k) {
        child.m := child.m[k := v];
      } else if k == VARIABLE && deep < 2 && !v.Str? && !v.Int? {
        if !(v.Nested? && child.m[k].Nested?) {
          return false;
        }
        var sub := Merge(v.c, child.m[k].c, deep + 1);
      }
      keys, done := keys - {k}, done + {k};
    }
    assert Only(pm, done) == pm;
    ok := true;
  }
}
