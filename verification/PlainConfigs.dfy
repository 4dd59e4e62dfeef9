/**
 Plain configurations: those in which the code writes to no nested map but the
 variable section.  Every configuration is plain, since maps under other keys are
 values here; and a deep copy of a plain one stands for the same.
 */
module PlainConfigs {
  import opened ConfigMerge
  import opened ConfigLayers
  import opened ConfigCopy

  /** Only "variable" holds a map, and that map holds scalars. */
  ghost predicate Plain(c: Config)
    reads c, VariableMap(c.m)
  {
    && c !in VariableMap(c.m)
    && (forall k :: k in c.m && c.m[k].Nested? ==> k == VARIABLE)
    && forall v, k :: v in VariableMap(c.m) && k in v.m ==> !v.m[k].Nested?
  }

  ghost function Footprint(c: Config): set<Config>
    reads c
  {
    {c} + VariableMap(c.m)
  }

  lemma PlainFits(c: Config)
    requires Plain(c)
    ensures FitsValue(Nested(c), Footprint(c), 2)
  {
  }

  /** A copy of a plain configuration is plain and stands for the same layer. */
  lemma CopyKeepsView(src: Config, dest: Config, made: set<Config>)
    requires Plain(src) && FitsValue(Nested(src), Footprint(src), 2)
    requires FitsValue(Nested(dest), made, 2)
    requires ContentOf(Nested(dest), made, 2) == ContentOf(Nested(src), Footprint(src), 2)
    ensures View(dest) == View(src)
    ensures Footprint(dest) <= made
  {
    var want := ContentOf(Nested(src), Footprint(src), 2).entries;
    assert dest.m.Keys == want.Keys == src.m.Keys;
    forall k | k in src.m
      ensures dest.m[k].Nested? <==> src.m[k].Nested?
      ensures !src.m[k].Nested? ==> dest.m[k] == src.m[k]
    {
      assert ContentOf(dest.m[k], made, 1) == ContentOf(src.m[k], Footprint(src), 1);
    }
    if VARIABLE in src.m && src.m[VARIABLE].Nested? {
      var d, s := dest.m[VARIABLE].c, src.m[VARIABLE].c;
      assert ContentOf(Nested(d), made, 1) == ContentOf(Nested(s), Footprint(src), 1);
      assert ContentOf(Nested(d), made, 1).entries.Keys == d.m.Keys;
      assert ContentOf(Nested(s), Footprint(src), 1).entries.Keys == s.m.Keys;
      forall k | k in s.m ensures d.m[k] == s.m[k] {
        assert ContentOf(d.m[k], made, 0) == ContentOf(s.m[k], Footprint(src), 0);
      }
      assert d.m == s.m;
    }
  }

  predicate Scalars(m: Entries) {
    forall k :: k in m ==> !m[k].Nested?
  }

  predicate PlainLayer(l: Layer) {
    && Scalars(l.top)
    && (l.variables.Names? ==> Scalars(l.variables.names))
    && (l.variables.Scalar? ==> !l.variables.v.Nested?)
  }

  lemma PlainIsPlainLayer(c: Config)
    requires c !in VariableMap(c.m)
    ensures Plain(c) <==> PlainLayer(View(c))
  {
    assert forall k :: k in c.m && k != VARIABLE ==> k in View(c).top && View(c).top[k] == c.m[k];
  }

  lemma OverLayerPlain(parent: Layer, child: Layer)
    requires PlainLayer(parent) && PlainLayer(child)
    ensures PlainLayer(OverLayer(parent, child))
  {
  }

  method CopyOne(config: Config) returns (copy: Config)
    requires Plain(config)
    ensures View(copy) == View(config)
    ensures fresh(Footprint(copy))
  {
    PlainFits(config);
    ghost var made;
    copy, made := DeepCopy(config, Footprint(config), 2);
    CopyKeepsView(config, copy, made);
  }
}
