/**
 DeepCopy of internal/utils/common.go: a recursive copy of nested maps, used to
 give every service instance a configuration of its own.
 */
module ConfigCopy {
  import opened ConfigMerge

  /** A configuration as a value, nested maps included. */
  datatype Content = Leaf(v: Value) | Tree(entries: map<string, Content>)

  /** The maps reachable from `v` are among `heap` and nest at most `n` deep. */
  ghost predicate FitsValue(v: Value, heap: set<Config>, n: nat)
    reads heap
    decreases n
  {
    v.Nested? ==> n > 0 && v.c in heap && forall k :: k in v.c.m ==> FitsValue(v.c.m[k], heap, n - 1)
  }

  ghost function ContentOf(v: Value, heap: set<Config>, n: nat): Content
    requires FitsValue(v, heap, n)
    reads heap
    decreases n
  {
    if v.Nested? then Tree(map k | k in v.c.m :: ContentOf(v.c.m[k], heap, n - 1)) else Leaf(v)
  }

  /** A larger heap makes no difference. */
  lemma {:induction false} Widen(v: Value, heap: set<Config>, heap': set<Config>, n: nat)
    requires FitsValue(v, heap, n) && heap <= heap'
    ensures FitsValue(v, heap', n) && ContentOf(v, heap', n) == ContentOf(v, heap, n)
    decreases n
  {
    if v.Nested? {
      forall k | k in v.c.m
        ensures FitsValue(v.c.m[k], heap', n - 1)
        ensures ContentOf(v.c.m[k], heap', n - 1) == ContentOf(v.c.m[k], heap, n - 1)
      {
        Widen(v.c.m[k], heap, heap', n - 1);
      }
    }
  }

  ghost function ContentsOf(m: Entries, heap: set<Config>, n: nat): map<string, Content>
    requires forall k :: k in m ==> FitsValue(m[k], heap, n)
    reads heap
  {
    map k | k in m :: ContentOf(m[k], heap, n)
  }

  /** The entries copied so far, by what they stand for. */
  ghost predicate Copied(dest: Entries, made: set<Config>, want: map<string, Content>, keys: set<string>, n: nat)
    reads made
  {
    && dest.Keys == keys
    && forall k :: k in keys ==> k in want && FitsValue(dest[k], made, n) && ContentOf(dest[k], made, n) == want[k]
  }

  /** One more entry, with the maps below it. */
  lemma CopiedAdd(dest: Entries, made: set<Config>, want: map<string, Content>, keys: set<string>, n: nat,
                  key: string, value: Value, below: set<Config>)
    requires Copied(dest, made, want, keys, n)
    requires key in want && FitsValue(value, below, n) && ContentOf(value, below, n) == want[key]
    ensures Copied(dest[key := value], made + below, want, keys + {key}, n)
  {
    forall k | k in keys
      ensures FitsValue(dest[k], made + below, n) && ContentOf(dest[k], made + below, n) == want[k]
    {
      Widen(dest[k], made, made + below, n);
    }
    Widen(value, below, made + below, n);
  }

  /** A map whose entries are all copied stands for the source. */
  lemma CopiedAll(dest: Config, subs: set<Config>, want: map<string, Content>, n: nat)
    requires Copied(dest.m, subs, want, want.Keys, n)
    ensures FitsValue(Nested(dest), subs + {dest}, n + 1)
    ensures ContentOf(Nested(dest), subs + {dest}, n + 1) == Tree(want)
  {
    forall k | k in want
      ensures FitsValue(dest.m[k], subs + {dest}, n) && ContentOf(dest.m[k], subs + {dest}, n) == want[k]
    {
      Widen(dest.m[k], subs, subs + {dest}, n);
    }
  }

  /** The loop body: copies the entry `key`; a nested map is copied recursively
      into a new map. */
  method CopyEntry(value: Value, dest: Config, key: string, ghost heap: set<Config>, ghost n: nat,
                   ghost want: map<string, Content>, ghost done: set<string>, ghost subs: set<Config>)
    returns (ghost subs': set<Config>)
    requires FitsValue(value, heap, n) && key in want && ContentOf(value, heap, n) == want[key]
    requires dest !in subs && Copied(dest.m, subs, want, done, n)
    modifies dest
    ensures subs <= subs' && fresh(subs' - subs) && dest !in subs'
    ensures Copied(dest.m, subs', want, done + {key}, n)
    decreases n, 2
  {
    ghost var below: set<Config> := {};
    var copy := value;
    if value.Nested? {
      var sub;
      sub, below := DeepCopy(value.c, heap, n);
      copy := Nested(sub);
    }
    CopiedAdd(dest.m, subs, want, done, n, key, copy, below);
    subs' := subs + below;
    dest.m := dest.m[key := copy];
  }

  /** Fills an empty map; the maps made on the way are all new. */
  method CopyInto(src: Config, dest: Config, ghost heap: set<Config>, ghost n: nat) returns (ghost made: set<Config>)
    requires FitsValue(Nested(src), heap, n) && dest !in heap && dest.m == map[]
    modifies dest
    ensures fresh(made - {dest}) && dest in made
    ensures FitsValue(Nested(dest), made, n)
    ensures ContentOf(Nested(dest), made, n) == old(ContentOf(Nested(src), heap, n))
    decreases n, 0
  {
    ghost var want := ContentsOf(src.m, heap, n - 1);
    ghost var subs: set<Config> := {};
    var keys := src.m.Keys;
    ghost var done: set<string> := {};
    while keys != {}
      invariant keys + done == want.Keys && keys !! done
      invariant src.m == old(src.m) && forall k :: k in src.m ==> FitsValue(src.m[k], heap, n - 1)
      invariant ContentsOf(src.m, heap, n - 1) == want
      invariant fresh(subs) && dest !in subs
      invariant Copied(dest.m, subs, want, done, n - 1)
      decreases keys
    {
      var key :| key in keys;
      subs := CopyEntry(src.m[key], dest, key, heap, n - 1, want, done, subs);
      keys, done := keys - {key}, done + {key};
    }
    made := subs + {dest};
    CopiedAll(dest, subs, want, n - 1);
  }

  /** The copy has the content of the source and shares no map with anything that
      existed before: writing to it, or to what it holds, touches nothing else. */
  method DeepCopy(src: Config, ghost heap: set<Config>, ghost n: nat) returns (dest: Config, ghost made: set<Config>)
    requires FitsValue(Nested(src), heap, n)
    ensures fresh(made) && dest in made
    ensures FitsValue(Nested(dest), made, n)
    ensures ContentOf(Nested(dest), made, n) == old(ContentOf(Nested(src), heap, n))
    decreases n, 1
  {
    dest := new Config();
    made := CopyInto(src, dest, heap, n);
  }
}
