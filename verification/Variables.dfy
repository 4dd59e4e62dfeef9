/**
 The variable resolver of pkg/variable/variables.go.

 A table maps names to variables; a value may refer to other variables by
 `${name}`.  Build resolves every variable in place, memoising each result.
 */
module Variables {
  import opened VariableText

  datatype Variable = Variable(value: string, resolved: bool)

  type Table = map<string, Variable>

  datatype Error =
    Duplicate(name: string) | NotFound(name: string) | Unresolved(name: string) | NotDefined(name: string)

  datatype Result = Ok(value: string) | Err(error: Error)

  function Values(m: Table): map<string, string> {
    map n | n in m :: m[n].value
  }

  predicate Open(m: Table, n: string) {
    n in m && !m[n].resolved
  }

  /** The references a call of resolve follows: those of an unresolved variable. */
  function Edges(m: Table, n: string): seq<string> {
    if Open(m, n) then RefsOf(m[n].value) else []
  }

  // ---------------------------------------------------- acyclic references

  /** `rank` orders the variables so that references go strictly down. */
  ghost predicate Ranked(m: Table, rank: string -> nat) {
    forall n, r :: Open(m, n) && r in Edges(m, n) ==> rank(r) < rank(n)
  }

  /** What a name stands for: references expanded in one pass, bottom up. */
  ghost function Expand(m: Table, rank: string -> nat, n: string): string
    requires Ranked(m, rank)
    decreases rank(n)
  {
    if n !in m then ""
    else if m[n].resolved then m[n].value
    else Substitute(Tokenize(m[n].value), map r | r in Edges(m, n) :: Expand(m, rank, r))
  }

  /** Every name that resolving `n` looks up is defined. */
  ghost predicate Closed(m: Table, rank: string -> nat, n: string)
    requires Ranked(m, rank)
    decreases rank(n)
  {
    n in m && forall r :: r in Edges(m, n) ==> Closed(m, rank, r)
  }

  /** `m'` is `m` after some variables have been replaced by what they stand for. */
  ghost predicate Memo(m: Table, rank: string -> nat, m': Table)
    requires Ranked(m, rank)
  {
    && m'.Keys == m.Keys
    && forall n :: n in m ==>
      || m'[n] == m[n]
      || (Open(m, n) && Closed(m, rank, n) && m'[n] == Variable(Expand(m, rank, n), true))
  }

  /** Memoised results change neither what a name stands for nor what is defined. */
  lemma {:induction false} MemoTransparent(m: Table, rank: string -> nat, m': Table, n: string)
    requires Ranked(m, rank) && Memo(m, rank, m')
    ensures Ranked(m', rank)
    ensures Expand(m', rank, n) == Expand(m, rank, n)
    ensures Closed(m', rank, n) <==> Closed(m, rank, n)
    decreases rank(n)
  {
    assert forall x :: Open(m', x) ==> Open(m, x) && Edges(m', x) == Edges(m, x);
    if Open(m', n) {
      forall r | r in Edges(m, n)
        ensures Expand(m', rank, r) == Expand(m, rank, r)
        ensures Closed(m', rank, r) <==> Closed(m, rank, r)
      {
        MemoTransparent(m, rank, m', r);
      }
      var ts := Tokenize(m[n].value);
      SubstituteAgrees(ts,
        map r | r in Edges(m', n) :: Expand(m', rank, r),
        map r | r in Edges(m, n) :: Expand(m, rank, r));
    }
  }

  lemma MemoTransitive(m: Table, rank: string -> nat, m1: Table, m2: Table)
    requires Ranked(m, rank) && Memo(m, rank, m1)
    requires Ranked(m1, rank) && Memo(m1, rank, m2)
    ensures Memo(m, rank, m2)
  {
    forall n | n in m && m2[n] != m[n]
      ensures Open(m, n) && Closed(m, rank, n) && m2[n] == Variable(Expand(m, rank, n), true)
    {
      MemoTransparent(m, rank, m1, n);
    }
  }

  /** Two rankings give the same meaning. */
  lemma {:induction false} ExpandIgnoresRank(m: Table, rank1: string -> nat, rank2: string -> nat, n: string)
    requires Ranked(m, rank1) && Ranked(m, rank2)
    ensures Expand(m, rank1, n) == Expand(m, rank2, n)
    decreases rank1(n)
  {
    if Open(m, n) {
      forall r | r in Edges(m, n) ensures Expand(m, rank1, r) == Expand(m, rank2, r) {
        ExpandIgnoresRank(m, rank1, rank2, r);
      }
      SubstituteAgrees(Tokenize(m[n].value),
        map r | r in Edges(m, n) :: Expand(m, rank1, r),
        map r | r in Edges(m, n) :: Expand(m, rank2, r));
    }
  }

  /** Everything is defined iff no unresolved variable has a dangling reference. */
  ghost predicate NoDangling(m: Table) {
    forall n, r :: Open(m, n) && r in Edges(m, n) ==> r in m
  }

  lemma {:induction false} NoDanglingClosed(m: Table, rank: string -> nat, n: string)
    requires Ranked(m, rank) && NoDangling(m) && n in m
    ensures Closed(m, rank, n)
    decreases rank(n)
  {
    forall r | r in Edges(m, n) ensures Closed(m, rank, r) {
      NoDanglingClosed(m, rank, r);
    }
  }

  lemma AllClosedIffNoDangling(m: Table, rank: string -> nat)
    requires Ranked(m, rank)
    ensures (forall n :: n in m ==> Closed(m, rank, n)) <==> NoDangling(m)
  {
    if NoDangling(m) {
      forall n | n in m ensures Closed(m, rank, n) {
        NoDanglingClosed(m, rank, n);
      }
    } else {
      var n, r :| Open(m, n) && r in Edges(m, n) && r !in m;
      assert !Closed(m, rank, r);
      assert !Closed(m, rank, n);
    }
  }

  /** The table after a successful Build. */
  ghost function Expanded(m: Table, rank: string -> nat): Table
    requires Ranked(m, rank)
  {
    map n | n in m :: Variable(Expand(m, rank, n), true)
  }

  /** In a built table a name stands for its text with the references replaced by
      what they hold there. */
  lemma ExpandedIsSubstitution(m: Table, rank: string -> nat, n: string)
    requires Ranked(m, rank) && NoDangling(m) && Open(m, n)
    ensures Expand(m, rank, n) == Substitute(Tokenize(m[n].value), Values(Expanded(m, rank)))
  {
    var e := Expanded(m, rank);
    forall r | r in Edges(m, n) ensures r in e && e[r].value == Expand(m, rank, r) {
      assert r in m;
    }
    SubstituteAgrees(Tokenize(m[n].value), Values(e), map r | r in Edges(m, n) :: Expand(m, rank, r));
  }

  /** What a lookup finds once Build has succeeded, and that no resolution in between
      changes an answer already given. */
  lemma LookupAfterBuild(m: Table, rank: string -> nat, m': Table, n: string)
    requires Ranked(m, rank) && Memo(m, rank, m')
    ensures Lookup(Expanded(m, rank), n) == if n in m then Ok(Expand(m, rank, n)) else Err(NotFound(n))
    ensures Lookup(m', n).Ok? ==> Lookup(Expanded(m, rank), n) == Lookup(m', n)
    ensures Lookup(m, n).Ok? ==> Lookup(m', n) == Lookup(m, n)
  {
  }

  ghost predicate Known(m: Table, rank: string -> nat, m': Table, n: string)
    requires Ranked(m, rank)
  {
    Closed(m, rank, n) && n in m' && m'[n].resolved && m'[n].value == Expand(m, rank, n)
  }

  /** The variables at or above a rank are untouched. */
  ghost predicate Above(m: Table, rank: string -> nat, m': Table, bound: nat) {
    m'.Keys == m.Keys && forall n :: n in m && rank(n) >= bound ==> m'[n] == m[n]
  }

  lemma MemoExtend(m: Table, rank: string -> nat, m': Table, name: string)
    requires Ranked(m, rank) && Memo(m, rank, m')
    requires Open(m, name) && Closed(m, rank, name)
    ensures Memo(m, rank, m'[name := Variable(Expand(m, rank, name), true)])
  {
  }

  lemma AboveTransitive(m: Table, rank: string -> nat, m1: Table, m2: Table, bound: nat)
    requires Above(m, rank, m1, bound) && Above(m1, rank, m2, bound)
    ensures Above(m, rank, m2, bound)
  {
  }

  /** A reference that fails makes the variable fail. */
  lemma ReferenceFails(m: Table, rank: string -> nat, m1: Table, name: string, i: nat)
    requires Ranked(m, rank) && Memo(m, rank, m1) && Ranked(m1, rank)
    requires i < |Edges(m, name)| && !Closed(m1, rank, Edges(m, name)[i])
    ensures !Closed(m, rank, name)
  {
    MemoTransparent(m, rank, m1, Edges(m, name)[i]);
    assert Edges(m, name)[i] in Edges(m, name);
  }

  /** What is known stays known while one more reference is resolved. */
  lemma ReferenceKnown(m: Table, rank: string -> nat, m1: Table, m2: Table, refs: seq<string>, i: nat)
    requires Ranked(m, rank) && Memo(m, rank, m1) && Ranked(m1, rank) && Memo(m1, rank, m2)
    requires i < |refs| && Known(m1, rank, m2, refs[i])
    requires forall n :: n in refs[..i] ==> Known(m, rank, m1, n)
    ensures forall n :: n in refs[..i + 1] ==> Known(m, rank, m2, n)
  {
    MemoTransparent(m, rank, m1, refs[i]);
    forall n | n in refs[..i] ensures Known(m, rank, m2, n) {
      StaysKnown(m, rank, m1, m2, n);
    }
    assert refs[..i + 1] == refs[..i] + [refs[i]];
  }

  lemma StaysKnown(m: Table, rank: string -> nat, m1: Table, m2: Table, n: string)
    requires Ranked(m, rank) && Ranked(m1, rank) && Memo(m1, rank, m2)
    requires Known(m, rank, m1, n)
    ensures Known(m, rank, m2, n)
  {
  }

  lemma AllStayKnown(m: Table, rank: string -> nat, m1: Table, m2: Table, names: set<string>)
    requires Ranked(m, rank) && Ranked(m1, rank) && Memo(m1, rank, m2)
    requires forall n :: n in names ==> Known(m, rank, m1, n)
    ensures forall n :: n in names ==> Known(m, rank, m2, n)
  {
    forall n | n in names ensures Known(m, rank, m2, n) {
      StaysKnown(m, rank, m1, m2, n);
    }
  }

  /** Once its references are resolved, a variable's own value is a substitution away. */
  lemma Finish(m: Table, rank: string -> nat, m': Table, name: string)
    requires Ranked(m, rank) && Memo(m, rank, m')
    requires Open(m, name) && m'[name] == m[name]
    requires forall r :: r in Edges(m, name) ==> Known(m, rank, m', r)
    ensures Closed(m, rank, name)
    ensures Substitute(Tokenize(m'[name].value), Values(m')) == Expand(m, rank, name)
  {
    SubstituteAgrees(Tokenize(m[name].value), Values(m'), map r | r in Edges(m, name) :: Expand(m, rank, r));
  }

  // ------------------------------------------------------------- the class

  /** `compiled` stands for the regular expression that Build compiles. */
  class VariableTable {
    var m: Table
    var compiled: bool

    constructor ()
      ensures m == map[] && !compiled
    {
      m := map[];
      compiled := false;
    }

    method Register(name: string, v: Variable) returns (r: Result)
      modifies this`m
      ensures r.Err? <==> name in old(m)
      ensures r.Err? ==> r.error == Duplicate(name) && m == old(m)
      ensures r.Ok? ==> m == old(m)[name := v]
    {
      if name in m {
        return Err(Duplicate(name));
      }
      m := m[name := v];
      r := Ok("");
    }

    method Get(name: string) returns (r: Result)
      ensures r == Lookup(m, name)
    {
      if name !in m {
        return Err(NotFound(name));
      } else if !m[name].resolved {
        return Err(Unresolved(name));
      }
      r := Ok(m[name].value);
    }

    method Set(name: string, value: string) returns (r: Result)
      modifies this`m
      ensures r.Err? <==> name !in old(m)
      ensures r.Err? ==> r.error == NotFound(name) && m == old(m)
      ensures r.Ok? ==> m == old(m)[name := Variable(value, true)]
    {
      if name !in m {
        return Err(NotFound(name));
      }
      m := m[name := Variable(value, true)];
      r := Ok("");
    }

    /** Resolves `name` and everything it refers to, depth first. */
    method Resolve(name: string, ghost rank: string -> nat) returns (r: Result)
      requires Ranked(m, rank)
      modifies this`m
      ensures Memo(old(m), rank, m)
      ensures forall n :: n in m && rank(n) >= rank(name) && n != name ==> m[n] == old(m)[n]
      ensures r.Ok? <==> Closed(old(m), rank, name)
      ensures r.Ok? ==> name in m && m[name].resolved && r.value == m[name].value == Expand(old(m), rank, name)
      ensures r.Err? ==> r.error.NotDefined? && r.error.name !in m
      decreases rank(name)
    {
      if name !in m {
        return Err(NotDefined(name));
      } else if m[name].resolved {
        return Ok(m[name].value);
      }
      ghost var m0 := m;
      var refs := RefsOf(m[name].value);
      if refs == [] {
        Finish(m0, rank, m, name);
        NoRefsIsText(m[name].value, Values(m));
        MemoExtend(m0, rank, m, name);
        m := m[name := m[name].(resolved := true)];
        return Ok(m[name].value);
      }
      for i := 0 to |refs|
        invariant Memo(m0, rank, m)
        invariant Above(m0, rank, m, rank(name))
        invariant forall r :: r in refs[..i] ==> Known(m0, rank, m, r)
      {
        ghost var m1 := m;
        MemoTransparent(m0, rank, m1, refs[i]);
        assert refs[i] in Edges(m0, name);
        var s := Resolve(refs[i], rank);
        MemoTransitive(m0, rank, m1, m);
        AboveTransitive(m0, rank, m1, m, rank(name));
        if s.Err? {
          ReferenceFails(m0, rank, m1, name, i);
          return s;
        }
        ReferenceKnown(m0, rank, m1, m, refs, i);
      }
      Finish(m0, rank, m, name);
      MemoExtend(m0, rank, m, name);
      var value := Substitute(Tokenize(m[name].value), Values(m));
      m := m[name := Variable(value, true)];
      r := Ok(value);
    }

    /** Resolves all variables, in whatever order the map delivers them. */
    method Build(ghost rank: string -> nat) returns (r: Result)
      requires Ranked(m, rank)
      modifies this
      ensures compiled
      ensures Memo(old(m), rank, m)
      ensures r.Ok? <==> NoDangling(old(m))
      ensures r.Ok? ==> forall n :: n in m ==> m[n] == Variable(Expand(old(m), rank, n), true)
      ensures r.Err? ==> r.error.NotDefined? && r.error.name !in m
      ensures forall n :: n in old(m) && old(m)[n].resolved ==> m[n] == old(m)[n]
    {
      compiled := true;
      ghost var m0 := m;
      var names := m.Keys;
      ghost var done: set<string> := {};
      while names != {}
        invariant names + done == m0.Keys
        invariant compiled && Memo(m0, rank, m)
        invariant forall n :: n in done ==> Known(m0, rank, m, n)
        decreases names
      {
        var n :| n in names;
        ghost var m1 := m;
        MemoTransparent(m0, rank, m1, n);
        var s := Resolve(n, rank);
        MemoTransitive(m0, rank, m1, m);
        if s.Err? {
          assert !Closed(m0, rank, n);
          AllClosedIffNoDangling(m0, rank);
          return s;
        }
        AllStayKnown(m0, rank, m1, m, done);
        names, done := names - {n}, done + {n};
      }
      AllClosedIffNoDangling(m0, rank);
      r := Ok("");
    }

    /** Replaces the references of a text; the first failing lookup is the error. */
    method Rendering(s: string) returns (value: string, error: Result)
      requires compiled
      ensures value == Render(Tokenize(s), m)
      ensures error == FirstError(Refs(Tokenize(s)), m)
    {
      var ts := Tokenize(s);
      value, error := "", Ok("");
      if RefsOf(s) == [] {
        RenderNoRefs(s, m);
        return s, Ok("");
      }
      for i := 0 to |ts|
        invariant Render(ts, m) == value + Render(ts[i..], m)
        invariant FirstError(Refs(ts), m) == if error.Err? then error else FirstError(Refs(ts[i..]), m)
        invariant error.Ok? ==> error.value == ""
      {
        RenderHead(ts, i, m);
        Append(value, Piece(ts[i], m), Render(ts[i + 1..], m));
        if ts[i].Text? {
          value := value + [ts[i].c];
        } else {
          var g := Get(ts[i].name);
          if g.Err? && error.Ok? {
            error := g;
          }
          value := value + if g.Ok? then g.value else "";
        }
      }
    }
  }

  function Lookup(m: Table, name: string): Result {
    if name !in m then Err(NotFound(name))
    else if !m[name].resolved then Err(Unresolved(name))
    else Ok(m[name].value)
  }

  function Render(ts: seq<Token>, m: Table): string {
    if ts == [] then "" else Piece(ts[0], m) + Render(ts[1..], m)
  }

  function Piece(t: Token, m: Table): string {
    match t
    case Text(c) => [c]
    case Ref(n) => if Lookup(m, n).Ok? then Lookup(m, n).value else ""
  }

  lemma Append(a: string, b: string, c: string)
    ensures a + (b + c) == (a + b) + c
  {
  }

  function FirstError(refs: seq<string>, m: Table): Result {
    if refs == [] then Ok("")
    else if Lookup(m, refs[0]).Err? then Lookup(m, refs[0])
    else FirstError(refs[1..], m)
  }

  /** One token of a rendering, read at position `i`. */
  lemma RenderHead(ts: seq<Token>, i: nat, m: Table)
    requires i < |ts|
    ensures Render(ts[i..], m) == Piece(ts[i], m) + Render(ts[i + 1..], m)
    ensures FirstError(Refs(ts[i..]), m) ==
      if ts[i].Ref? && Lookup(m, ts[i].name).Err? then Lookup(m, ts[i].name) else FirstError(Refs(ts[i + 1..]), m)
  {
    assert ts[i..][0] == ts[i] && ts[i..][1..] == ts[i + 1..];
    if ts[i].Ref? {
      assert Refs(ts[i..])[1..] == Refs(ts[i + 1..]);
    }
  }

  lemma {:induction false} RenderNoRefs(s: string, m: Table)
    requires RefsOf(s) == []
    ensures Render(Tokenize(s), m) == s && FirstError(Refs(Tokenize(s)), m) == Ok("")
    decreases |s|
  {
    if s != [] {
      assert HeadRef(s) == 0;
      assert Tokenize(s)[1..] == Tokenize(s[1..]);
      RenderNoRefs(s[1..], m);
    }
  }
}
