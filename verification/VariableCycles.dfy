/**
 When resolve of pkg/variable/variables.go terminates.

 resolve records the names it visits in `marked` but never reads it, so a cycle
 of references is not reported: the recursion does not end.  `Resolve` is the
 same recursion with a budget of nested calls.
 */
module VariableCycles {
  import opened VariableText
  import opened Variables
  import opened References

  datatype Outcome = Done(m: Table) | Undefined | OutOfBudget

  function Resolve(m: Table, name: string, budget: nat): Outcome
    decreases budget, 0
  {
    if budget == 0 then OutOfBudget
    else if name !in m then Undefined
    else if m[name].resolved then Done(m)
    else
      match ResolveAll(m, RefsOf(m[name].value), budget - 1)
      case Done(m1) =>
        if name !in m1 then Undefined
        else Done(m1[name := Variable(Substitute(Tokenize(m1[name].value), Values(m1)), true)])
      case other => other
  }

  lemma ResolveStep(m: Table, name: string, budget: nat)
    requires budget > 0 && Open(m, name)
    ensures var o := ResolveAll(m, Edges(m, name), budget - 1);
      Resolve(m, name, budget) ==
      if o.Done? then
        if name !in o.m then Undefined
        else Done(o.m[name := Variable(Substitute(Tokenize(o.m[name].value), Values(o.m)), true)])
      else o
  {
  }

  function ResolveAll(m: Table, names: seq<string>, budget: nat): Outcome
    decreases budget, 1, |names|
  {
    if names == [] then Done(m)
    else
      match Resolve(m, names[0], budget)
      case Done(m1) => ResolveAll(m1, names[1..], budget)
      case other => other
  }

  // ------------------------------------------------- acyclic references do end

  /** With a ranking, `rank(name) + 1` nested calls are enough, and the outcome is
      the one the method VariableTable.Resolve is proved to have. */
  lemma {:induction false} RankedEnds(m: Table, rank: string -> nat, name: string, budget: nat)
    requires Ranked(m, rank) && budget > rank(name)
    ensures var o := Resolve(m, name, budget);
      && (o.Done? <==> Closed(m, rank, name))
      && (o.Undefined? <==> !Closed(m, rank, name))
      && (o.Done? ==> Memo(m, rank, o.m) && Known(m, rank, o.m, name))
      && (o.Done? ==> forall n :: n in m && rank(n) >= rank(name) && n != name ==> o.m[n] == m[n])
    decreases budget, 0
  {
    if Open(m, name) {
      RankedEndsAll(m, rank, m, Edges(m, name), budget - 1, rank(name));
      var o := ResolveAll(m, Edges(m, name), budget - 1);
      if o.Done? {
        Finish(m, rank, o.m, name);
      }
    }
  }

  lemma {:induction false} RankedEndsAll(m: Table, rank: string -> nat, m1: Table, names: seq<string>,
                                         budget: nat, bound: nat)
    requires Ranked(m, rank) && Memo(m, rank, m1) && bound <= budget
    requires forall n :: n in names ==> rank(n) < bound
    requires forall n :: n in m && rank(n) >= bound ==> m1[n] == m[n]
    ensures var o := ResolveAll(m1, names, budget);
      && (o.Done? <==> forall n :: n in names ==> Closed(m, rank, n))
      && (o.Undefined? <==> !o.Done?)
      && (o.Done? ==> Memo(m, rank, o.m) && forall n :: n in names ==> Known(m, rank, o.m, n))
      && (o.Done? ==> forall n :: n in m && m1[n].resolved ==> o.m[n] == m1[n])
      && (o.Done? ==> forall n :: n in m && rank(n) >= bound ==> o.m[n] == m[n])
    decreases budget, 1, |names|
  {
    if names != [] {
      MemoTransparent(m, rank, m1, names[0]);
      RankedEnds(m1, rank, names[0], budget);
      var o := Resolve(m1, names[0], budget);
      if o.Done? {
        MemoTransitive(m, rank, m1, o.m);
        RankedEndsAll(m, rank, o.m, names[1..], budget, bound);
        assert forall n :: n in names ==> n == names[0] || n in names[1..];
      }
    }
  }

  // ------------------------------------------------------ the outcome, exactly

  /** The references resolve follows. */
  function GraphOf(m: Table): Graph {
    map n | n in m :: Edges(m, n)
  }

  function ResolvedIn(m: Table): set<string> {
    set n | n in m && m[n].resolved
  }

  /** `m1` is `m` after some variables have been resolved. */
  ghost predicate Follows(m: Table, m1: Table) {
    m1.Keys == m.Keys && forall n :: n in m ==> m1[n] == m[n] || m1[n].resolved
  }

  ghost predicate Matches(m: Table, o: Outcome, v: Visited) {
    match o
    case Done(m1) => v == Through(ResolvedIn(m1)) && Follows(m, m1)
    case Undefined => v.Missing?
    case OutOfBudget => v.TooDeep?
  }

  /** resolve visits the names as the references lead it. */
  lemma {:induction false} Simulates(m: Table, m1: Table, n: string, budget: nat)
    requires Follows(m, m1)
    ensures Matches(m, Resolve(m1, n, budget), Visit(GraphOf(m), ResolvedIn(m1), n, budget))
    decreases budget, 0
  {
    if budget > 0 && Open(m1, n) {
      assert Edges(m1, n) == GraphOf(m)[n];
      SimulatesAll(m, m1, Edges(m1, n), budget - 1);
      ResolveStep(m1, n, budget);
      var o := ResolveAll(m1, Edges(m1, n), budget - 1);
      if o.Done? {
        var m2 := Resolve(m1, n, budget).m;
        assert ResolvedIn(m2) == ResolvedIn(o.m) + {n};
      }
    }
  }

  lemma {:induction false} SimulatesAll(m: Table, m1: Table, names: seq<string>, budget: nat)
    requires Follows(m, m1)
    ensures Matches(m, ResolveAll(m1, names, budget), VisitAll(GraphOf(m), ResolvedIn(m1), names, budget))
    decreases budget, 1, |names|
  {
    if names != [] {
      Simulates(m, m1, names[0], budget);
      var o := Resolve(m1, names[0], budget);
      if o.Done? {
        SimulatesAll(m, o.m, names[1..], budget);
      }
    }
  }

  lemma ResolvedIsResolvable(m: Table)
    ensures ResolvedIn(m) <= Resolvable(GraphOf(m))
  {
    forall n | n in ResolvedIn(m) ensures n in Resolvable(GraphOf(m)) {
      ResolvableStep(GraphOf(m), n);
    }
  }

  /** No number of nested calls resolves a variable of a trap. */
  lemma CyclesNeverEnd(m: Table, trap: set<string>, name: string, budget: nat)
    requires Trap(GraphOf(m), trap) && name in trap
    ensures Resolve(m, name, budget) == OutOfBudget
  {
    ResolvedIsResolvable(m);
    TrapHolds(GraphOf(m), ResolvedIn(m), trap, name, budget);
    Simulates(m, m, name, budget);
  }

  ghost predicate ResolveEnds(m: Table, n: string) {
    exists budget: nat :: Resolve(m, n, budget) != OutOfBudget
  }

  lemma ResolveEndsAsVisit(m: Table, n: string)
    ensures ResolveEnds(m, n) <==> Ends(GraphOf(m), ResolvedIn(m), n)
  {
    forall budget: nat
      ensures Resolve(m, n, budget) == OutOfBudget <==> Visit(GraphOf(m), ResolvedIn(m), n, budget) == TooDeep
    {
      Simulates(m, m, n, budget);
    }
  }

  /** Whatever the table: all variables are resolved or refused by finitely many
      nested calls iff no set of variables leads back into itself. */
  lemma TerminatesIffAcyclic(m: Table)
    ensures forall n :: n in m ==> (ResolveEnds(m, n) <==> !Trapped(GraphOf(m), n))
    ensures (forall n :: n in m ==> ResolveEnds(m, n)) <==> Acyclic(GraphOf(m))
  {
    ResolvedIsResolvable(m);
    forall n | n in m ensures ResolveEnds(m, n) <==> !Trapped(GraphOf(m), n) {
      ResolveEndsAsVisit(m, n);
      EndsIffNotTrapped(GraphOf(m), ResolvedIn(m), n);
    }
    NoneTrapped(GraphOf(m));
  }

  // ------------------------------------------------------------ Build's loop

  /** Build over the entries in this order ends; ends without an error. */
  ghost predicate BuildEnds(m: Table, order: seq<string>) {
    exists budget: nat :: ResolveAll(m, order, budget) != OutOfBudget
  }

  ghost predicate BuildSucceeds(m: Table, order: seq<string>) {
    exists budget: nat :: ResolveAll(m, order, budget).Done?
  }

  lemma BuildAsVisit(m: Table, order: seq<string>)
    ensures BuildEnds(m, order) <==> AllEnd(GraphOf(m), ResolvedIn(m), order)
    ensures BuildSucceeds(m, order) <==> AllSucceed(GraphOf(m), ResolvedIn(m), order)
  {
    forall budget: nat
      ensures Matches(m, ResolveAll(m, order, budget), VisitAll(GraphOf(m), ResolvedIn(m), order, budget))
    {
      SimulatesAll(m, m, order, budget);
    }
  }

  /** In any order Build succeeds iff every variable can be resolved, cycles or not. */
  lemma BuildSucceedsIff(m: Table, order: seq<string>)
    requires Delivers(GraphOf(m), order)
    ensures BuildSucceeds(m, order) <==> Resolvable(GraphOf(m)) == m.Keys
  {
    ResolvedIsResolvable(m);
    BuildAsVisit(m, order);
    AllSucceedIff(GraphOf(m), ResolvedIn(m), order);
  }

  /** Build ends in every order iff no set of variables leads back into itself. */
  lemma BuildEndsIffAcyclic(m: Table)
    ensures (forall order :: Delivers(GraphOf(m), order) ==> BuildEnds(m, order)) <==> Acyclic(GraphOf(m))
  {
    ResolvedIsResolvable(m);
    forall order ensures BuildEnds(m, order) <==> AllEnd(GraphOf(m), ResolvedIn(m), order) {
      BuildAsVisit(m, order);
    }
    AllEndIffAcyclic(GraphOf(m), ResolvedIn(m));
  }

  // ---------------------------------------------------- rankings and cycles

  /** With every reference defined, a ranking exists iff there is no cycle. */
  lemma RankedIffAcyclic(m: Table)
    requires NoDangling(m)
    ensures (exists rank: string -> nat :: Ranked(m, rank)) <==> Acyclic(GraphOf(m))
  {
    if rank: string -> nat :| Ranked(m, rank) {
      forall n | n in m ensures ResolveEnds(m, n) {
        RankedEnds(m, rank, n, rank(n) + 1);
        assert Resolve(m, n, rank(n) + 1) != OutOfBudget;
      }
      TerminatesIffAcyclic(m);
    }
    if Acyclic(GraphOf(m)) {
      var rank := LevelsRank(m);
    }
  }

  lemma LevelsRank(m: Table) returns (rank: string -> nat)
    requires NoDangling(m) && Acyclic(GraphOf(m))
    ensures Ranked(m, rank)
  {
    var g := GraphOf(m);
    forall x, i | x in g && 0 <= i < |g[x]| ensures g[x][i] in g {
      assert g[x][i] in Edges(m, x);
    }
    rank := Levels(g);
    forall n, r | Open(m, n) && r in Edges(m, n) ensures rank(r) < rank(n) {
      var i :| 0 <= i < |g[n]| && g[n][i] == r;
    }
  }

  lemma SelfReference()
    ensures RefsOf("${a}") == ["a"]
  {
    TokenizeRef("a", "");
    assert "${a}" == "${" + "a" + "}" + "";
    var ts := [Ref("a")];
    assert ts + [] == ts && ts[1..] == [];
  }

  /** The smallest table with a cycle: a variable that refers to itself. */
  lemma SelfReferenceNeverEnds(budget: nat)
    ensures Resolve(map["a" := Variable("${a}", false)], "a", budget) == OutOfBudget
  {
    var m := map["a" := Variable("${a}", false)];
    SelfReference();
    assert GraphOf(m)["a"] == ["a"];
    assert LeadsAt(GraphOf(m), "a", 0, {"a"});
    assert Leads(GraphOf(m), "a", {"a"});
    CyclesNeverEnd(m, {"a"}, "a", budget);
  }

  /** A cycle behind an undefined name is not reached: resolution ends, with an error. */
  lemma CycleBehindUndefined()
    ensures Resolve(map["a" := Variable("${x}${a}", false)], "a", 2) == Undefined
  {
    var m := map["a" := Variable("${x}${a}", false)];
    UndefinedFirst();
    assert Resolve(m, "x", 1) == Undefined;
    assert ResolveAll(m, Edges(m, "a"), 1) == Undefined;
    ResolveStep(m, "a", 2);
  }

  lemma UndefinedFirst()
    ensures RefsOf("${x}${a}") != [] && RefsOf("${x}${a}")[0] == "x"
  {
    TokenizeRef("x", "${a}");
    assert "${x}${a}" == "${" + "x" + "}" + "${a}";
  }
}
