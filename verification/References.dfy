/**
 Reference graphs of variables: which names can be resolved, which run into an
 undefined name, and which are caught in a cycle.  References are followed in
 order, so an undefined name hides what comes behind it.
 */
module References {

  /** What each defined name refers to, in order; nothing for a resolved one. */
  type Graph = map<string, seq<string>>

  // --------------------------------------------- names that can be resolved

  /** The names above at most `k` levels of references, all of them defined. */
  ghost function Ground(g: Graph, k: nat): (s: set<string>)
    ensures s <= g.Keys
  {
    if k == 0 then {} else Reached(g, Ground(g, k - 1))
  }

  ghost function Reached(g: Graph, s: set<string>): set<string> {
    set n | n in g && Within(g[n], s)
  }

  predicate Within(names: seq<string>, s: set<string>) {
    forall i :: 0 <= i < |names| ==> names[i] in s
  }

  /** A round that finds nothing new is the last, so |g| rounds are enough. */
  ghost function Resolvable(g: Graph): set<string> {
    Ground(g, |g|)
  }

  lemma {:induction false} GroundGrows(g: Graph, k: nat)
    ensures Ground(g, k) <= Ground(g, k + 1)
    decreases k
  {
    if k > 0 {
      GroundGrows(g, k - 1);
    }
  }

  lemma {:induction false} GroundMonotone(g: Graph, j: nat, k: nat)
    requires j <= k
    ensures Ground(g, j) <= Ground(g, k)
    decreases k
  {
    if j < k {
      GroundMonotone(g, j, k - 1);
      GroundGrows(g, k - 1);
    }
  }

  /** Each round finds a name or is the last. */
  lemma {:induction false} GroundFills(g: Graph, k: nat)
    ensures Ground(g, k + 1) == Ground(g, k) || |Ground(g, k + 1)| > k
    decreases k
  {
    GroundGrows(g, k);
    if Ground(g, k + 1) != Ground(g, k) {
      Smaller(Ground(g, k), Ground(g, k + 1));
      if k > 0 {
        GroundFills(g, k - 1);
      }
    }
  }

  lemma {:induction false} Smaller(s: set<string>, t: set<string>)
    requires s <= t
    ensures |s| <= |t| && (s != t ==> |s| < |t|)
  {
    if s != {} {
      var y :| y in s;
      Smaller(s - {y}, t - {y});
      assert s != t ==> s - {y} != t - {y} by {
        assert s == s - {y} + {y} && t == t - {y} + {y};
      }
    }
  }

  /** A name can be resolved iff it is defined and all its references can. */
  lemma ResolvableStep(g: Graph, n: string)
    ensures n in Resolvable(g) <==> n in g && Within(g[n], Resolvable(g))
  {
    GroundFills(g, |g|);
    Smaller(Ground(g, |g| + 1), g.Keys);
    assert |g.Keys| == |g|;
    assert n in Ground(g, |g| + 1) <==> n in g && Within(g[n], Ground(g, |g|));
  }

  lemma {:induction false} GroundIsResolvable(g: Graph, k: nat)
    ensures Ground(g, k) <= Resolvable(g)
    decreases k
  {
    if k > 0 {
      GroundIsResolvable(g, k - 1);
      forall n | n in Ground(g, k) ensures n in Resolvable(g) {
        ResolvableStep(g, n);
      }
    }
  }

  /** The round in which a name was found. */
  ghost function Level(g: Graph, n: string, k: nat): (l: nat)
    requires n in Ground(g, k)
    ensures 0 < l <= k && n in Ground(g, l) && n !in Ground(g, l - 1)
  {
    if n in Ground(g, k - 1) then Level(g, n, k - 1) else k
  }

  lemma {:induction false} LevelLeast(g: Graph, n: string, j: nat, k: nat)
    requires n in Ground(g, j) && n in Ground(g, k)
    ensures Level(g, n, k) <= j
    decreases k
  {
    var l := Level(g, n, k);
    if j < l {
      GroundMonotone(g, j, l - 1);
    }
  }

  lemma LevelDescends(g: Graph, n: string, i: nat, k: nat)
    requires n in Ground(g, k) && i < |g[n]| && g[n][i] in Ground(g, k)
    ensures Level(g, g[n][i], k) < Level(g, n, k)
  {
    var l := Level(g, n, k);
    assert Within(g[n], Ground(g, l - 1));
    LevelLeast(g, g[n][i], l - 1, k);
  }

  // --------------------------------------------- names that cannot be resolved

  /** All references before the i-th can be resolved. */
  ghost predicate Before(g: Graph, n: string, i: nat) {
    n in g && i < |g[n]| && forall j :: 0 <= j < i ==> g[n][j] in Resolvable(g)
  }

  /** An undefined name is met within `k` levels, before anything else goes wrong. */
  ghost predicate Fails(g: Graph, n: string, k: nat)
    decreases k
  {
    n !in g || (k > 0 && exists i: nat :: Before(g, n, i) && Fails(g, g[n][i], k - 1))
  }

  ghost predicate Failing(g: Graph, n: string) {
    exists k: nat :: Fails(g, n, k)
  }

  /** A set of names in each of which some reference leads back into the set, all
      references before it being resolvable: a cycle, or what leads into one. */
  ghost predicate Trap(g: Graph, trap: set<string>) {
    forall n {:trigger Leads(g, n, trap)} :: n in trap ==> Leads(g, n, trap)
  }

  ghost predicate Leads(g: Graph, n: string, trap: set<string>) {
    exists i: nat :: LeadsAt(g, n, i, trap)
  }

  ghost predicate LeadsAt(g: Graph, n: string, i: nat, trap: set<string>) {
    Before(g, n, i) && g[n][i] in trap
  }

  ghost predicate Acyclic(g: Graph) {
    forall trap :: Trap(g, trap) ==> trap == {}
  }

  lemma {:induction false} FailsNotResolvable(g: Graph, n: string, k: nat)
    requires Fails(g, n, k)
    ensures n !in Resolvable(g)
    decreases k
  {
    if n in g {
      var i: nat :| Before(g, n, i) && Fails(g, g[n][i], k - 1);
      FailsNotResolvable(g, g[n][i], k - 1);
      ResolvableStep(g, n);
    }
  }

  lemma {:induction false} TrapNotGround(g: Graph, trap: set<string>, n: string, k: nat)
    requires Trap(g, trap) && n in trap
    ensures n !in Ground(g, k)
    decreases k
  {
    if k > 0 {
      assert Leads(g, n, trap);
      var i: nat :| LeadsAt(g, n, i, trap);
      TrapNotGround(g, trap, g[n][i], k - 1);
    }
  }

  /** The names of which neither can be said. */
  ghost function Stuck(g: Graph): set<string> {
    set n | n in g && n !in Resolvable(g) && !Failing(g, n)
  }

  lemma StuckIsTrap(g: Graph)
    ensures Trap(g, Stuck(g))
  {
    forall n | n in Stuck(g) ensures Leads(g, n, Stuck(g)) {
      ResolvableStep(g, n);
      var i := FirstNot(g[n], Resolvable(g));
      var r := g[n][i];
      assert Before(g, n, i);
      if Failing(g, r) {
        var k: nat :| Fails(g, r, k);
        assert Fails(g, n, k + 1);
      }
      assert r !in g ==> Fails(g, r, 0);
      assert LeadsAt(g, n, i, Stuck(g));
    }
  }

  lemma {:induction false} FirstNot(names: seq<string>, s: set<string>) returns (i: nat)
    requires !Within(names, s)
    ensures i < |names| && names[i] !in s && forall j :: 0 <= j < i ==> names[j] in s
  {
    i := 0;
    while names[i] in s
      invariant i < |names| && forall j :: 0 <= j < i ==> names[j] in s
      invariant !Within(names, s)
      decreases |names| - i
    {
      assert i + 1 == |names| ==> Within(names, s);
      i := i + 1;
    }
  }

  /** Where every reference is defined nothing fails. */
  lemma {:induction false} DefinedNeverFails(g: Graph, n: string, k: nat)
    requires n in g && forall x, i :: x in g && 0 <= i < |g[x]| ==> g[x][i] in g
    ensures !Fails(g, n, k)
    decreases k
  {
    if k > 0 {
      forall i: nat | Before(g, n, i) ensures !Fails(g, g[n][i], k - 1) {
        DefinedNeverFails(g, g[n][i], k - 1);
      }
    }
  }

  /** Without undefined names and cycles every name can be resolved. */
  lemma AcyclicAllGround(g: Graph)
    requires Acyclic(g) && forall x, i :: x in g && 0 <= i < |g[x]| ==> g[x][i] in g
    ensures Ground(g, |g|) == g.Keys
  {
    StuckIsTrap(g);
    forall n, k: nat | n in g ensures !Fails(g, n, k) {
      DefinedNeverFails(g, n, k);
    }
    forall n | n in g ensures n in Resolvable(g) {
      assert n !in Stuck(g);
    }
  }

  /** Then references go strictly down in level. */
  lemma Levels(g: Graph) returns (rank: string -> nat)
    requires Acyclic(g) && forall x, i :: x in g && 0 <= i < |g[x]| ==> g[x][i] in g
    ensures forall x, i :: x in g && 0 <= i < |g[x]| ==> rank(g[x][i]) < rank(x)
  {
    AcyclicAllGround(g);
    rank := n => if n in Ground(g, |g|) then Level(g, n, |g|) else 0;
    forall x, i | x in g && 0 <= i < |g[x]| ensures rank(g[x][i]) < rank(x) {
      LevelDescends(g, x, i, |g|);
    }
  }

  // ------------------------------------------------------------- the recursion

  datatype Visited = Through(done: set<string>) | Missing | TooDeep

  /** The recursion of resolve, with a budget of nested calls; `done` are the
      names already resolved. */
  function Visit(g: Graph, done: set<string>, n: string, budget: nat): Visited
    decreases budget, 0
  {
    if budget == 0 then TooDeep
    else if n !in g then Missing
    else if n in done then Through(done)
    else
      match VisitAll(g, done, g[n], budget - 1)
      case Through(d) => Through(d + {n})
      case other => other
  }

  function VisitAll(g: Graph, done: set<string>, names: seq<string>, budget: nat): Visited
    decreases budget, 1, |names|
  {
    if names == [] then Through(done)
    else
      match Visit(g, done, names[0], budget)
      case Through(d) => VisitAll(g, d, names[1..], budget)
      case other => other
  }

  /** A name that can be resolved never yields an error, and brings in only such names. */
  lemma {:induction false} ResolvableNeverFails(g: Graph, done: set<string>, n: string, budget: nat)
    requires done <= Resolvable(g) && n in Resolvable(g)
    ensures var v := Visit(g, done, n, budget); !v.Missing? && (v.Through? ==> v.done <= Resolvable(g))
    decreases budget, 0
  {
    ResolvableStep(g, n);
    if budget > 0 && n !in done {
      ResolvableNeverFailAll(g, done, g[n], budget - 1);
    }
  }

  lemma {:induction false} ResolvableNeverFailAll(g: Graph, done: set<string>, names: seq<string>, budget: nat)
    requires done <= Resolvable(g) && Within(names, Resolvable(g))
    ensures var v := VisitAll(g, done, names, budget); !v.Missing? && (v.Through? ==> v.done <= Resolvable(g))
    decreases budget, 1, |names|
  {
    if names != [] {
      ResolvableNeverFails(g, done, names[0], budget);
      var v := Visit(g, done, names[0], budget);
      if v.Through? {
        ResolvableNeverFailAll(g, v.done, names[1..], budget);
      }
    }
  }

  /** With as many nested calls as levels it is resolved. */
  lemma {:induction false} GroundEnds(g: Graph, done: set<string>, n: string, k: nat, budget: nat)
    requires done <= Resolvable(g) && n in Ground(g, k) && budget >= k
    ensures Visit(g, done, n, budget).Through?
    decreases k, 0
  {
    if n !in done {
      GroundEndAll(g, done, g[n], k - 1, budget - 1);
    }
  }

  lemma {:induction false} GroundEndAll(g: Graph, done: set<string>, names: seq<string>, k: nat, budget: nat)
    requires done <= Resolvable(g) && Within(names, Ground(g, k)) && budget >= k
    ensures VisitAll(g, done, names, budget).Through?
    decreases k, 1, |names|
  {
    if names != [] {
      GroundEnds(g, done, names[0], k, budget);
      GroundIsResolvable(g, k);
      ResolvableNeverFails(g, done, names[0], budget);
      GroundEndAll(g, Visit(g, done, names[0], budget).done, names[1..], k, budget);
    }
  }

  /** What a list comes to when all names before the i-th can be resolved: the i-th decides. */
  lemma {:induction false} IthDecides(g: Graph, done: set<string>, names: seq<string>, i: nat, budget: nat)
    returns (d: set<string>)
    requires done <= Resolvable(g) && i < |names| && forall j :: 0 <= j < i ==> names[j] in Resolvable(g)
    ensures d <= Resolvable(g)
    ensures var all, one := VisitAll(g, done, names, budget), Visit(g, d, names[i], budget);
      !one.Through? ==> all == one || (budget < |g| && all == TooDeep)
    decreases i
  {
    d := done;
    if i > 0 {
      ResolvableNeverFails(g, done, names[0], budget);
      var v := Visit(g, done, names[0], budget);
      if budget >= |g| {
        GroundEnds(g, done, names[0], |g|, budget);
      }
      if v.Through? {
        d := IthDecides(g, v.done, names[1..], i - 1, budget);
        assert names[1..][i - 1] == names[i];
      }
    }
  }

  /** A failing name yields the error once the budget suffices, and never anything else. */
  lemma {:induction false} FailsEnds(g: Graph, done: set<string>, n: string, k: nat, budget: nat)
    requires done <= Resolvable(g) && Fails(g, n, k)
    ensures !Visit(g, done, n, budget).Through?
    ensures budget > k + |g| ==> Visit(g, done, n, budget) == Missing
    decreases k
  {
    FailsNotResolvable(g, n, k);
    if budget > 0 && n in g {
      var i: nat :| Before(g, n, i) && Fails(g, g[n][i], k - 1);
      var d := IthDecides(g, done, g[n], i, budget - 1);
      FailsEnds(g, d, g[n][i], k - 1, budget - 1);
    }
  }

  /** No number of nested calls resolves a name of a trap. */
  lemma {:induction false} TrapHolds(g: Graph, done: set<string>, trap: set<string>, n: string, budget: nat)
    requires done <= Resolvable(g) && Trap(g, trap) && n in trap
    ensures Visit(g, done, n, budget) == TooDeep
    decreases budget
  {
    if budget > 0 {
      assert Leads(g, n, trap);
      var i: nat :| LeadsAt(g, n, i, trap);
      TrapNotGround(g, trap, n, |g|);
      var d := IthDecides(g, done, g[n], i, budget - 1);
      TrapHolds(g, d, trap, g[n][i], budget - 1);
    }
  }

  /** Nothing but a name that can be resolved is ever resolved. */
  lemma NeverDone(g: Graph, done: set<string>, n: string, budget: nat)
    requires done <= Resolvable(g) && n !in Resolvable(g)
    ensures !Visit(g, done, n, budget).Through?
  {
    StuckIsTrap(g);
    if n in Stuck(g) {
      TrapHolds(g, done, Stuck(g), n, budget);
    } else {
      assert n !in g ==> Fails(g, n, 0);
      var k: nat :| Fails(g, n, k);
      FailsEnds(g, done, n, k, budget);
    }
  }

  // ---------------------------------------------------------- when it ends

  ghost predicate Ends(g: Graph, done: set<string>, n: string) {
    exists budget: nat :: Visit(g, done, n, budget) != TooDeep
  }

  ghost predicate Trapped(g: Graph, n: string) {
    exists trap :: Trap(g, trap) && n in trap
  }

  lemma EndsIffNotTrapped(g: Graph, done: set<string>, n: string)
    requires done <= Resolvable(g) && n in g
    ensures Ends(g, done, n) <==> !Trapped(g, n)
  {
    StuckIsTrap(g);
    if n in Resolvable(g) {
      GroundEnds(g, done, n, |g|, |g|);
      assert Visit(g, done, n, |g|) != TooDeep;
    } else if Failing(g, n) {
      var k: nat :| Fails(g, n, k);
      FailsEnds(g, done, n, k, k + |g| + 1);
      assert Visit(g, done, n, k + |g| + 1) != TooDeep;
    } else {
      assert n in Stuck(g);
    }
    if trap :| Trap(g, trap) && n in trap {
      forall budget: nat ensures Visit(g, done, n, budget) == TooDeep {
        TrapHolds(g, done, trap, n, budget);
      }
    }
  }

  /** No trap holds a name iff there is no trap. */
  lemma NoneTrapped(g: Graph)
    ensures Acyclic(g) <==> forall n :: n in g ==> !Trapped(g, n)
  {
    if !Acyclic(g) {
      var trap :| Trap(g, trap) && trap != {};
      var n :| n in trap;
      assert Leads(g, n, trap);
      assert n in g && Trapped(g, n);
    }
  }

  // -------------------------------------------------------------- a list of names

  ghost predicate Distinct(order: seq<string>) {
    forall i, j :: 0 <= i < j < |order| ==> order[i] != order[j]
  }

  /** `order` delivers the names of the graph, each once, as a map iteration does. */
  ghost predicate Delivers(g: Graph, order: seq<string>) {
    Distinct(order) && forall n :: n in order <==> n in g
  }

  ghost predicate AllEnd(g: Graph, done: set<string>, order: seq<string>) {
    exists budget: nat :: VisitAll(g, done, order, budget) != TooDeep
  }

  ghost predicate AllSucceed(g: Graph, done: set<string>, order: seq<string>) {
    exists budget: nat :: VisitAll(g, done, order, budget).Through?
  }

  lemma AllSucceedIff(g: Graph, done: set<string>, order: seq<string>)
    requires done <= Resolvable(g) && Delivers(g, order)
    ensures AllSucceed(g, done, order) <==> Resolvable(g) == g.Keys
  {
    if Resolvable(g) == g.Keys {
      GroundEndAll(g, done, order, |g|, |g|);
      assert VisitAll(g, done, order, |g|).Through?;
    } else {
      var n :| n in g && n !in Resolvable(g);
      var i := FirstNot(order, Resolvable(g));
      forall budget: nat ensures !VisitAll(g, done, order, budget).Through? {
        var d := IthDecides(g, done, order, i, budget);
        NeverDone(g, d, order[i], budget);
      }
    }
  }

  lemma AllEndIffAcyclic(g: Graph, done: set<string>)
    requires done <= Resolvable(g)
    ensures (forall order :: Delivers(g, order) ==> AllEnd(g, done, order)) <==> Acyclic(g)
  {
    if Acyclic(g) {
      StuckIsTrap(g);
      forall order | Delivers(g, order) ensures AllEnd(g, done, order) {
        AcyclicAllEnd(g, done, order);
      }
    } else {
      var trap :| Trap(g, trap) && trap != {};
      var n :| n in trap;
      var order := TrappedFirst(g, done, trap, n);
    }
  }

  lemma TrappedFirst(g: Graph, done: set<string>, trap: set<string>, n: string) returns (order: seq<string>)
    requires done <= Resolvable(g) && Trap(g, trap) && n in trap
    ensures Delivers(g, order) && !AllEnd(g, done, order)
  {
    assert Leads(g, n, trap);
    assert n in g;
    var rest := Ordering(g.Keys - {n});
    order := [n] + rest;
    forall budget: nat ensures VisitAll(g, done, order, budget) == TooDeep {
      TrapHolds(g, done, trap, n, budget);
    }
  }

  lemma AcyclicAllEnd(g: Graph, done: set<string>, order: seq<string>)
    requires done <= Resolvable(g) && Delivers(g, order) && Stuck(g) == {}
    ensures AllEnd(g, done, order)
  {
    if Resolvable(g) == g.Keys {
      AllSucceedIff(g, done, order);
    } else {
      var n :| n in g && n !in Resolvable(g);
      var i := FirstNot(order, Resolvable(g));
      assert order[i] !in Stuck(g);
      var k: nat :| Fails(g, order[i], k);
      var budget := k + |g| + 1;
      var d := IthDecides(g, done, order, i, budget);
      FailsEnds(g, d, order[i], k, budget);
      assert VisitAll(g, done, order, budget) == Missing;
    }
  }

  lemma {:induction false} Ordering(s: set<string>) returns (order: seq<string>)
    ensures Distinct(order) && forall n :: n in order <==> n in s
  {
    if s == {} {
      order := [];
    } else {
      var x :| x in s;
      order := Ordering(s - {x});
      order := [x] + order;
    }
  }
}
