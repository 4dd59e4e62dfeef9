/**
 The step lists of cli/command/cluster/upgrade.go.

 genUpgradePlaybook drops the step PULL_IMAGE with
 `append(steps[:i], steps[i+1:]...)`.  `steps` is a slice of a package variable, so
 the append writes into the array behind that variable, whose own length does not
 change.
 */
module UpgradeSteps {

  datatype Step =
    | PullImage | StopService | CleanService | CreateContainer | SyncConfig | StartService
    | StartCoordinator | StartStore | CheckStoreHealth | StartFsMds | StartExecutor

  const PLAYBOOK_STEPS: seq<Step> :=
    [PullImage, StopService, CleanService, CreateContainer, SyncConfig, StartService]

  const STORE_FS_STEPS: seq<Step> :=
    [PullImage, StopService, CleanService, CreateContainer, SyncConfig,
     StartCoordinator, StartStore, CheckStoreHealth, StartFsMds, StartExecutor]

  /** Position of the first PULL_IMAGE, or the length of the list. */
  function PullAt(t: seq<Step>): (i: nat)
    ensures i <= |t| && PullImage !in t[..i]
    ensures i < |t| ==> t[i] == PullImage
  {
    if t == [] || t[0] == PullImage then 0 else 1 + PullAt(t[1..])
  }

  /** The list without its first PULL_IMAGE. */
  function Minus(t: seq<Step>): seq<Step> {
    var i := PullAt(t);
    if i < |t| then t[..i] + t[i + 1..] else t
  }

  /** What the array behind the package variable holds afterwards: everything behind
      the removed step has moved up, and the last element is there twice. */
  function Shifted(t: seq<Step>): seq<Step> {
    if PullAt(t) < |t| then Minus(t) + [t[|t| - 1]] else t
  }

  /** The edit in genUpgradePlaybook; the playbook gets the steps `table[..n]`. */
  method GenSteps(table: array<Step>, useLocalImage: bool) returns (n: nat)
    modifies table
    ensures n <= table.Length
    ensures table[..n] == if useLocalImage then Minus(old(table[..])) else old(table[..])
    ensures table[..] == if useLocalImage then Shifted(old(table[..])) else old(table[..])
  {
    n := table.Length;
    if useLocalImage {
      var i := 0;
      while i < table.Length && table[i] != PullImage
        invariant i <= table.Length
        invariant PullAt(table[..]) == i + PullAt(table[i..])
      {
        assert table[i..][1..] == table[i + 1..];
        i := i + 1;
      }
      assert i == PullAt(table[..]);
      if i < table.Length {
        MoveUp(table, i);
        n := table.Length - 1;
      }
    }
  }

  /** append(steps[:i], steps[i+1:]...) copies element by element, in place. */
  method MoveUp(table: array<Step>, i: nat)
    requires i < table.Length
    modifies table
    ensures table[..] == old(table[..i] + table[i + 1..] + [table[table.Length - 1]])
    ensures table[..table.Length - 1] == old(table[..i] + table[i + 1..])
  {
    var k := i;
    while k + 1 < table.Length
      invariant i <= k < table.Length
      invariant table[..i] == old(table[..i])
      invariant forall j :: i <= j < k ==> table[j] == old(table[j + 1])
      invariant forall j :: k <= j < table.Length ==> table[j] == old(table[j])
    {
      table[k] := table[k + 1];
      k := k + 1;
    }
    ghost var want := old(table[..i] + table[i + 1..]);
    assert forall j :: 0 <= j < i ==> table[j] == table[..i][j] == old(table[..i])[j];
    assert table[..table.Length - 1] == want;
  }

  /** A step list as the package writes it: PULL_IMAGE once, and not at the end. */
  ghost predicate PullsOnce(t: seq<Step>) {
    && PullAt(t) < |t| - 1
    && forall j :: 0 <= j < |t| && t[j] == PullImage ==> j == PullAt(t)
  }

  lemma TablesPullOnce()
    ensures PullsOnce(PLAYBOOK_STEPS) && PullsOnce(STORE_FS_STEPS)
  {
    assert PLAYBOOK_STEPS[0] == PullImage && STORE_FS_STEPS[0] == PullImage;
  }

  /** After one edit the list holds no PULL_IMAGE, so no later edit changes it. */
  lemma ShiftedIsStable(t: seq<Step>)
    requires PullsOnce(t)
    ensures Minus(Shifted(t)) == Shifted(t) == Shifted(Shifted(t)) == Minus(t) + [t[|t| - 1]]
    ensures PullImage !in Minus(t)
  {
    var i := PullAt(t);
    var s := Shifted(t);
    forall j | 0 <= j < |s| ensures s[j] != PullImage {
      assert s[j] == if j < i then t[j] else if j < |t| - 1 then t[j + 1] else t[|t| - 1];
    }
    assert PullAt(s) == |s|;
  }

  /** Whether one of the first `k` services uses the same list. */
  ghost predicate Used(roles: seq<bool>, role: bool, k: nat)
    requires k <= |roles|
  {
    exists j :: 0 <= j < k && roles[j] == role
  }

  lemma UsedNext(roles: seq<bool>, role: bool, k: nat)
    requires k < |roles|
    ensures Used(roles, role, k + 1) <==> Used(roles, role, k) || roles[k] == role
  {
    if Used(roles, role, k) {
      var j :| 0 <= j < k && roles[j] == role;
      assert 0 <= j < k + 1 && roles[j] == role;
    }
  }

  /** The steps of one run over a list that was `t` when the program started. */
  function StepsOf(t: seq<Step>, used: bool): seq<Step>
    requires t != []
  {
    if used then Minus(t) + [t[|t| - 1]] else Minus(t)
  }

  /** What the package variable holds, by whether the list was used before. */
  function Now(t: seq<Step>, used: bool): seq<Step> {
    if used then Shifted(t) else t
  }

  method UpgradeOne(table: array<Step>, ghost t: seq<Step>, ghost used: bool) returns (steps: seq<Step>)
    requires PullsOnce(t) && table[..] == Now(t, used)
    modifies table
    ensures steps == StepsOf(t, used) && table[..] == Now(t, true)
  {
    ShiftedIsStable(t);
    var n := GenSteps(table, true);
    steps := table[..n];
  }

  /** The steps of each service upgraded so far. */
  ghost predicate Ran(runs: seq<seq<Step>>, plain: seq<Step>, store: seq<Step>, roles: seq<bool>)
    requires plain != [] && store != []
  {
    && |runs| <= |roles|
    && forall k :: 0 <= k < |runs| ==>
         runs[k] == StepsOf(if roles[k] then store else plain, Used(roles, roles[k], k))
  }

  lemma RanOneMore(runs: seq<seq<Step>>, plain: seq<Step>, store: seq<Step>, roles: seq<bool>, steps: seq<Step>)
    requires plain != [] && store != [] && Ran(runs, plain, store, roles) && |runs| < |roles|
    requires steps == StepsOf(if roles[|runs|] then store else plain, Used(roles, roles[|runs|], |runs|))
    ensures Ran(runs + [steps], plain, store, roles)
  {
  }

  /** upgradeOneByOne with a local image.  `roles[k]` says whether service k belongs
      to the store/fs step list.  The first service of each list gets it without
      PULL_IMAGE; every later one gets that list with the last step repeated. */
  method UpgradeOneByOne(plain: array<Step>, store: array<Step>, roles: seq<bool>) returns (runs: seq<seq<Step>>)
    requires plain != store && PullsOnce(plain[..]) && PullsOnce(store[..])
    modifies plain, store
    ensures |runs| == |roles| && Ran(runs, old(plain[..]), old(store[..]), roles)
  {
    ghost var p, s := plain[..], store[..];
    runs := [];
    for i := 0 to |roles|
      invariant |runs| == i && Ran(runs, p, s, roles)
      invariant plain[..] == Now(p, Used(roles, false, i))
      invariant store[..] == Now(s, Used(roles, true, i))
    {
      var steps := UpgradeOne(if roles[i] then store else plain, if roles[i] then s else p, Used(roles, roles[i], i));
      RanOneMore(runs, p, s, roles, steps);
      UsedNext(roles, true, i);
      UsedNext(roles, false, i);
      runs := runs + [steps];
    }
  }

  /** A service gets exactly its list without PULL_IMAGE iff no earlier service uses the
      same list; so all do iff no two services use one. */
  lemma RightIffFirst(runs: seq<seq<Step>>, plain: seq<Step>, store: seq<Step>, roles: seq<bool>)
    requires plain != [] && store != [] && Ran(runs, plain, store, roles) && |runs| == |roles|
    ensures forall k :: 0 <= k < |runs| ==>
      (runs[k] == Minus(if roles[k] then store else plain) <==> !Used(roles, roles[k], k))
    ensures (forall k :: 0 <= k < |runs| ==> runs[k] == Minus(if roles[k] then store else plain)) <==>
      forall j, k :: 0 <= j < k < |roles| ==> roles[j] != roles[k]
  {
    forall k | 0 <= k < |runs|
      ensures runs[k] == Minus(if roles[k] then store else plain) <==> !Used(roles, roles[k], k)
    {
      var t := if roles[k] then store else plain;
      assert |Minus(t) + [t[|t| - 1]]| == |Minus(t)| + 1;
    }
    if j, k :| 0 <= j < k < |roles| && roles[j] == roles[k] {
      assert Used(roles, roles[k], k);
    }
  }

  /** The plain list, spelt out: from the second service on, START_SERVICE runs twice. */
  lemma PlaybookAfterFirst()
    ensures Minus(PLAYBOOK_STEPS) == [StopService, CleanService, CreateContainer, SyncConfig, StartService]
    ensures Shifted(PLAYBOOK_STEPS) == Minus(PLAYBOOK_STEPS) + [StartService]
  {
    assert PullAt(PLAYBOOK_STEPS) == 0;
  }
}
