/**
 The directory scan refines a sequential walk, for every schedule and every
 pattern of RPC failures.
 */
module DirScanTheorems {
  import opened DirScan
  import opened DirScanConservation
  import opened DirScanControl

  // ------------------------------------------------------- reachable states

  ghost predicate Counters(cfg: Config, g: Shared) {
    && g.length == Wrap(g.bytes)
    && g.inodes == Wrap(g.dentries)
    && g.tokens <= cfg.threads
  }

  lemma WrapAdd(a: nat, b: nat)
    ensures Wrap(Wrap(a) + b) == Wrap(a + b)
  {
  }

  lemma FireCounters(cfg: Config, c: Call, g: Shared, a: Act)
    requires Enabled(cfg, c, g, a) && Counters(cfg, g)
    ensures Counters(cfg, Fire(cfg, c, g, a).1)
  {
    if a.CountLength? {
      WrapAdd(g.bytes, cfg.attr(c.pc.ino).length);
    } else if a.CountInode? {
      WrapAdd(g.dentries, 1);
    }
  }

  lemma {:induction false} StepCounters(cfg: Config, c: Call, g: Shared, path: seq<nat>, a: Act)
    requires CanStep(cfg, c, g, path, a) && Counters(cfg, g)
    ensures Counters(cfg, Step(cfg, c, g, path, a).1)
    decreases path
  {
    if path == [] {
      FireCounters(cfg, c, g, a);
    } else {
      StepCounters(cfg, c.subs[path[0]].call, g, path[1..], a);
    }
  }

  ghost predicate Conserved(cfg: Config, es: seq<Entry>, q: Quantity, s: Scan) {
    Level(cfg, q, s.shared) + CallDue(cfg, q, s.root) == EntriesDue(cfg, q, es)
  }

  /** What holds in every reachable state of a scan of the directory `es`. */
  ghost predicate ScanInv(cfg: Config, es: seq<Entry>, s: Scan) {
    && Inv(s.root)
    && Counters(cfg, s.shared)
    && (Blamed(s.root) || s.shared.cancelled ==> s.shared.failed)
    && (s.shared.failed ==> AnyFailed(s.root))
    && (forall q :: Conserved(cfg, es, q, s))
    && (forall x :: Tracked(cfg, s.root, s.shared, x) <==> EntriesOwe(cfg, es, x))
  }

  lemma InitInv(cfg: Config, es: seq<Entry>)
    ensures ScanInv(cfg, es, Init(es))
  {
    var s := Init(es);
    assert Rest(s.root) == es;
    forall q ensures Conserved(cfg, es, q, s) {
      NewCallDue(cfg, q, es);
    }
  }

  lemma NextInv(cfg: Config, es: seq<Entry>, s: Scan, l: Label)
    requires ScanInv(cfg, es, s) && CanStep(cfg, s.root, s.shared, l.path, l.act)
    ensures ScanInv(cfg, es, Next(cfg, s, l))
  {
    var t := Next(cfg, s, l);
    StepInv(cfg, s.root, s.shared, l.path, l.act);
    StepCounters(cfg, s.root, s.shared, l.path, l.act);
    StepBlames(cfg, s.root, s.shared, l.path, l.act);
    forall q ensures Conserved(cfg, es, q, t) {
      assert Conserved(cfg, es, q, s);
      StepConserves(cfg, q, s.root, s.shared, l.path, l.act);
    }
    forall x ensures Tracked(cfg, t.root, t.shared, x) <==> EntriesOwe(cfg, es, x) {
      StepTracks(cfg, s.root, s.shared, l.path, l.act, x);
    }
  }

  lemma {:induction false} RunInv(cfg: Config, es: seq<Entry>, s: Scan, run: seq<Label>)
    requires ScanInv(cfg, es, s) && CanRun(cfg, s, run)
    ensures ScanInv(cfg, es, After(cfg, s, run))
    decreases run
  {
    if run != [] {
      NextInv(cfg, es, s, run[0]);
      RunInv(cfg, es, Next(cfg, s, run[0]), run[1..]);
    }
  }

  lemma ReachableInv(cfg: Config, es: seq<Entry>, run: seq<Label>)
    requires CanRun(cfg, Init(es), run)
    ensures ScanInv(cfg, es, After(cfg, Init(es), run))
  {
    InitInv(cfg, es);
    RunInv(cfg, es, Init(es), run);
  }

  /** A call that returned nil has nothing left to do, anywhere below it. */
  lemma {:induction false} ReturnedIsDone(cfg: Config, c: Call)
    requires Inv(c) && c.pc.Returned?
    ensures forall q :: CallDue(cfg, q, c) == 0
    ensures forall x :: !CallOwes(cfg, c, x)
    ensures !AnyFailed(c)
    decreases c
  {
    assert Rest(c) == [];
    forall i | 0 <= i < |c.subs|
      ensures forall q :: SubDue(cfg, q, c.subs[i]) == 0
      ensures forall x :: !CallOwes(cfg, c.subs[i].call, x)
      ensures !AnyFailed(c.subs[i].call)
    {
      assert SubInv(c, i);
      ReturnedIsDone(cfg, c.subs[i].call);
    }
    forall q ensures CallDue(cfg, q, c) == 0 {
      NoSubsDue(cfg, q, c.subs);
    }
  }

  lemma {:induction false} NoSubsDue(cfg: Config, q: Quantity, subs: seq<Sub>)
    requires forall i :: 0 <= i < |subs| ==> SubDue(cfg, q, subs[i]) == 0
    ensures SubsDue(cfg, q, subs) == 0
  {
    if subs != [] {
      NoSubsDue(cfg, q, subs[1..]);
    }
  }

  lemma {:induction false} EntriesOweNoSlots(cfg: Config, es: seq<Entry>)
    ensures EntriesDue(cfg, Slots, es) == 0
    decreases es
  {
    if es != [] {
      if es[0].Directory? {
        EntriesOweNoSlots(cfg, es[0].entries);
      }
      EntriesOweNoSlots(cfg, es[1..]);
    }
  }

  lemma {:induction false} PcOwesNoSlots(cfg: Config, pc: Pc)
    ensures PcDue(cfg, Slots, pc) == 0
  {
    match pc {
      case AddInode(e) => EntriesOweNoSlots(cfg, Content(e));
      case Select(d) => EntriesOweNoSlots(cfg, Content(d));
      case Cancel(d) => EntriesOweNoSlots(cfg, Content(d));
      case Failed(at) => PcOwesNoSlots(cfg, at);
      case _ =>
    }
  }

  lemma {:induction false} SlotsDueIsLive(cfg: Config, c: Call)
    ensures CallDue(cfg, Slots, c) == LiveCalls(c)
    decreases c, 1
  {
    PcOwesNoSlots(cfg, c.pc);
    EntriesOweNoSlots(cfg, Rest(c));
    SubSlotsDueIsLive(cfg, c.subs);
  }

  lemma {:induction false} SubSlotsDueIsLive(cfg: Config, subs: seq<Sub>)
    ensures SubsDue(cfg, Slots, subs) == LiveSubs(subs)
    decreases subs, 0
  {
    if subs != [] {
      SubSlotDueIsLive(cfg, subs[0]);
      SubSlotsDueIsLive(cfg, subs[1..]);
    }
  }

  lemma {:induction false} SubSlotDueIsLive(cfg: Config, s: Sub)
    ensures SubDue(cfg, Slots, s) == LiveSub(s)
    decreases s, 2
  {
    SlotsDueIsLive(cfg, s.call);
  }

  // ---------------------------------------------------------------- theorems

  /** Whatever the schedule, a scan that returns nil reports what a sequential
      walk of the tree reports, every entry visited once. */
  lemma ScanRefinesWalk(cfg: Config, es: seq<Entry>, run: seq<Label>)
    requires CanRun(cfg, Init(es), run)
    requires After(cfg, Init(es), run).root.pc.Returned?
    ensures var w := WalkEntries(cfg, es, Walk(0, 0, {}));
      Result(After(cfg, Init(es), run)) == (ToInt64(Wrap(w.length)), ToInt64(Wrap(w.inodes + 1)))
  {
    var s := After(cfg, Init(es), run);
    var w := WalkEntries(cfg, es, Walk(0, 0, {}));
    ReachableInv(cfg, es, run);
    ReturnedIsDone(cfg, s.root);
    WalkSpends(cfg, es, Walk(0, 0, {}));
    forall x ensures x in s.shared.seen <==> x in w.seen {
      WalkClaims(cfg, es, Walk(0, 0, {}), x);
      assert Tracked(cfg, s.root, s.shared, x) <==> EntriesOwe(cfg, es, x);
    }
    assert s.shared.seen == w.seen;
    assert Conserved(cfg, es, Bytes, s) && Conserved(cfg, es, Dentries, s);
    WrapAdd(s.shared.dentries, 1);
  }

  /** The reported pair is the true pair exactly when both totals fit in an int64. */
  lemma ScanExactIffTotalsFit(cfg: Config, es: seq<Entry>, run: seq<Label>)
    requires CanRun(cfg, Init(es), run)
    requires After(cfg, Init(es), run).root.pc.Returned?
    ensures var w := WalkEntries(cfg, es, Walk(0, 0, {}));
      Result(After(cfg, Init(es), run)) == (w.length, w.inodes + 1)
      <==> w.length < I63 && w.inodes + 1 < I63
  {
    ScanRefinesWalk(cfg, es, run);
  }

  /** In a file-system check every multiply linked inode contributes its size
      and its one exactly once, whichever call wins the claim: the totals are
      those of the other entries plus one term per distinct linked inode. */
  lemma EachLinkCountedOnce(cfg: Config, es: seq<Entry>, links: set<nat>, run: seq<Label>)
    requires CanRun(cfg, Init(es), run)
    requires After(cfg, Init(es), run).root.pc.Returned?
    requires forall x :: x in links <==> EntriesOwe(cfg, es, x)
    ensures After(cfg, Init(es), run).shared.seen == links
    ensures After(cfg, Init(es), run).shared.bytes == EntriesDue(cfg, Bytes, es) + LinkLength(cfg, links)
    ensures After(cfg, Init(es), run).shared.dentries == EntriesDue(cfg, Dentries, es) + |links|
  {
    var s := After(cfg, Init(es), run);
    ReachableInv(cfg, es, run);
    ReturnedIsDone(cfg, s.root);
    forall x ensures x in s.shared.seen <==> x in links {
      assert Tracked(cfg, s.root, s.shared, x) <==> EntriesOwe(cfg, es, x);
    }
    assert s.shared.seen == links;
    assert Conserved(cfg, es, Bytes, s) && Conserved(cfg, es, Dentries, s);
  }

  /** Once the top-level call is over, it returned nil iff no RPC failed. */
  lemma NilIffNoRpcFailed(cfg: Config, es: seq<Entry>, run: seq<Label>)
    requires CanRun(cfg, Init(es), run)
    requires Over(After(cfg, Init(es), run).root)
    ensures After(cfg, Init(es), run).root.pc.Returned? <==> !After(cfg, Init(es), run).shared.failed
  {
    ReachableInv(cfg, es, run);
    if After(cfg, Init(es), run).root.pc.Returned? {
      ReturnedIsDone(cfg, After(cfg, Init(es), run).root);
    }
  }

  /** Slots taken are the spawned calls still running, and never more than `threads`. */
  lemma SlotsAreLiveCalls(cfg: Config, es: seq<Entry>, run: seq<Label>)
    requires CanRun(cfg, Init(es), run)
    ensures var s := After(cfg, Init(es), run);
      LiveCalls(s.root) == s.shared.tokens <= cfg.threads
  {
    var s := After(cfg, Init(es), run);
    ReachableInv(cfg, es, run);
    assert Conserved(cfg, es, Slots, s);
    SlotsDueIsLive(cfg, s.root);
    EntriesOweNoSlots(cfg, es);
  }

  /** No deadlock: until the top-level call is over, some step is enabled. */
  lemma NeverStuck(cfg: Config, es: seq<Entry>, run: seq<Label>)
    requires CanRun(cfg, Init(es), run)
    requires !Over(After(cfg, Init(es), run).root)
    ensures exists l: Label ::
      CanStep(cfg, After(cfg, Init(es), run).root, After(cfg, Init(es), run).shared, l.path, l.act)
  {
    var s := After(cfg, Init(es), run);
    ReachableInv(cfg, es, run);
    SlotsAreLiveCalls(cfg, es, run);
    var path, a := Progress(cfg, s.root, s.shared);
    assert CanStep(cfg, s.root, s.shared, Label(path, a).path, Label(path, a).act);
  }

  lemma {:induction false} RunDescends(cfg: Config, s: Scan, run: seq<Label>)
    requires CanRun(cfg, s, run)
    ensures |run| + CallSteps(After(cfg, s, run).root) <= CallSteps(s.root)
    decreases run
  {
    if run != [] {
      StepDescends(cfg, s.root, s.shared, run[0].path, run[0].act);
      RunDescends(cfg, Next(cfg, s, run[0]), run[1..]);
    }
  }

  /** Termination: no schedule has more steps than the tree allows. */
  lemma RunsAreFinite(cfg: Config, es: seq<Entry>, run: seq<Label>)
    requires CanRun(cfg, Init(es), run)
    ensures |run| <= 3 + EntriesSteps(es)
  {
    RunDescends(cfg, Init(es), run);
    NewCallSteps(es);
  }

  // ------------------------------------------------------------ a wrapped total

  lemma Prepend(cfg: Config, s: Scan, a: Act, run: seq<Label>) returns (all: seq<Label>)
    requires Enabled(cfg, s.root, s.shared, a) && CanRun(cfg, Next(cfg, s, Label([], a)), run)
    ensures CanRun(cfg, s, all) && After(cfg, s, all) == After(cfg, Next(cfg, s, Label([], a)), run)
  {
    all := [Label([], a)] + run;
    assert all[1..] == run;
  }

  /** Counting one plain file, before `run`. */
  lemma CountFile(cfg: Config, s: Scan, t: Scan, run: seq<Label>) returns (all: seq<Label>)
    requires s.root.pc.Loop? && s.root.pos < |s.root.entries| && s.root.entries[s.root.pos].File?
    requires !cfg.Linked(s.root.entries[s.root.pos].ino)
    requires var n := cfg.attr(s.root.entries[s.root.pos].ino).length;
      var g := s.shared;
      t == Scan(s.root.(pos := s.root.pos + 1),
        g.(length := Wrap(g.length + n), bytes := g.bytes + n,
           inodes := Wrap(g.inodes + 1), dentries := g.dentries + 1))
    requires CanRun(cfg, t, run)
    ensures CanRun(cfg, s, all) && After(cfg, s, all) == After(cfg, t, run)
  {
    var s1 := Next(cfg, s, Label([], NextEntry));
    var s2 := Next(cfg, s1, Label([], AttrOk));
    var s3 := Next(cfg, s2, Label([], CountLength));
    assert Next(cfg, s3, Label([], CountInode)) == t;
    all := Prepend(cfg, s3, CountInode, run);
    all := Prepend(cfg, s2, CountLength, all);
    all := Prepend(cfg, s1, AttrOk, all);
    all := Prepend(cfg, s, NextEntry, all);
  }

  const SPARSE: seq<Entry> := [File(2), File(3)]

  ghost function SparseConfig(threads: nat): Config {
    Config(_ => Attr(I63 / 2, 1), false, threads)
  }

  /** The scan of the two files, `k` of them counted. */
  function SparseScan(k: nat, pc: Pc): Scan {
    Scan(Call(SPARSE, k, pc, false, []), Shared(k * (I63 / 2), k, 0, {}, false, k * (I63 / 2), k, false))
  }

  lemma SparseEnd(cfg: Config) returns (run: seq<Label>)
    ensures CanRun(cfg, SparseScan(2, Loop), run)
    ensures After(cfg, SparseScan(2, Loop), run) == SparseScan(2, Returned)
  {
    assert Next(cfg, SparseScan(2, Loop), Label([], EndLoop)) == SparseScan(2, Wait);
    assert Next(cfg, SparseScan(2, Wait), Label([], Join)) == SparseScan(2, Returned);
    run := Prepend(cfg, SparseScan(2, Wait), Join, []);
    run := Prepend(cfg, SparseScan(2, Loop), EndLoop, run);
  }

  lemma SparseRun(cfg: Config) returns (run: seq<Label>)
    requires cfg == SparseConfig(cfg.threads)
    ensures CanRun(cfg, Init(SPARSE), run)
    ensures After(cfg, Init(SPARSE), run) == SparseScan(2, Returned)
  {
    run := SparseEnd(cfg);
    run := CountFile(cfg, SparseScan(1, Loop), SparseScan(2, Loop), run);
    run := CountFile(cfg, SparseScan(0, Loop), SparseScan(1, Loop), run);
    assert Next(cfg, Init(SPARSE), Label([], ListOk)) == SparseScan(0, Loop);
    run := Prepend(cfg, Init(SPARSE), ListOk, run);
  }

  lemma SparseWalk(cfg: Config)
    requires cfg == SparseConfig(cfg.threads)
    ensures WalkEntries(cfg, SPARSE, Walk(0, 0, {})) == Walk(I63, 2, {})
  {
    assert SPARSE[1..] == [File(3)] && [File(3)][1..] == [];
    assert WalkEntry(cfg, File(2), Walk(0, 0, {})) == Walk(I63 / 2, 1, {});
    assert WalkEntry(cfg, File(3), Walk(I63 / 2, 1, {})) == Walk(I63, 2, {});
  }

  /** Two sparse files of 2^62 bytes: the scan returns nil and a negative size. */
  lemma CountersCanWrap(threads: nat) returns (run: seq<Label>)
    ensures var cfg := SparseConfig(threads);
      && CanRun(cfg, Init(SPARSE), run) && After(cfg, Init(SPARSE), run).root.pc.Returned?
      && WalkEntries(cfg, SPARSE, Walk(0, 0, {})).length == I63
      && Result(After(cfg, Init(SPARSE), run)) == (0 - I63, 3)
  {
    run := SparseRun(SparseConfig(threads));
    SparseWalk(SparseConfig(threads));
  }
}
