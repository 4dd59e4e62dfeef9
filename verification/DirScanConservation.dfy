/**
 Conservation in the directory scan: every step moves bytes, dentries and slots
 between the tree of calls and the shared variables, and a hard-linked inode is
 at all times either claimed or still owed by some call.
 */
module DirScanConservation {
  import opened DirScan

  // ------------------------------------------------- what is still to be done

  /** The quantities a scan conserves: bytes and dentries still to be added to
      the counters, and slots held. */
  datatype Quantity = Bytes | Dentries | Slots

  /** What a file adds without a claim; a hard-linked inode adds by its claim. */
  ghost function FileDue(cfg: Config, q: Quantity, ino: nat): nat {
    if cfg.Linked(ino) then 0 else CountedDue(cfg, q, ino)
  }

  ghost function CountedDue(cfg: Config, q: Quantity, ino: nat): nat {
    match q
    case Bytes => cfg.attr(ino).length
    case Dentries => 1
    case Slots => 0
  }

  function DentryDue(q: Quantity): nat {
    if q.Dentries? then 1 else 0
  }

  ghost function EntryDue(cfg: Config, q: Quantity, e: Entry): nat
    decreases e, 1
  {
    match e
    case File(ino) => FileDue(cfg, q, ino)
    case Other(_) => DentryDue(q)
    case Directory(_, es) => DentryDue(q) + EntriesDue(cfg, q, es)
  }

  ghost function EntriesDue(cfg: Config, q: Quantity, es: seq<Entry>): nat
    decreases es, 0
  {
    if es == [] then 0 else EntryDue(cfg, q, es[0]) + EntriesDue(cfg, q, es[1..])
  }

  ghost function PcDue(cfg: Config, q: Quantity, pc: Pc): nat
    decreases pc
  {
    match pc
    case GetAttr(ino) => FileDue(cfg, q, ino)
    case AddLength(ino) => CountedDue(cfg, q, ino)
    case AddInode(e) => DentryDue(q) + EntriesDue(cfg, q, Content(e))
    case Select(d) => EntriesDue(cfg, q, Content(d))
    case Cancel(d) => EntriesDue(cfg, q, Content(d))
    case Failed(at) => PcDue(cfg, q, at)
    case _ => 0
  }

  ghost function CallDue(cfg: Config, q: Quantity, c: Call): nat
    decreases c, 1
  {
    PcDue(cfg, q, c.pc) + EntriesDue(cfg, q, Rest(c)) + SubsDue(cfg, q, c.subs)
  }

  ghost function SubDue(cfg: Config, q: Quantity, s: Sub): nat
    decreases s, 2
  {
    CallDue(cfg, q, s.call) + if q.Slots? && s.origin == Spawned(Running) then 1 else 0
  }

  ghost function SubsDue(cfg: Config, q: Quantity, subs: seq<Sub>): nat
    decreases subs, 0
  {
    if subs == [] then 0 else SubDue(cfg, q, subs[0]) + SubsDue(cfg, q, subs[1..])
  }

  /** Total size of a set of inodes. */
  ghost function Pick(s: set<nat>): nat
    requires s != {}
  {
    var x :| x in s; x
  }

  ghost function LinkLength(cfg: Config, s: set<nat>): nat {
    if s == {} then 0 else cfg.attr(Pick(s)).length + LinkLength(cfg, s - {Pick(s)})
  }

  lemma {:induction false} LinkLengthRemove(cfg: Config, s: set<nat>, y: nat)
    requires y in s
    ensures LinkLength(cfg, s) == cfg.attr(y).length + LinkLength(cfg, s - {y})
    decreases s
  {
    var z := Pick(s);
    if z != y {
      LinkLengthRemove(cfg, s - {z}, y);
      assert s - {z} - {y} == s - {y} - {z};
      LinkLengthRemove(cfg, s - {y}, z);
    }
  }

  lemma LinkLengthAdd(cfg: Config, s: set<nat>, x: nat)
    requires x !in s
    ensures LinkLength(cfg, s + {x}) == LinkLength(cfg, s) + cfg.attr(x).length
  {
    LinkLengthRemove(cfg, s + {x}, x);
    assert s + {x} - {x} == s;
  }

  // ------------------------------------------------------------- conservation

  /** What the shared variables already hold of a quantity.  A claim moves an
      inode and its size into `seen`, where they count as due. */
  ghost function Level(cfg: Config, q: Quantity, g: Shared): int {
    match q
    case Bytes => g.bytes - LinkLength(cfg, g.seen)
    case Dentries => g.dentries - |g.seen|
    case Slots => 0 - g.tokens as int
  }

  /** Replacing one sub-call changes the sum by that sub-call's part alone. */
  lemma {:induction false} SubsUpdate(cfg: Config, q: Quantity, subs: seq<Sub>, i: nat, s: Sub)
    requires i < |subs|
    ensures SubsDue(cfg, q, subs[i := s]) + SubDue(cfg, q, subs[i]) == SubsDue(cfg, q, subs) + SubDue(cfg, q, s)
    decreases i
  {
    if i == 0 {
      assert subs[0 := s][1..] == subs[1..];
    } else {
      SubsUpdate(cfg, q, subs[1..], i - 1, s);
      assert subs[i := s][1..] == subs[1..][i - 1 := s];
    }
  }

  lemma {:induction false} SubsAppend(cfg: Config, q: Quantity, subs: seq<Sub>, s: Sub)
    ensures SubsDue(cfg, q, subs + [s]) == SubsDue(cfg, q, subs) + SubDue(cfg, q, s)
  {
    if subs == [] {
      assert [] + [s] == [s];
    } else {
      assert (subs + [s])[1..] == subs[1..] + [s];
      SubsAppend(cfg, q, subs[1..], s);
    }
  }

  /** A call just made owes exactly the content of its directory. */
  lemma NewCallDue(cfg: Config, q: Quantity, es: seq<Entry>)
    ensures CallDue(cfg, q, NewCall(es)) == EntriesDue(cfg, q, es)
  {
    assert es[0..] == es;
  }

  lemma EntriesDueCons(cfg: Config, q: Quantity, e: Entry, es: seq<Entry>)
    ensures EntriesDue(cfg, q, [e] + es) == EntryDue(cfg, q, e) + EntriesDue(cfg, q, es)
  {
    assert ([e] + es)[1..] == es;
  }

  /** Entering the loop body for an entry takes over what the entry owes. */
  lemma DispatchDue(cfg: Config, q: Quantity, e: Entry)
    ensures PcDue(cfg, q, Dispatch(e)) == EntryDue(cfg, q, e)
  {
  }

  lemma NextEntryConserves(cfg: Config, q: Quantity, c: Call, g: Shared)
    requires Enabled(cfg, c, g, NextEntry)
    ensures CallDue(cfg, q, Fire(cfg, c, g, NextEntry).0) == CallDue(cfg, q, c)
  {
    var c' := Fire(cfg, c, g, NextEntry).0;
    DispatchDue(cfg, q, c.entries[c.pos]);
    assert Rest(c) == [c.entries[c.pos]] + Rest(c');
    EntriesDueCons(cfg, q, c.entries[c.pos], Rest(c'));
  }

  /** Winning LoadOrStore turns an open claim into a size still to be added. */
  lemma WinConserves(cfg: Config, q: Quantity, g: Shared, ino: nat)
    requires ino !in g.seen
    ensures Level(cfg, q, g.(seen := g.seen + {ino})) + PcDue(cfg, q, AddLength(ino)) == Level(cfg, q, g)
  {
    LinkLengthAdd(cfg, g.seen, ino);
  }

  lemma ClaimConserves(cfg: Config, q: Quantity, c: Call, g: Shared)
    requires Enabled(cfg, c, g, ClaimLink)
    ensures var (c', g') := Fire(cfg, c, g, ClaimLink);
      Level(cfg, q, g') + CallDue(cfg, q, c') == Level(cfg, q, g) + CallDue(cfg, q, c)
  {
    var (c', g') := Fire(cfg, c, g, ClaimLink);
    if c.pc.ino !in g.seen {
      WinConserves(cfg, q, g, c.pc.ino);
    }
    assert Rest(c') == Rest(c) && c'.subs == c.subs;
  }

  lemma CounterConserves(cfg: Config, q: Quantity, c: Call, g: Shared, a: Act)
    requires Enabled(cfg, c, g, a)
    requires a.CountLength? || a.CountInode?
    ensures var (c', g') := Fire(cfg, c, g, a);
      Level(cfg, q, g') + CallDue(cfg, q, c') == Level(cfg, q, g) + CallDue(cfg, q, c)
  {
  }

  lemma SubCallConserves(cfg: Config, q: Quantity, c: Call, g: Shared, a: Act)
    requires Enabled(cfg, c, g, a)
    requires a.Spawn? || a.CallInline?
    ensures var (c', g') := Fire(cfg, c, g, a);
      Level(cfg, q, g') + CallDue(cfg, q, c') == Level(cfg, q, g) + CallDue(cfg, q, c)
  {
    var (c', g') := Fire(cfg, c, g, a);
    var s := c'.subs[|c.subs|];
    assert c'.subs == c.subs + [s] && Rest(c') == Rest(c);
    SubsAppend(cfg, q, c.subs, s);
    NewCallDue(cfg, q, c.pc.dir.entries);
    assert PcDue(cfg, q, c'.pc) == 0 && PcDue(cfg, q, c.pc) == CallDue(cfg, q, s.call);
  }

  lemma EpilogueConserves(cfg: Config, q: Quantity, c: Call, g: Shared, a: Act)
    requires Enabled(cfg, c, g, a)
    requires Epilogue(a)
    ensures var (c', g') := Fire(cfg, c, g, a);
      Level(cfg, q, g') + CallDue(cfg, q, c') == Level(cfg, q, g) + CallDue(cfg, q, c)
  {
    var (c', g') := Fire(cfg, c, g, a);
    SubsUpdate(cfg, q, c.subs, a.i, c'.subs[a.i]);
  }

  lemma FireConserves(cfg: Config, q: Quantity, c: Call, g: Shared, a: Act)
    requires Enabled(cfg, c, g, a)
    ensures var (c', g') := Fire(cfg, c, g, a);
      Level(cfg, q, g') + CallDue(cfg, q, c') == Level(cfg, q, g) + CallDue(cfg, q, c)
  {
    if a.NextEntry? {
      NextEntryConserves(cfg, q, c, g);
    } else if a.Spawn? || a.CallInline? {
      SubCallConserves(cfg, q, c, g, a);
    } else if Epilogue(a) {
      EpilogueConserves(cfg, q, c, g, a);
    } else if a.ClaimLink? {
      ClaimConserves(cfg, q, c, g);
    } else if a.CountLength? || a.CountInode? {
      CounterConserves(cfg, q, c, g, a);
    }
  }

  lemma {:induction false} StepConserves(cfg: Config, q: Quantity, c: Call, g: Shared, path: seq<nat>, a: Act)
    requires CanStep(cfg, c, g, path, a)
    ensures var (c', g') := Step(cfg, c, g, path, a);
      Level(cfg, q, g') + CallDue(cfg, q, c') == Level(cfg, q, g) + CallDue(cfg, q, c)
    decreases path
  {
    if path == [] {
      FireConserves(cfg, q, c, g, a);
    } else {
      var i := path[0];
      StepConserves(cfg, q, c.subs[i].call, g, path[1..], a);
      var (c', g') := Step(cfg, c, g, path, a);
      SubsUpdate(cfg, q, c.subs, i, c'.subs[i]);
    }
  }

  // ---------------------------------------------- hard-linked inodes to claim

  ghost predicate EntryOwes(cfg: Config, e: Entry, x: nat)
    decreases e, 1
  {
    match e
    case File(ino) => cfg.Linked(ino) && ino == x
    case Other(_) => false
    case Directory(_, es) => EntriesOwe(cfg, es, x)
  }

  /** Whether hard-linked inode `x` occurs below these entries. */
  ghost predicate EntriesOwe(cfg: Config, es: seq<Entry>, x: nat)
    decreases es, 0
  {
    exists i :: 0 <= i < |es| && EntryOwes(cfg, es[i], x)
  }

  ghost predicate PcOwes(cfg: Config, pc: Pc, x: nat)
    decreases pc
  {
    match pc
    case GetAttr(ino) => cfg.Linked(ino) && ino == x
    case Claim(ino) => ino == x
    case AddInode(e) => EntriesOwe(cfg, Content(e), x)
    case Select(d) => EntriesOwe(cfg, Content(d), x)
    case Cancel(d) => EntriesOwe(cfg, Content(d), x)
    case Failed(at) => PcOwes(cfg, at, x)
    case _ => false
  }

  ghost predicate CallOwes(cfg: Config, c: Call, x: nat)
    decreases c
  {
    || PcOwes(cfg, c.pc, x)
    || EntriesOwe(cfg, Rest(c), x)
    || exists i :: 0 <= i < |c.subs| && CallOwes(cfg, c.subs[i].call, x)
  }

  /** An inode to be claimed is either claimed or still owed by some call. */
  ghost predicate Tracked(cfg: Config, c: Call, g: Shared, x: nat) {
    x in g.seen || CallOwes(cfg, c, x)
  }

  lemma NextEntryTracks(cfg: Config, c: Call, g: Shared, x: nat)
    requires Enabled(cfg, c, g, NextEntry)
    ensures CallOwes(cfg, Fire(cfg, c, g, NextEntry).0, x) <==> CallOwes(cfg, c, x)
  {
    var c' := Fire(cfg, c, g, NextEntry).0;
    var e := c.entries[c.pos];
    assert Rest(c) == [e] + Rest(c');
    assert EntryOwes(cfg, e, x) <==> PcOwes(cfg, c'.pc, x);
    assert EntriesOwe(cfg, Rest(c), x) <==> EntryOwes(cfg, e, x) || EntriesOwe(cfg, Rest(c'), x) by {
      if EntryOwes(cfg, e, x) {
        assert EntryOwes(cfg, Rest(c)[0], x);
      }
      if EntriesOwe(cfg, Rest(c'), x) {
        var i :| 0 <= i < |Rest(c')| && EntryOwes(cfg, Rest(c')[i], x);
        assert EntryOwes(cfg, Rest(c)[i + 1], x);
      }
    }
    assert c'.subs == c.subs;
  }

  lemma SubCallTracks(cfg: Config, c: Call, g: Shared, a: Act, x: nat)
    requires Enabled(cfg, c, g, a)
    requires a.Spawn? || a.CallInline?
    ensures CallOwes(cfg, Fire(cfg, c, g, a).0, x) <==> CallOwes(cfg, c, x)
  {
    var c' := Fire(cfg, c, g, a).0;
    var s := c'.subs[|c.subs|];
    assert Rest(s.call) == c.pc.dir.entries && Rest(c') == Rest(c);
    assert CallOwes(cfg, s.call, x) <==> PcOwes(cfg, c.pc, x);
    forall i | 0 <= i < |c.subs| ensures c'.subs[i] == c.subs[i] {
    }
  }

  lemma EpilogueTracks(cfg: Config, c: Call, g: Shared, a: Act, x: nat)
    requires Enabled(cfg, c, g, a) && Epilogue(a)
    ensures CallOwes(cfg, Fire(cfg, c, g, a).0, x) <==> CallOwes(cfg, c, x)
  {
    var c' := Fire(cfg, c, g, a).0;
    assert Rest(c') == Rest(c) && c'.pc == c.pc;
    assert forall i :: 0 <= i < |c.subs| ==> c'.subs[i].call == c.subs[i].call;
  }

  lemma FireTracks(cfg: Config, c: Call, g: Shared, a: Act, x: nat)
    requires Enabled(cfg, c, g, a)
    ensures var (c', g') := Fire(cfg, c, g, a);
      Tracked(cfg, c', g', x) <==> Tracked(cfg, c, g, x)
  {
    var (c', g') := Fire(cfg, c, g, a);
    if a.NextEntry? {
      NextEntryTracks(cfg, c, g, x);
    } else if a.Spawn? || a.CallInline? {
      SubCallTracks(cfg, c, g, a, x);
    } else if Epilogue(a) {
      EpilogueTracks(cfg, c, g, a, x);
    } else {
      assert Rest(c') == Rest(c) && c'.subs == c.subs;
    }
  }

  /** Two calls that differ in one sub-call only. */
  lemma OwesThrough(cfg: Config, c: Call, c': Call, i: nat, x: nat)
    requires c'.pc == c.pc && Rest(c') == Rest(c) && |c'.subs| == |c.subs| && i < |c.subs|
    requires forall j :: 0 <= j < |c.subs| && j != i ==> c'.subs[j] == c.subs[j]
    ensures CallOwes(cfg, c, x) || CallOwes(cfg, c'.subs[i].call, x) <==>
            CallOwes(cfg, c', x) || CallOwes(cfg, c.subs[i].call, x)
    ensures CallOwes(cfg, c.subs[i].call, x) ==> CallOwes(cfg, c, x)
    ensures CallOwes(cfg, c'.subs[i].call, x) ==> CallOwes(cfg, c', x)
  {
  }

  lemma {:induction false} StepTracks(cfg: Config, c: Call, g: Shared, path: seq<nat>, a: Act, x: nat)
    requires CanStep(cfg, c, g, path, a)
    ensures var (c', g') := Step(cfg, c, g, path, a);
      && (Tracked(cfg, c', g', x) <==> Tracked(cfg, c, g, x))
      && g.seen <= g'.seen
    decreases path
  {
    if path == [] {
      FireTracks(cfg, c, g, a, x);
    } else {
      var i := path[0];
      StepTracks(cfg, c.subs[i].call, g, path[1..], a, x);
      var (c', g') := Step(cfg, c, g, path, a);
      assert Rest(c') == Rest(c) && c'.pc == c.pc;
      OwesThrough(cfg, c, c', i, x);
    }
  }

  /** The walk from `w` to `w'` spends what was due and claims what was owed. */
  ghost predicate Spent(cfg: Config, bytes: nat, dentries: nat, w: Walk, w': Walk) {
    && w'.length + LinkLength(cfg, w.seen) == w.length + bytes + LinkLength(cfg, w'.seen)
    && w'.inodes + |w.seen| == w.inodes + dentries + |w'.seen|
  }

  lemma WalkFileSpends(cfg: Config, ino: nat, w: Walk)
    ensures Spent(cfg, FileDue(cfg, Bytes, ino), FileDue(cfg, Dentries, ino), w, WalkFile(cfg, ino, w))
  {
    if ino !in w.seen {
      LinkLengthAdd(cfg, w.seen, ino);
    }
  }

  lemma {:induction false} WalkSpends(cfg: Config, es: seq<Entry>, w: Walk)
    ensures Spent(cfg, EntriesDue(cfg, Bytes, es), EntriesDue(cfg, Dentries, es), w, WalkEntries(cfg, es, w))
    decreases es
  {
    if es != [] {
      var e := es[0];
      match e {
        case File(ino) => WalkFileSpends(cfg, ino, w);
        case Other(_) =>
        case Directory(_, ds) => WalkSpends(cfg, ds, w.(inodes := w.inodes + 1));
      }
      WalkSpends(cfg, es[1..], WalkEntry(cfg, e, w));
    }
  }

  lemma {:induction false} WalkClaims(cfg: Config, es: seq<Entry>, w: Walk, x: nat)
    ensures x in WalkEntries(cfg, es, w).seen <==> x in w.seen || EntriesOwe(cfg, es, x)
    decreases es
  {
    if es != [] {
      var e := es[0];
      assert x in WalkEntry(cfg, e, w).seen <==> x in w.seen || EntryOwes(cfg, e, x) by {
        if e.Directory? {
          WalkClaims(cfg, e.entries, w.(inodes := w.inodes + 1), x);
        }
      }
      WalkClaims(cfg, es[1..], WalkEntry(cfg, e, w), x);
      OweCons(cfg, es, x);
    }
  }

  lemma OweCons(cfg: Config, es: seq<Entry>, x: nat)
    requires es != []
    ensures EntriesOwe(cfg, es, x) <==> EntryOwes(cfg, es[0], x) || EntriesOwe(cfg, es[1..], x)
  {
    if EntriesOwe(cfg, es[1..], x) {
      var i :| 0 <= i < |es[1..]| && EntryOwes(cfg, es[1..][i], x);
      assert EntryOwes(cfg, es[i + 1], x);
    }
    if EntriesOwe(cfg, es, x) && !EntryOwes(cfg, es[0], x) {
      var i :| 0 <= i < |es| && EntryOwes(cfg, es[i], x);
      assert EntryOwes(cfg, es[1..][i - 1], x);
    }
  }
}
