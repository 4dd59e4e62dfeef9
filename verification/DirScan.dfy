/**
 The concurrent directory usage scan of internal/rpc/operator.go.

 GetDirSummarySize walks a directory tree.  For each sub-directory it forks a
 goroutine when a slot of the channel `concurrent` is free and otherwise calls
 itself inline.  Every call owns an error channel of capacity one; all calls
 share two atomic counters, the set of hard-linked inodes already counted, the
 slots and a cancellation flag.

 The scan is a state machine.  Its state is the tree of all calls made so far
 together with the shared variables; a step names one call (by its path in that
 tree) and one atomic action of that call.  The scheduler is any sequence of
 enabled steps, and every RPC may fail at any time.
 */
module DirScan {

  // ---------------------------------------------------------------- the tree

  datatype Attr = Attr(length: nat, nlink: nat)

  /** A directory entry.  `Other` is everything that is neither a file nor a
      directory.  The tree does not change during a scan. */
  datatype Entry =
    | File(ino: nat)
    | Directory(ino: nat, entries: seq<Entry>)
    | Other(ino: nat)

  /** What is fixed during one scan: the attributes GetInode returns, whether
      this is a file-system check, and the capacity of `concurrent`. */
  datatype Config = Config(attr: nat -> Attr, fsCheck: bool, threads: nat)
  {
    /** A file that the check counts only once, however many names it has. */
    ghost predicate Linked(ino: nat) {
      fsCheck && attr(ino).nlink >= 2
    }
  }

  // --------------------------------------------------------------- the state

  /** Where a call stands.  `Failed(at)` is a call that returned an error while
      it stood at `at`. */
  datatype Pc =
    | Start
    | Loop
    | GetAttr(ino: nat)
    | Claim(ino: nat)
    | AddLength(ino: nat)
    | AddInode(entry: Entry)
    | Select(dir: Entry)
    | Cancel(dir: Entry)
    | Inline
    | Wait
    | Returned
    | Failed(at: Pc)

  /** What the goroutine around a spawned call has done: nothing yet, given its
      slot back, reported to the parent's error channel, signalled the wait group. */
  datatype Phase = Running | Released | Reported | Joined

  datatype Origin = InlineCall | Spawned(phase: Phase)

  /** One call: the listing, the index of the next entry, the program counter,
      whether an error sits in its channel, and the calls it has made. */
  datatype Call = Call(entries: seq<Entry>, pos: nat, pc: Pc, errCh: bool, subs: seq<Sub>)

  datatype Sub = Sub(call: Call, origin: Origin)

  /** The shared variables.  `length` and `inodes` are the 64-bit counters.  The
      last three are history: what was added to the counters without wrapping,
      and whether some RPC has failed. */
  datatype Shared = Shared(
    length: nat, inodes: nat,
    tokens: nat, seen: set<nat>, cancelled: bool,
    bytes: nat, dentries: nat, failed: bool)

  datatype Scan = Scan(root: Call, shared: Shared)

  const U64: nat := 0x1_0000_0000_0000_0000
  const I63: nat := 0x8000_0000_0000_0000

  function Wrap(n: nat): nat { n % U64 }

  /** Go's conversion of a uint64 to an int64. */
  function ToInt64(n: nat): int { if n < I63 then n else n - U64 }

  function NewCall(entries: seq<Entry>): Call {
    Call(entries, 0, Start, false, [])
  }

  function Init(entries: seq<Entry>): Scan {
    Scan(NewCall(entries), Shared(0, 0, 0, {}, false, 0, 0, false))
  }

  /** What a directory still to be scanned holds; nothing for other entries. */
  function Content(e: Entry): seq<Entry> {
    if e.Directory? then e.entries else []
  }

  /** The entries a call has not dispatched yet. */
  function Rest(c: Call): seq<Entry> {
    if c.pos <= |c.entries| then c.entries[c.pos..] else []
  }

  ghost predicate Over(c: Call) {
    c.pc.Returned? || c.pc.Failed?
  }

  // --------------------------------------------------------------- the steps

  datatype Act =
    | ListOk | ListFail
    | NextEntry | EndLoop
    | AttrOk | AttrFail
    | ClaimLink | CountLength | CountInode
    | TakeError | CancelScan | SeeCancelled | Spawn | CallInline
    | InlineReturns
    | Join
    | Release(i: nat) | Report(i: nat) | SignalDone(i: nat)

  /** The actions of the goroutine around a spawned sub-call. */
  ghost predicate Epilogue(a: Act) {
    a.Release? || a.Report? || a.SignalDone?
  }

  ghost predicate InPhase(c: Call, i: nat, phase: Phase) {
    i < |c.subs| && c.subs[i].origin == Spawned(phase)
  }

  /** The select statement takes its default branch only if no other is ready. */
  ghost predicate Enabled(cfg: Config, c: Call, g: Shared, a: Act) {
    match a
    case ListOk => c.pc.Start?
    case ListFail => c.pc.Start?
    case NextEntry => c.pc.Loop? && c.pos < |c.entries|
    case EndLoop => c.pc.Loop? && c.pos == |c.entries|
    case AttrOk => c.pc.GetAttr?
    case AttrFail => c.pc.GetAttr?
    case ClaimLink => c.pc.Claim?
    case CountLength => c.pc.AddLength?
    case CountInode => c.pc.AddInode?
    case TakeError => c.pc.Select? && c.errCh
    case CancelScan => c.pc.Cancel?
    case SeeCancelled => c.pc.Select? && g.cancelled
    case Spawn => c.pc.Select? && c.pc.dir.Directory? && g.tokens < cfg.threads
    case CallInline => c.pc.Select? && c.pc.dir.Directory? && !c.errCh && !g.cancelled && g.tokens >= cfg.threads
    case InlineReturns => c.pc.Inline? && c.subs != [] && Over(c.subs[|c.subs| - 1].call)
    case Join =>
      && c.pc.Wait?
      && forall i :: 0 <= i < |c.subs| && c.subs[i].origin.Spawned? ==> c.subs[i].origin.phase.Joined?
    case Release(i) => InPhase(c, i, Running) && Over(c.subs[i].call) && g.tokens > 0
    case Report(i) => InPhase(c, i, Released)
    case SignalDone(i) => InPhase(c, i, Reported)
  }

  ghost function Fail(c: Call, g: Shared): (Call, Shared) {
    (c.(pc := Failed(c.pc)), g.(failed := true))
  }

  /** The first thing the loop body does with an entry. */
  function Dispatch(e: Entry): Pc {
    if e.File? then GetAttr(e.ino) else AddInode(e)
  }

  ghost function SetPhase(c: Call, i: nat, phase: Phase): Call
    requires i < |c.subs|
  {
    c.(subs := c.subs[i := c.subs[i].(origin := Spawned(phase))])
  }

  /** One atomic action of one call. */
  ghost function Fire(cfg: Config, c: Call, g: Shared, a: Act): (r: (Call, Shared))
    requires Enabled(cfg, c, g, a)
  {
    match a
    case ListOk => (c.(pc := Loop), g)
    case ListFail => Fail(c, g)
    case NextEntry =>
      (c.(pos := c.pos + 1, pc := Dispatch(c.entries[c.pos])), g)
    case EndLoop => (c.(pc := Wait), g)
    case AttrOk =>
      (c.(pc := if cfg.Linked(c.pc.ino) then Claim(c.pc.ino) else AddLength(c.pc.ino)), g)
    case AttrFail => Fail(c, g)
    case ClaimLink =>
      if c.pc.ino in g.seen then (c.(pc := Loop), g)
      else (c.(pc := AddLength(c.pc.ino)), g.(seen := g.seen + {c.pc.ino}))
    case CountLength =>
      var n := cfg.attr(c.pc.ino).length;
      (c.(pc := AddInode(File(c.pc.ino))), g.(length := Wrap(g.length + n), bytes := g.bytes + n))
    case CountInode =>
      (c.(pc := if c.pc.entry.Directory? then Select(c.pc.entry) else Loop),
       g.(inodes := Wrap(g.inodes + 1), dentries := g.dentries + 1))
    case TakeError => (c.(pc := Cancel(c.pc.dir), errCh := false), g)
    case CancelScan => (c.(pc := Failed(c.pc)), g.(cancelled := true))
    case SeeCancelled => (c.(pc := Failed(c.pc)), g)
    case Spawn =>
      (c.(pc := Loop, subs := c.subs + [Sub(NewCall(c.pc.dir.entries), Spawned(Running))]),
       g.(tokens := g.tokens + 1))
    case CallInline =>
      (c.(pc := Inline, subs := c.subs + [Sub(NewCall(c.pc.dir.entries), InlineCall)]), g)
    case InlineReturns =>
      (c.(pc := if c.subs[|c.subs| - 1].call.pc.Returned? then Loop else Failed(Inline)), g)
    case Join =>
      if c.errCh then (c.(pc := Failed(Wait), errCh := false), g) else (c.(pc := Returned), g)
    case Release(i) => (SetPhase(c, i, Released), g.(tokens := g.tokens - 1))
    case Report(i) =>
      (SetPhase(c, i, Reported).(errCh := c.errCh || c.subs[i].call.pc.Failed?), g)
    case SignalDone(i) => (SetPhase(c, i, Joined), g)
  }

  /** A step of the call that `path` leads to from `c`. */
  ghost predicate CanStep(cfg: Config, c: Call, g: Shared, path: seq<nat>, a: Act)
    decreases path
  {
    if path == [] then Enabled(cfg, c, g, a)
    else path[0] < |c.subs| && CanStep(cfg, c.subs[path[0]].call, g, path[1..], a)
  }

  ghost function Step(cfg: Config, c: Call, g: Shared, path: seq<nat>, a: Act): (r: (Call, Shared))
    requires CanStep(cfg, c, g, path, a)
    decreases path
  {
    if path == [] then Fire(cfg, c, g, a)
    else
      var i := path[0];
      var (d, h) := Step(cfg, c.subs[i].call, g, path[1..], a);
      (c.(subs := c.subs[i := c.subs[i].(call := d)]), h)
  }

  datatype Label = Label(path: seq<nat>, act: Act)

  ghost predicate CanRun(cfg: Config, s: Scan, run: seq<Label>)
    decreases run
  {
    run == [] ||
    (CanStep(cfg, s.root, s.shared, run[0].path, run[0].act) &&
     CanRun(cfg, Next(cfg, s, run[0]), run[1..]))
  }

  ghost function Next(cfg: Config, s: Scan, l: Label): Scan
    requires CanStep(cfg, s.root, s.shared, l.path, l.act)
  {
    var (c, g) := Step(cfg, s.root, s.shared, l.path, l.act);
    Scan(c, g)
  }

  ghost function After(cfg: Config, s: Scan, run: seq<Label>): Scan
    requires CanRun(cfg, s, run)
    decreases run
  {
    if run == [] then s else After(cfg, Next(cfg, s, run[0]), run[1..])
  }

  // ------------------------------------------------------- the sequential walk

  /** What a single-threaded walk of the same tree has counted so far. */
  datatype Walk = Walk(length: nat, inodes: nat, seen: set<nat>)

  ghost function WalkFile(cfg: Config, ino: nat, w: Walk): Walk {
    if !cfg.Linked(ino) then Walk(w.length + cfg.attr(ino).length, w.inodes + 1, w.seen)
    else if ino in w.seen then w
    else Walk(w.length + cfg.attr(ino).length, w.inodes + 1, w.seen + {ino})
  }

  ghost function WalkEntry(cfg: Config, e: Entry, w: Walk): Walk
    decreases e, 1
  {
    match e
    case File(ino) => WalkFile(cfg, ino, w)
    case Other(_) => w.(inodes := w.inodes + 1)
    case Directory(_, es) => WalkEntries(cfg, es, w.(inodes := w.inodes + 1))
  }

  ghost function WalkEntries(cfg: Config, es: seq<Entry>, w: Walk): Walk
    decreases es, 0
  {
    if es == [] then w else WalkEntries(cfg, es[1..], WalkEntry(cfg, es[0], w))
  }

  /** What GetDirectorySizeAndInodes returns when the scan returned nil: the root
      directory itself is added to the inode counter. */
  function Result(s: Scan): (int, int) {
    (ToInt64(s.shared.length), ToInt64(Wrap(s.shared.inodes + 1)))
  }
}
