/**
 Execute of internal/tasks/tasks.go: a dispatcher takes a slot for each task in
 turn and forks a worker; the worker runs the task, records the result, moves the
 progress bar, gives the slot back and signals the wait group.  When all workers
 have signalled the dispatcher sets the status of the main bar and returns the
 monitor's error.

 The pool is a state machine over the atomic actions of the dispatcher and the
 workers; the scheduler is any sequence of enabled actions.
 */
module TaskPool {
  import opened TaskMonitor

  /** The task list (parent id and eventual outcome of each task) and the options
      after initOptions. */
  datatype Config = Config(ptids: seq<nat>, outcomes: seq<Outcome>, concurrency: nat, showMain: bool, showSub: bool)
  {
    ghost predicate Valid() {
      |ptids| == |outcomes| && concurrency > 0
    }
  }

  /** initOptions */
  function Concurrency(option: nat): (n: nat)
    ensures n > 0 && (option > 0 ==> n == option)
    ensures option == 0 ==> n == 10
  {
    if option == 0 then 10 else option
  }

  datatype Dispatcher = Acquire | AddBar | Fork | Joining | Finished

  datatype Phase = Idle | Fetch | Run | Report | Increment | Release | Signal | Ended

  datatype Bar = Bar(id: nat, total: nat, current: nat)

  /** `runs` counts how often each task was executed. */
  datatype Pool = Pool(next: nat, disp: Dispatcher, phases: seq<Phase>, tokens: nat,
                       bars: map<nat, Bar>, board: Board, runs: seq<nat>)

  function Init(cfg: Config): Pool {
    var n := |cfg.ptids|;
    Pool(0, if n == 0 then Finished else Acquire, seq(n, _ => Idle), 0, map[], EMPTY, seq(n, _ => 0))
  }

  datatype Act = TakeSlot | EnsureBar | Start | Join | Work(i: nat)

  /** Tasks below one parent id. */
  ghost function TasksOf(cfg: Config, p: nat): set<nat> {
    set i | 0 <= i < |cfg.ptids| && cfg.ptids[i] == p
  }

  /** CountPtid */
  method CountPtid(ptids: seq<nat>, p: nat) returns (sum: nat)
    ensures sum == |set i | 0 <= i < |ptids| && ptids[i] == p|
  {
    sum := 0;
    for j := 0 to |ptids|
      invariant sum == |set i | 0 <= i < j && ptids[i] == p|
    {
      ghost var now, next := set i | 0 <= i < j && ptids[i] == p, set i | 0 <= i < j + 1 && ptids[i] == p;
      assert next == if ptids[j] == p then now + {j} else now;
      if ptids[j] == p {
        sum := sum + 1;
      }
    }
  }

  /** The id of the main bar is 0; without it sub bars start at 0. */
  function FirstBar(cfg: Config): nat {
    if cfg.showMain then 1 else 0
  }

  /** The bar id a worker reports to: its sub bar, or 0 when there is none. */
  function BarOf(cfg: Config, bars: map<nat, Bar>, i: nat): nat
    requires i < |cfg.ptids|
  {
    if cfg.ptids[i] in bars then bars[cfg.ptids[i]].id else 0
  }

  ghost predicate Enabled(cfg: Config, s: Pool, a: Act)
    requires cfg.Valid()
  {
    match a
    case TakeSlot => s.disp.Acquire? && s.tokens < cfg.concurrency
    case EnsureBar => s.disp.AddBar? && s.next < |cfg.ptids|
    case Start => s.disp.Fork? && s.next < |s.phases|
    case Join => s.disp.Joining? && forall i :: 0 <= i < |s.phases| ==> s.phases[i].Ended?
    case Work(i) =>
      i < |s.phases| && i < |cfg.ptids| && i < |s.runs| && !s.phases[i].Idle? && !s.phases[i].Ended? &&
      (s.phases[i].Release? ==> s.tokens > 0)
  }

  /** The next action of worker `i`. */
  ghost function Advance(cfg: Config, s: Pool, i: nat): Pool
    requires cfg.Valid() && Enabled(cfg, s, Work(i))
  {
    var p := cfg.ptids[i];
    match s.phases[i]
    case Fetch => s.(phases := s.phases[i := Run])
    case Run => s.(phases := s.phases[i := Report], runs := s.runs[i := s.runs[i] + 1])
    case Report =>
      s.(phases := s.phases[i := Increment], board := Record(s.board, BarOf(cfg, s.bars, i), cfg.outcomes[i]))
    case Increment =>
      s.(phases := s.phases[i := Release],
         bars := if p in s.bars then s.bars[p := s.bars[p].(current := s.bars[p].current + 1)] else s.bars)
    case Release => s.(phases := s.phases[i := Signal], tokens := s.tokens - 1)
    case Signal => s.(phases := s.phases[i := Ended])
    case _ => s
  }

  ghost function BarIds(bars: map<nat, Bar>): set<nat> {
    set p | p in bars :: bars[p].id
  }

  /** setMainBarStatus, if there is a main bar. */
  ghost function Close(cfg: Config, b: Board, bars: map<nat, Bar>): Board {
    if cfg.showMain then Record(b, 0, MainOutcome(b, BarIds(bars))) else b
  }

  ghost function Next(cfg: Config, s: Pool, a: Act): Pool
    requires cfg.Valid() && Enabled(cfg, s, a)
  {
    match a
    case TakeSlot => s.(disp := AddBar, tokens := s.tokens + 1)
    case EnsureBar =>
      var p := cfg.ptids[s.next];
      s.(disp := Fork,
         bars := if !cfg.showSub || p in s.bars then s.bars
                 else s.bars[p := Bar(FirstBar(cfg) + |s.bars|, |TasksOf(cfg, p)|, 0)])
    case Start =>
      s.(next := s.next + 1, phases := s.phases[s.next := Fetch],
         disp := if s.next + 1 == |cfg.ptids| then Joining else Acquire)
    case Join => s.(disp := Finished, board := Close(cfg, s.board, s.bars))
    case Work(i) => Advance(cfg, s, i)
  }

  ghost predicate CanRun(cfg: Config, s: Pool, run: seq<Act>)
    requires cfg.Valid()
    decreases run
  {
    run == [] || (Enabled(cfg, s, run[0]) && CanRun(cfg, Next(cfg, s, run[0]), run[1..]))
  }

  ghost function After(cfg: Config, s: Pool, run: seq<Act>): Pool
    requires cfg.Valid() && CanRun(cfg, s, run)
    decreases run
  {
    if run == [] then s else After(cfg, Next(cfg, s, run[0]), run[1..])
  }

  // -------------------------------------------------------------- invariants

  predicate HoldsSlot(p: Phase) {
    p.Fetch? || p.Run? || p.Report? || p.Increment? || p.Release?
  }

  predicate HasRun(p: Phase) {
    p.Report? || HasReported(p)
  }

  predicate HasReported(p: Phase) {
    p.Increment? || HasMoved(p)
  }

  predicate HasMoved(p: Phase) {
    p.Release? || p.Signal? || p.Ended?
  }

  /** Tasks in flight. */
  ghost function Holders(s: Pool): set<nat> {
    set i | 0 <= i < |s.phases| && HoldsSlot(s.phases[i])
  }

  ghost function Reported(cfg: Config, s: Pool, bid: nat, o: Outcome): set<nat>
    requires cfg.Valid() && |s.phases| == |cfg.ptids|
  {
    set i | 0 <= i < |s.phases| && HasReported(s.phases[i]) && BarOf(cfg, s.bars, i) == bid && cfg.outcomes[i] == o
  }

  ghost function Moved(cfg: Config, s: Pool, p: nat): set<nat>
    requires |s.phases| == |cfg.ptids|
  {
    set i | 0 <= i < |s.phases| && cfg.ptids[i] == p && HasMoved(s.phases[i])
  }

  ghost predicate Shape(cfg: Config, s: Pool) {
    && |s.phases| == |s.runs| == |cfg.ptids|
    && s.next <= |cfg.ptids|
    && (forall i :: 0 <= i < |s.phases| ==> (s.phases[i].Idle? <==> i >= s.next))
    && (s.disp.Acquire? || s.disp.AddBar? || s.disp.Fork? ==> s.next < |cfg.ptids|)
    && (s.disp.Joining? || s.disp.Finished? ==> s.next == |cfg.ptids|)
    && (s.disp.Joining? ==> |cfg.ptids| > 0)
    && (s.disp.Finished? ==> forall i :: 0 <= i < |s.phases| ==> s.phases[i].Ended?)
    && forall i :: 0 <= i < |s.runs| ==> s.runs[i] == if HasRun(s.phases[i]) then 1 else 0
  }

  ghost predicate Slots(cfg: Config, s: Pool) {
    s.tokens == |Holders(s)| + (if s.disp.AddBar? || s.disp.Fork? then 1 else 0) <= cfg.concurrency
  }

  /** Every task that was started has its bar. */
  ghost predicate BarKeys(cfg: Config, s: Pool)
    requires |s.phases| == |cfg.ptids|
  {
    && (!cfg.showSub ==> s.bars == map[])
    && (cfg.showSub ==> forall i :: 0 <= i < |cfg.ptids| && (!s.phases[i].Idle? || (s.disp.Fork? && i == s.next)) ==>
          cfg.ptids[i] in s.bars)
  }

  /** Bars have ids of their own, none the main bar's. */
  ghost predicate BarIdsUnique(cfg: Config, bars: map<nat, Bar>) {
    && (forall p :: p in bars ==> FirstBar(cfg) <= bars[p].id < FirstBar(cfg) + |bars|)
    && forall p, q :: p in bars && q in bars && bars[p].id == bars[q].id ==> p == q
  }

  ghost predicate BarCounts(cfg: Config, s: Pool)
    requires |s.phases| == |cfg.ptids|
  {
    forall p :: p in s.bars ==> s.bars[p].total == |TasksOf(cfg, p)| && s.bars[p].current == |Moved(cfg, s, p)|
  }

  ghost predicate Bars(cfg: Config, s: Pool)
    requires |s.phases| == |cfg.ptids|
  {
    BarKeys(cfg, s) && BarIdsUnique(cfg, s.bars) && BarCounts(cfg, s)
  }

  /** The monitor holds the outcomes of the tasks that have reported, by bar. */
  ghost predicate Results(cfg: Config, s: Pool)
    requires cfg.Valid() && |s.phases| == |cfg.ptids|
  {
    && Faithful(s.board)
    && forall bid, o :: multiset(TaskMonitor.Results(s.board, bid))[o] == |Reported(cfg, s, bid, o)|
  }

  /** At the end the board is the recorded one with the main bar's status added. */
  ghost predicate Closed(cfg: Config, s: Pool)
    requires cfg.Valid() && |s.phases| == |cfg.ptids|
  {
    exists b :: Results(cfg, s.(board := b)) && s.board == Close(cfg, b, s.bars)
  }

  ghost predicate Inv(cfg: Config, s: Pool)
    requires cfg.Valid()
  {
    && Shape(cfg, s) && Slots(cfg, s) && Bars(cfg, s)
    && (if s.disp.Finished? && |cfg.ptids| > 0 then Closed(cfg, s) else Results(cfg, s))
  }

  lemma InitInv(cfg: Config)
    requires cfg.Valid()
    ensures Inv(cfg, Init(cfg))
  {
    var s := Init(cfg);
    assert Holders(s) == {};
    forall bid, o ensures multiset(TaskMonitor.Results(s.board, bid))[o] == |Reported(cfg, s, bid, o)| {
      assert Reported(cfg, s, bid, o) == {};
    }
  }

  lemma SlotsWork(cfg: Config, s: Pool, i: nat)
    requires cfg.Valid() && Enabled(cfg, s, Work(i)) && Shape(cfg, s) && Slots(cfg, s)
    ensures Slots(cfg, Next(cfg, s, Work(i)))
  {
    var t := Next(cfg, s, Work(i));
    if s.phases[i].Release? {
      assert i in Holders(s);
      assert Holders(t) == Holders(s) - {i};
    } else {
      assert Holders(t) == Holders(s);
    }
  }

  lemma SlotsStep(cfg: Config, s: Pool, a: Act)
    requires cfg.Valid() && Enabled(cfg, s, a) && Shape(cfg, s) && Slots(cfg, s)
    ensures Slots(cfg, Next(cfg, s, a))
  {
    var t := Next(cfg, s, a);
    match a {
      case Work(i) => SlotsWork(cfg, s, i);
      case Start =>
        assert s.next !in Holders(s);
        assert Holders(t) == Holders(s) + {s.next};
      case _ => assert Holders(t) == Holders(s);
    }
  }

  lemma ShapeStep(cfg: Config, s: Pool, a: Act)
    requires cfg.Valid() && Enabled(cfg, s, a) && Shape(cfg, s) && Bars(cfg, s)
    ensures Shape(cfg, Next(cfg, s, a))
  {
  }

  lemma BarKeysStep(cfg: Config, s: Pool, a: Act)
    requires cfg.Valid() && Enabled(cfg, s, a) && Shape(cfg, s) && Bars(cfg, s)
    ensures |Next(cfg, s, a).phases| == |cfg.ptids| && BarKeys(cfg, Next(cfg, s, a))
  {
  }

  lemma NewBarId(cfg: Config, bars: map<nat, Bar>, p: nat, total: nat)
    requires BarIdsUnique(cfg, bars) && p !in bars
    ensures BarIdsUnique(cfg, bars[p := Bar(FirstBar(cfg) + |bars|, total, 0)])
  {
    assert bars[p := Bar(FirstBar(cfg) + |bars|, total, 0)].Keys == bars.Keys + {p};
  }

  lemma MoveBarId(cfg: Config, bars: map<nat, Bar>, p: nat, n: nat)
    requires BarIdsUnique(cfg, bars) && p in bars
    ensures BarIdsUnique(cfg, bars[p := bars[p].(current := n)])
  {
    assert bars[p := bars[p].(current := n)].Keys == bars.Keys;
  }

  lemma BarIdsStep(cfg: Config, s: Pool, a: Act)
    requires cfg.Valid() && Enabled(cfg, s, a) && Shape(cfg, s) && Bars(cfg, s)
    ensures BarIdsUnique(cfg, Next(cfg, s, a).bars)
  {
    match a {
      case EnsureBar =>
        var p := cfg.ptids[s.next];
        if p !in s.bars {
          NewBarId(cfg, s.bars, p, |TasksOf(cfg, p)|);
        }
      case Work(i) =>
        var p := cfg.ptids[i];
        if p in s.bars {
          MoveBarId(cfg, s.bars, p, s.bars[p].current + 1);
        }
      case _ =>
    }
  }

  lemma OneMore(a: set<nat>, i: nat)
    ensures |a + {i}| == |a| + if i in a then 0 else 1
  {
    if i in a {
      assert a + {i} == a;
    }
  }

  /** Starting or advancing task `i` changes no count but its own. */
  lemma MovedStep(cfg: Config, s: Pool, t: Pool, i: nat, p: nat)
    requires |s.phases| == |t.phases| == |cfg.ptids| && i < |s.phases|
    requires t.phases == s.phases[i := t.phases[i]]
    ensures Moved(cfg, t, p) ==
      if cfg.ptids[i] != p then Moved(cfg, s, p)
      else if HasMoved(t.phases[i]) then Moved(cfg, s, p) + {i} else Moved(cfg, s, p) - {i}
    ensures i in Moved(cfg, s, p) <==> cfg.ptids[i] == p && HasMoved(s.phases[i])
  {
  }

  lemma MovedCount(cfg: Config, s: Pool, t: Pool, i: nat, p: nat)
    requires |s.phases| == |t.phases| == |cfg.ptids| && i < |s.phases|
    requires t.phases == s.phases[i := t.phases[i]]
    requires HasMoved(s.phases[i]) ==> HasMoved(t.phases[i])
    ensures |Moved(cfg, t, p)| == |Moved(cfg, s, p)| +
      if cfg.ptids[i] == p && HasMoved(t.phases[i]) && !HasMoved(s.phases[i]) then 1 else 0
  {
    MovedStep(cfg, s, t, i, p);
    if cfg.ptids[i] == p && HasMoved(t.phases[i]) {
      OneMore(Moved(cfg, s, p), i);
    } else {
      assert Moved(cfg, t, p) == Moved(cfg, s, p);
    }
  }

  lemma BarCountWork(cfg: Config, s: Pool, i: nat, p: nat)
    requires cfg.Valid() && Enabled(cfg, s, Work(i)) && |s.phases| == |cfg.ptids|
    requires p in s.bars && s.bars[p].current == |Moved(cfg, s, p)|
    ensures var t := Next(cfg, s, Work(i));
      p in t.bars && t.bars[p].total == s.bars[p].total && t.bars[p].current == |Moved(cfg, t, p)|
  {
    var t := Advance(cfg, s, i);
    assert HasMoved(s.phases[i]) ==> HasMoved(t.phases[i]);
    MovedCount(cfg, s, t, i, p);
  }

  lemma BarCountEnsure(cfg: Config, s: Pool, p: nat)
    requires cfg.Valid() && Enabled(cfg, s, EnsureBar) && Shape(cfg, s) && Bars(cfg, s)
    requires p in Next(cfg, s, EnsureBar).bars
    ensures var t := Next(cfg, s, EnsureBar);
      t.bars[p].total == |TasksOf(cfg, p)| && t.bars[p].current == |Moved(cfg, t, p)|
  {
    var t := Next(cfg, s, EnsureBar);
    assert Moved(cfg, t, p) == Moved(cfg, s, p);
    if p !in s.bars {
      assert Moved(cfg, s, p) == {};
    }
  }

  lemma BarCountsStep(cfg: Config, s: Pool, a: Act)
    requires cfg.Valid() && Enabled(cfg, s, a) && Shape(cfg, s) && Bars(cfg, s)
    requires |Next(cfg, s, a).phases| == |cfg.ptids|
    ensures BarCounts(cfg, Next(cfg, s, a))
  {
    var t := Next(cfg, s, a);
    forall p | p in t.bars
      ensures t.bars[p].total == |TasksOf(cfg, p)| && t.bars[p].current == |Moved(cfg, t, p)|
    {
      match a {
        case Work(i) => BarCountWork(cfg, s, i, p);
        case EnsureBar => BarCountEnsure(cfg, s, p);
        case Start => MovedStep(cfg, s, t, s.next, p);
        case _ =>
      }
    }
  }

  // ------------------------------------------------------ what is recorded

  /** The id a started worker reports to does not change when bars are added. */
  lemma BarOfStable(cfg: Config, s: Pool, a: Act, i: nat)
    requires cfg.Valid() && Enabled(cfg, s, a) && Shape(cfg, s) && Bars(cfg, s)
    requires i < |cfg.ptids| && !s.phases[i].Idle?
    ensures BarOf(cfg, Next(cfg, s, a).bars, i) == BarOf(cfg, s.bars, i)
  {
  }

  lemma ReportedSame(cfg: Config, s: Pool, a: Act, bid: nat, o: Outcome)
    requires cfg.Valid() && Enabled(cfg, s, a) && Shape(cfg, s) && Bars(cfg, s)
    requires !(a.Work? && s.phases[a.i].Report?)
    ensures |Next(cfg, s, a).phases| == |cfg.ptids|
    ensures Reported(cfg, Next(cfg, s, a), bid, o) == Reported(cfg, s, bid, o)
  {
    var t := Next(cfg, s, a);
    forall i | 0 <= i < |s.phases| ensures i in Reported(cfg, t, bid, o) <==> i in Reported(cfg, s, bid, o) {
      if HasReported(s.phases[i]) {
        BarOfStable(cfg, s, a, i);
      }
    }
  }

  /** Reporting adds task `i` to the reports of its own bar and outcome. */
  lemma ReportedJoins(cfg: Config, s: Pool, t: Pool, i: nat, bid: nat, o: Outcome)
    requires cfg.Valid() && |s.phases| == |t.phases| == |cfg.ptids| && i < |s.phases|
    requires t.phases == s.phases[i := t.phases[i]] && t.bars == s.bars
    requires !HasReported(s.phases[i]) && HasReported(t.phases[i])
    ensures i !in Reported(cfg, s, bid, o)
    ensures Reported(cfg, t, bid, o) ==
      Reported(cfg, s, bid, o) + if bid == BarOf(cfg, s.bars, i) && o == cfg.outcomes[i] then {i} else {}
  {
    assert HasReported(t.phases[i]) && forall k :: 0 <= k < |s.phases| && k != i ==> t.phases[k] == s.phases[k];
    assert forall k :: 0 <= k < |s.phases| ==> BarOf(cfg, t.bars, k) == BarOf(cfg, s.bars, k);
  }

  lemma ReportedMore(cfg: Config, s: Pool, i: nat, bid: nat, o: Outcome)
    requires cfg.Valid() && Enabled(cfg, s, Work(i)) && Shape(cfg, s) && Bars(cfg, s)
    requires s.phases[i].Report?
    ensures var t := Next(cfg, s, Work(i));
      && |t.phases| == |cfg.ptids|
      && |Reported(cfg, t, bid, o)| == |Reported(cfg, s, bid, o)| +
           if bid == BarOf(cfg, s.bars, i) && o == cfg.outcomes[i] then 1 else 0
  {
    var t := Advance(cfg, s, i);
    ReportedJoins(cfg, s, t, i, bid, o);
    OneMore(Reported(cfg, s, bid, o), i);
  }

  lemma ResultsReport(cfg: Config, s: Pool, i: nat)
    requires cfg.Valid() && Enabled(cfg, s, Work(i)) && Shape(cfg, s) && Bars(cfg, s) && Results(cfg, s)
    requires s.phases[i].Report?
    ensures |Next(cfg, s, Work(i)).phases| == |cfg.ptids| && Results(cfg, Next(cfg, s, Work(i)))
  {
    var t := Next(cfg, s, Work(i));
    var b, o := BarOf(cfg, s.bars, i), cfg.outcomes[i];
    assert t.board == Record(s.board, b, o);
    RecordFaithful(s.board, b, o);
    forall bid, x ensures multiset(TaskMonitor.Results(t.board, bid))[x] == |Reported(cfg, t, bid, x)| {
      ReportedMore(cfg, s, i, bid, x);
      RecordCounts(s.board, b, o, bid, x);
    }
  }

  lemma ResultsStep(cfg: Config, s: Pool, a: Act)
    requires cfg.Valid() && Enabled(cfg, s, a) && Shape(cfg, s) && Bars(cfg, s) && Results(cfg, s)
    requires !a.Join?
    ensures |Next(cfg, s, a).phases| == |cfg.ptids| && Results(cfg, Next(cfg, s, a))
  {
    var t := Next(cfg, s, a);
    if a.Work? && s.phases[a.i].Report? {
      ResultsReport(cfg, s, a.i);
    } else {
      forall bid, x ensures multiset(TaskMonitor.Results(t.board, bid))[x] == |Reported(cfg, t, bid, x)| {
        ReportedSame(cfg, s, a, bid, x);
      }
    }
  }

  lemma RecordCounts(b: Board, bid: nat, o: Outcome, bid': nat, x: Outcome)
    ensures multiset(TaskMonitor.Results(Record(b, bid, o), bid'))[x] ==
      multiset(TaskMonitor.Results(b, bid'))[x] + if bid' == bid && x == o then 1 else 0
  {
  }

  lemma JoinCloses(cfg: Config, s: Pool)
    requires cfg.Valid() && Enabled(cfg, s, Join) && Shape(cfg, s) && Results(cfg, s)
    ensures |Next(cfg, s, Join).phases| == |cfg.ptids| && Closed(cfg, Next(cfg, s, Join))
  {
    var t := Next(cfg, s, Join);
    var u := t.(board := s.board);
    forall bid, o ensures multiset(TaskMonitor.Results(u.board, bid))[o] == |Reported(cfg, u, bid, o)| {
      assert Reported(cfg, u, bid, o) == Reported(cfg, s, bid, o);
    }
    assert Results(cfg, t.(board := s.board));
  }

  lemma InvStep(cfg: Config, s: Pool, a: Act)
    requires cfg.Valid() && Enabled(cfg, s, a) && Inv(cfg, s)
    ensures Inv(cfg, Next(cfg, s, a))
  {
    ShapeStep(cfg, s, a);
    SlotsStep(cfg, s, a);
    BarKeysStep(cfg, s, a);
    BarIdsStep(cfg, s, a);
    BarCountsStep(cfg, s, a);
    if a.Join? {
      JoinCloses(cfg, s);
    } else {
      ResultsStep(cfg, s, a);
    }
  }

  lemma {:induction false} RunInv(cfg: Config, s: Pool, run: seq<Act>)
    requires cfg.Valid() && CanRun(cfg, s, run) && Inv(cfg, s)
    ensures Inv(cfg, After(cfg, s, run))
    decreases run
  {
    if run != [] {
      InvStep(cfg, s, run[0]);
      RunInv(cfg, Next(cfg, s, run[0]), run[1..]);
    }
  }

  lemma ReachableInv(cfg: Config, run: seq<Act>)
    requires cfg.Valid() && CanRun(cfg, Init(cfg), run)
    ensures Inv(cfg, After(cfg, Init(cfg), run))
  {
    InitInv(cfg);
    RunInv(cfg, Init(cfg), run);
  }
}
