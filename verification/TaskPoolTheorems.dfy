/**
 What every run of the task pool guarantees.
 */
module TaskPoolTheorems {
  import opened TaskMonitor
  import opened TaskPool

  /** Never more than `concurrency` tasks in flight, and no task runs twice. */
  lemma BoundedAndAtMostOnce(cfg: Config, run: seq<Act>)
    requires cfg.Valid() && CanRun(cfg, Init(cfg), run)
    ensures var s := After(cfg, Init(cfg), run);
      |Holders(s)| <= s.tokens <= cfg.concurrency &&
      forall i :: 0 <= i < |s.runs| ==> s.runs[i] <= 1
  {
    ReachableInv(cfg, run);
  }

  /** When Execute is about to return: every task ran exactly once, all slots are
      free, and every sub bar has been moved once for each of its tasks, which is
      what progress.Wait waits for. */
  lemma FinishedMeansDone(cfg: Config, run: seq<Act>)
    requires cfg.Valid() && CanRun(cfg, Init(cfg), run)
    requires After(cfg, Init(cfg), run).disp.Finished?
    ensures var s := After(cfg, Init(cfg), run);
      && |s.runs| == |cfg.ptids|
      && (forall i :: 0 <= i < |s.runs| ==> s.runs[i] == 1)
      && s.tokens == 0
      && (forall p :: p in s.bars ==> s.bars[p].current == s.bars[p].total == |TasksOf(cfg, p)|)
      && (cfg.showSub ==> forall i :: 0 <= i < |cfg.ptids| ==> cfg.ptids[i] in s.bars)
  {
    ReachableInv(cfg, run);
    var s := After(cfg, Init(cfg), run);
    assert Holders(s) == {};
    forall p ensures Moved(cfg, s, p) == TasksOf(cfg, p) {
    }
  }

  // ---------------------------------------------------------- what is reported

  /** A result is recorded for a bar iff some task of the bar returned it. */
  lemma InResults(cfg: Config, s: Pool, bid: nat, o: Outcome)
    requires cfg.Valid() && |s.phases| == |cfg.ptids| && TaskPool.Results(cfg, s)
    ensures o in TaskMonitor.Results(s.board, bid) <==> Reported(cfg, s, bid, o) != {}
  {
    assert o in multiset(TaskMonitor.Results(s.board, bid)) <==> o in TaskMonitor.Results(s.board, bid);
    assert multiset(TaskMonitor.Results(s.board, bid))[o] == |Reported(cfg, s, bid, o)|;
  }

  /** With every task ended, the recorded error is real iff some task failed. */
  lemma RecordedError(cfg: Config, s: Pool)
    requires cfg.Valid() && |s.phases| == |cfg.ptids| && TaskPool.Results(cfg, s)
    requires forall i :: 0 <= i < |s.phases| ==> s.phases[i].Ended?
    ensures s.board.err.Failure? <==> Failed(cfg.outcomes)
  {
    if s.board.err.Failure? {
      var bid :| bid in s.board.result && Failed(s.board.result[bid]);
      var os := TaskMonitor.Results(s.board, bid);
      var j :| 0 <= j < |os| && os[j].Failure?;
      InResults(cfg, s, bid, os[j]);
      var i :| i in Reported(cfg, s, bid, os[j]);
      assert cfg.outcomes[i].Failure?;
    }
    if Failed(cfg.outcomes) {
      var i :| 0 <= i < |cfg.outcomes| && cfg.outcomes[i].Failure?;
      var bid, o := BarOf(cfg, s.bars, i), cfg.outcomes[i];
      assert i in Reported(cfg, s, bid, o);
      InResults(cfg, s, bid, o);
      var os := TaskMonitor.Results(s.board, bid);
      var j :| 0 <= j < |os| && os[j] == o;
      assert bid in s.board.result && Failed(s.board.result[bid]);
    }
  }

  /** Execute returns an error iff some task returned an error other than
      ERR_SKIP_TASK, whatever the schedule. */
  lemma ErrorIffSomeTaskFailed(cfg: Config, run: seq<Act>)
    requires cfg.Valid() && CanRun(cfg, Init(cfg), run)
    requires After(cfg, Init(cfg), run).disp.Finished?
    ensures After(cfg, Init(cfg), run).board.err != Success <==> Failed(cfg.outcomes)
    ensures !After(cfg, Init(cfg), run).board.err.Skip?
  {
    ReachableInv(cfg, run);
    var s := After(cfg, Init(cfg), run);
    if |cfg.ptids| > 0 {
      var b :| TaskPool.Results(cfg, s.(board := b)) && s.board == Close(cfg, b, s.bars);
      RecordedError(cfg, s.(board := b));
    } else {
      RecordedError(cfg, s);
    }
  }

  /** Some task of the bar failed; every task of the bar was skipped. */
  ghost predicate BarFailed(cfg: Config, p: nat)
    requires cfg.Valid()
  {
    exists i :: 0 <= i < |cfg.ptids| && cfg.ptids[i] == p && cfg.outcomes[i].Failure?
  }

  ghost predicate BarSkipped(cfg: Config, p: nat)
    requires cfg.Valid()
  {
    forall i :: 0 <= i < |cfg.ptids| && cfg.ptids[i] == p ==> cfg.outcomes[i].Skip?
  }

  ghost predicate AllEnded(cfg: Config, s: Pool)
    requires cfg.Valid()
  {
    && |s.phases| == |cfg.ptids|
    && TaskPool.Results(cfg, s) && Bars(cfg, s)
    && (forall i :: 0 <= i < |s.phases| ==> s.phases[i].Ended? && cfg.ptids[i] in s.bars)
    && (forall p :: p in s.bars ==> p in cfg.ptids)
  }

  ghost function StatusAt(s: Pool, id: nat): Status {
    StatusOf(TaskMonitor.Results(s.board, id))
  }

  /** A sub bar's results are the outcomes of its tasks. */
  lemma BarResults(cfg: Config, s: Pool, p: nat, id: nat, os: seq<Outcome>)
    requires cfg.Valid() && AllEnded(cfg, s) && p in s.bars && s.bars[p].id == id
    requires os == TaskMonitor.Results(s.board, id)
    ensures forall j :: 0 <= j < |os| ==>
      exists i :: 0 <= i < |cfg.ptids| && cfg.ptids[i] == p && cfg.outcomes[i] == os[j]
    ensures forall i :: 0 <= i < |cfg.ptids| && cfg.ptids[i] == p ==> cfg.outcomes[i] in os
  {
    forall j | 0 <= j < |os| ensures exists i :: 0 <= i < |cfg.ptids| && cfg.ptids[i] == p && cfg.outcomes[i] == os[j] {
      InResults(cfg, s, id, os[j]);
      var i :| i in Reported(cfg, s, id, os[j]);
      assert cfg.ptids[i] == p;
    }
    forall i | 0 <= i < |cfg.ptids| && cfg.ptids[i] == p ensures cfg.outcomes[i] in os {
      assert i in Reported(cfg, s, id, cfg.outcomes[i]);
      InResults(cfg, s, id, cfg.outcomes[i]);
    }
  }

  /** The status of one sub bar once all its tasks have ended. */
  lemma BarStatus(cfg: Config, s: Pool, p: nat)
    requires cfg.Valid() && AllEnded(cfg, s) && p in s.bars
    ensures StatusAt(s, s.bars[p].id) ==
      if BarFailed(cfg, p) then StatusError else if BarSkipped(cfg, p) then StatusSkip else StatusOk
  {
    BarResults(cfg, s, p, s.bars[p].id, TaskMonitor.Results(s.board, s.bars[p].id));
  }

  lemma ErrorBar(cfg: Config, s: Pool)
    requires cfg.Valid() && AllEnded(cfg, s)
    ensures (exists x :: x in BarIds(s.bars) && StatusAt(s, x) == StatusError) <==> Failed(cfg.outcomes)
  {
    if x :| x in BarIds(s.bars) && StatusAt(s, x) == StatusError {
      var p :| p in s.bars && s.bars[p].id == x;
      BarStatus(cfg, s, p);
      assert BarFailed(cfg, p);
    }
    if Failed(cfg.outcomes) {
      var i :| 0 <= i < |cfg.outcomes| && cfg.outcomes[i].Failure?;
      var p := cfg.ptids[i];
      BarStatus(cfg, s, p);
      assert s.bars[p].id in BarIds(s.bars) && StatusAt(s, s.bars[p].id) == StatusError;
    }
  }

  lemma OkBar(cfg: Config, s: Pool)
    requires cfg.Valid() && AllEnded(cfg, s) && !Failed(cfg.outcomes)
    ensures (exists x :: x in BarIds(s.bars) && StatusAt(s, x) == StatusOk) <==> !AllSkipped(cfg.outcomes)
  {
    if x :| x in BarIds(s.bars) && StatusAt(s, x) == StatusOk {
      var p :| p in s.bars && s.bars[p].id == x;
      BarStatus(cfg, s, p);
      assert !BarSkipped(cfg, p);
    }
    if !AllSkipped(cfg.outcomes) {
      var i :| 0 <= i < |cfg.outcomes| && !cfg.outcomes[i].Skip?;
      var p := cfg.ptids[i];
      BarStatus(cfg, s, p);
      assert s.bars[p].id in BarIds(s.bars) && StatusAt(s, s.bars[p].id) == StatusOk;
    }
  }

  /** What setMainBarStatus records, in terms of the tasks. */
  lemma MainOutcomeOfTasks(cfg: Config, s: Pool)
    requires cfg.Valid() && AllEnded(cfg, s)
    ensures var o := MainOutcome(s.board, BarIds(s.bars));
      && (o.Failure? <==> Failed(cfg.outcomes))
      && (!Failed(cfg.outcomes) ==> (o.Skip? <==> AllSkipped(cfg.outcomes)))
  {
    ErrorBar(cfg, s);
    RecordedError(cfg, s);
    if !Failed(cfg.outcomes) {
      OkBar(cfg, s);
    }
  }

  /** The main bar's own id has no results before the end. */
  lemma MainBarUnused(cfg: Config, s: Pool)
    requires cfg.Valid() && AllEnded(cfg, s) && cfg.showMain
    ensures TaskMonitor.Results(s.board, 0) == []
  {
    var os := TaskMonitor.Results(s.board, 0);
    forall o ensures multiset(os)[o] == 0 {
      assert Reported(cfg, s, 0, o) == {};
    }
    assert multiset(os) == multiset{};
    assert |multiset(os)| == 0;
  }

  /** The pool when Execute returns, before the status of the main bar is added. */
  lemma FinishedPool(cfg: Config, run: seq<Act>) returns (t: Pool)
    requires cfg.Valid() && CanRun(cfg, Init(cfg), run) && |cfg.ptids| > 0
    requires After(cfg, Init(cfg), run).disp.Finished?
    ensures var s := After(cfg, Init(cfg), run);
      t == s.(board := t.board) && s.board == Close(cfg, t.board, t.bars)
    ensures |t.phases| == |cfg.ptids| && TaskPool.Results(cfg, t) && Bars(cfg, t)
    ensures forall i :: 0 <= i < |t.phases| ==> t.phases[i].Ended?
  {
    ReachableInv(cfg, run);
    var s := After(cfg, Init(cfg), run);
    var b :| TaskPool.Results(cfg, s.(board := b)) && s.board == Close(cfg, b, s.bars);
    t := s.(board := b);
    assert forall p :: Moved(cfg, t, p) == Moved(cfg, s, p);
  }

  lemma FinishedAllEnded(cfg: Config, run: seq<Act>, t: Pool)
    requires cfg.Valid() && CanRun(cfg, Init(cfg), run) && cfg.showSub
    requires t.bars == After(cfg, Init(cfg), run).bars
    requires |t.phases| == |cfg.ptids| && TaskPool.Results(cfg, t) && Bars(cfg, t)
    requires forall i :: 0 <= i < |t.phases| ==> t.phases[i].Ended?
    ensures AllEnded(cfg, t)
  {
    BarsBelongToTasks(cfg, run);
  }

  /** Without sub bars every task reports to bar 0. */
  lemma BarZero(cfg: Config, t: Pool)
    requires cfg.Valid() && |t.phases| == |cfg.ptids| && TaskPool.Results(cfg, t)
    requires t.bars == map[] && forall i :: 0 <= i < |t.phases| ==> t.phases[i].Ended?
    ensures forall o :: o in TaskMonitor.Results(t.board, 0) <==> o in cfg.outcomes
  {
    forall o ensures o in TaskMonitor.Results(t.board, 0) <==> o in cfg.outcomes {
      InResults(cfg, t, 0, o);
      if o in cfg.outcomes {
        var i :| 0 <= i < |cfg.outcomes| && cfg.outcomes[i] == o;
        assert i in Reported(cfg, t, 0, o);
      }
    }
  }

  /** A status depends on which results there are, and a skip beside others that
      are not all skips changes nothing. */
  lemma StatusOfMembers(os: seq<Outcome>, ps: seq<Outcome>)
    requires ps != [] && forall o :: o in os <==> o in ps
    ensures StatusOf(os + [Skip]) == StatusOf(ps)
  {
    var qs := os + [Skip];
    assert forall j :: 0 <= j < |os| ==> qs[j] == os[j] && os[j] in ps;
    assert qs[|os|] == Skip;
    forall j | 0 <= j < |ps| ensures exists i :: 0 <= i < |os| && qs[i] == ps[j] {
      assert ps[j] in os;
    }
  }

  /** The main bar ends in error iff some task failed, else as skipped iff every
      task was skipped, else as ok, whether or not sub bars are shown: neither the
      schedule nor the order of the sub bars plays a part. */
  lemma MainBarStatus(cfg: Config, run: seq<Act>)
    requires cfg.Valid() && CanRun(cfg, Init(cfg), run) && |cfg.ptids| > 0
    requires cfg.showMain
    requires After(cfg, Init(cfg), run).disp.Finished?
    ensures StatusAt(After(cfg, Init(cfg), run), 0) ==
      if Failed(cfg.outcomes) then StatusError
      else if AllSkipped(cfg.outcomes) then StatusSkip
      else StatusOk
  {
    var t := FinishedPool(cfg, run);
    var o := MainOutcome(t.board, BarIds(t.bars));
    var os := TaskMonitor.Results(t.board, 0);
    assert TaskMonitor.Results(After(cfg, Init(cfg), run).board, 0) == os + [o];
    if cfg.showSub {
      FinishedAllEnded(cfg, run, t);
      MainOutcomeOfTasks(cfg, t);
      MainBarUnused(cfg, t);
      assert os + [o] == [o] && [o][0] == o;
    } else {
      assert BarIds(t.bars) == {} && o == Skip;
      BarZero(cfg, t);
      StatusOfMembers(os, cfg.outcomes);
    }
  }

  /** Bars are made for tasks only. */
  lemma {:induction false} BarsComeFromTasks(cfg: Config, s: Pool, run: seq<Act>)
    requires cfg.Valid() && CanRun(cfg, s, run)
    requires forall p :: p in s.bars ==> p in cfg.ptids
    ensures forall p :: p in After(cfg, s, run).bars ==> p in cfg.ptids
    decreases run
  {
    if run != [] {
      BarsComeFromTasks(cfg, Next(cfg, s, run[0]), run[1..]);
    }
  }

  lemma BarsBelongToTasks(cfg: Config, run: seq<Act>)
    requires cfg.Valid() && CanRun(cfg, Init(cfg), run)
    ensures forall p :: p in After(cfg, Init(cfg), run).bars ==> p in cfg.ptids
  {
    BarsComeFromTasks(cfg, Init(cfg), run);
  }

  // ------------------------------------------------- progress and termination

  /** No deadlock: until Execute is about to return, some action is enabled. */
  lemma NeverStuck(cfg: Config, run: seq<Act>)
    requires cfg.Valid() && CanRun(cfg, Init(cfg), run)
    requires !After(cfg, Init(cfg), run).disp.Finished?
    ensures exists a :: Enabled(cfg, After(cfg, Init(cfg), run), a)
  {
    ReachableInv(cfg, run);
    var s := After(cfg, Init(cfg), run);
    if i :| 0 <= i < |s.phases| && !s.phases[i].Idle? && !s.phases[i].Ended? {
      assert s.phases[i].Release? ==> i in Holders(s);
      assert Enabled(cfg, s, Work(i));
    } else {
      assert Holders(s) == {};
      assert Enabled(cfg, s, match s.disp
        case Acquire => TakeSlot
        case AddBar => EnsureBar
        case Fork => Start
        case _ => Join);
    }
  }

  /** Actions still to come of one worker, and of the dispatcher. */
  function PhaseSteps(p: Phase): nat {
    match p
    case Idle => 7
    case Fetch => 6
    case Run => 5
    case Report => 4
    case Increment => 3
    case Release => 2
    case Signal => 1
    case Ended => 0
  }

  function WorkerSteps(ps: seq<Phase>): nat {
    if ps == [] then 0 else PhaseSteps(ps[0]) + WorkerSteps(ps[1..])
  }

  function DispatcherSteps(cfg: Config, s: Pool): int {
    match s.disp
    case Finished => 0
    case Joining => 1
    case Acquire => 3 * (|cfg.ptids| - s.next) + 1
    case AddBar => 3 * (|cfg.ptids| - s.next)
    case Fork => 3 * (|cfg.ptids| - s.next) - 1
  }

  lemma {:induction false} WorkerStepsUpdate(ps: seq<Phase>, i: nat, p: Phase)
    requires i < |ps|
    ensures WorkerSteps(ps[i := p]) + PhaseSteps(ps[i]) == WorkerSteps(ps) + PhaseSteps(p)
    decreases i
  {
    if i == 0 {
      assert ps[0 := p][1..] == ps[1..];
    } else {
      assert ps[i := p][1..] == ps[1..][i - 1 := p];
      WorkerStepsUpdate(ps[1..], i - 1, p);
    }
  }

  lemma WorkDescends(cfg: Config, s: Pool, i: nat)
    requires cfg.Valid() && Enabled(cfg, s, Work(i)) && Shape(cfg, s)
    ensures var t := Next(cfg, s, Work(i));
      WorkerSteps(t.phases) < WorkerSteps(s.phases) && DispatcherSteps(cfg, t) == DispatcherSteps(cfg, s)
  {
    WorkerStepsUpdate(s.phases, i, Next(cfg, s, Work(i)).phases[i]);
  }

  lemma StepDescends(cfg: Config, s: Pool, a: Act)
    requires cfg.Valid() && Enabled(cfg, s, a) && Shape(cfg, s)
    ensures var t := Next(cfg, s, a);
      WorkerSteps(t.phases) + DispatcherSteps(cfg, t) < WorkerSteps(s.phases) + DispatcherSteps(cfg, s)
  {
    match a {
      case Work(i) => WorkDescends(cfg, s, i);
      case Start => WorkerStepsUpdate(s.phases, s.next, Fetch);
      case _ =>
    }
  }

  lemma {:induction false} RunDescends(cfg: Config, s: Pool, run: seq<Act>)
    requires cfg.Valid() && CanRun(cfg, s, run) && Inv(cfg, s)
    ensures |run| <= WorkerSteps(s.phases) + DispatcherSteps(cfg, s)
    decreases run
  {
    if run != [] {
      StepDescends(cfg, s, run[0]);
      InvStep(cfg, s, run[0]);
      RunDescends(cfg, Next(cfg, s, run[0]), run[1..]);
    }
  }

  lemma {:induction false} IdleSteps(n: nat)
    ensures WorkerSteps(seq(n, _ => Idle)) == 7 * n
  {
    if n > 0 {
      assert seq(n, _ => Idle)[1..] == seq(n - 1, _ => Idle);
      IdleSteps(n - 1);
    }
  }

  /** Every schedule ends: ten actions a task and the final join. */
  lemma RunsAreFinite(cfg: Config, run: seq<Act>)
    requires cfg.Valid() && CanRun(cfg, Init(cfg), run)
    ensures |run| <= 10 * |cfg.ptids| + 1
  {
    InitInv(cfg);
    RunDescends(cfg, Init(cfg), run);
    IdleSteps(|cfg.ptids|);
  }
}
