/**
 Control in the directory scan: how errors travel up the calls, why some step is
 always enabled, and why every schedule is finite.
 */
module DirScanControl {
  import opened DirScan

  // --------------------------------------------------- how errors reach a call

  /** What holds of sub-call `i` of `c` in every reachable state: a failed
      spawned sub-call has filled the error channel before it signals the wait
      group, and a call that returned nil has nothing running or failed below. */
  ghost predicate SubInv(c: Call, i: nat)
    requires i < |c.subs|
  {
    var s := c.subs[i];
    && (s.origin.Spawned? && !s.origin.phase.Running? ==> Over(s.call))
    && (s.origin.Spawned? && (s.origin.phase.Reported? || s.origin.phase.Joined?) && s.call.pc.Failed? ==>
          c.errCh || c.pc.Cancel? || c.pc.Failed?)
    && (s.origin.InlineCall? ==>
          s.call.pc.Returned? || c.pc.Failed? || (c.pc.Inline? && i == |c.subs| - 1))
    && (c.pc.Returned? ==> s.call.pc.Returned? && (s.origin.InlineCall? || s.origin.phase.Joined?))
  }

  ghost predicate LocalInv(c: Call) {
    && c.pos <= |c.entries|
    && (c.pc.Wait? || c.pc.Returned? ==> c.pos == |c.entries|)
    && (c.pc.Select? ==> c.pc.dir.Directory?)
    && (c.pc.Inline? ==> c.subs != [] && c.subs[|c.subs| - 1].origin.InlineCall?)
    && (forall i :: 0 <= i < |c.subs| ==> SubInv(c, i))
  }

  ghost predicate Inv(c: Call)
    decreases c
  {
    LocalInv(c) && forall i :: 0 <= i < |c.subs| ==> Inv(c.subs[i].call)
  }

  lemma EpilogueInv(cfg: Config, c: Call, g: Shared, a: Act)
    requires Enabled(cfg, c, g, a) && Inv(c) && Epilogue(a)
    ensures Inv(Fire(cfg, c, g, a).0)
  {
    var c' := Fire(cfg, c, g, a).0;
    forall i | 0 <= i < |c'.subs| ensures SubInv(c', i) && Inv(c'.subs[i].call) {
      assert SubInv(c, i) && c'.subs[i].call == c.subs[i].call;
    }
  }

  lemma CallInv(cfg: Config, c: Call, g: Shared, a: Act)
    requires Enabled(cfg, c, g, a) && Inv(c) && (a.Spawn? || a.CallInline?)
    ensures Inv(Fire(cfg, c, g, a).0)
  {
    var c' := Fire(cfg, c, g, a).0;
    assert c'.subs == c.subs + [c'.subs[|c.subs|]];
    forall i | 0 <= i < |c.subs| ensures SubInv(c', i) && Inv(c'.subs[i].call) {
      assert SubInv(c, i);
    }
  }

  lemma FireInv(cfg: Config, c: Call, g: Shared, a: Act)
    requires Enabled(cfg, c, g, a) && Inv(c)
    ensures Inv(Fire(cfg, c, g, a).0)
  {
    var c' := Fire(cfg, c, g, a).0;
    if a.Spawn? || a.CallInline? {
      CallInv(cfg, c, g, a);
    } else if Epilogue(a) {
      EpilogueInv(cfg, c, g, a);
    } else {
      forall i | 0 <= i < |c'.subs| ensures SubInv(c', i) && Inv(c'.subs[i].call) {
        assert SubInv(c, i) && c'.subs[i] == c.subs[i];
      }
    }
  }

  lemma {:induction false} StepInv(cfg: Config, c: Call, g: Shared, path: seq<nat>, a: Act)
    requires CanStep(cfg, c, g, path, a) && Inv(c)
    ensures Inv(Step(cfg, c, g, path, a).0)
    ensures Over(c) ==> Step(cfg, c, g, path, a).0.pc == c.pc
    decreases path
  {
    if path == [] {
      FireInv(cfg, c, g, a);
    } else {
      var i := path[0];
      var c' := Step(cfg, c, g, path, a).0;
      StepInv(cfg, c.subs[i].call, g, path[1..], a);
      forall j | 0 <= j < |c'.subs| ensures SubInv(c', j) && Inv(c'.subs[j].call) {
        assert SubInv(c, j);
      }
    }
  }

  // ------------------------------------------------------ who is to blame

  /** Some call below `c` has failed. */
  ghost predicate AnyFailed(c: Call)
    decreases c
  {
    c.pc.Failed? || exists i :: 0 <= i < |c.subs| && AnyFailed(c.subs[i].call)
  }

  /** An error is held or has been returned somewhere below `c`. */
  ghost predicate Blamed(c: Call)
    decreases c
  {
    c.errCh || c.pc.Cancel? || c.pc.Failed? || exists i :: 0 <= i < |c.subs| && Blamed(c.subs[i].call)
  }

  lemma FireBlames(cfg: Config, c: Call, g: Shared, a: Act)
    requires Enabled(cfg, c, g, a)
    requires Blamed(c) || g.cancelled ==> g.failed
    ensures var (c', g') := Fire(cfg, c, g, a);
      && (Blamed(c') || g'.cancelled ==> g'.failed)
      && (AnyFailed(c) ==> AnyFailed(c'))
      && (g'.failed ==> g.failed || AnyFailed(c'))
      && (g.failed ==> g'.failed)
  {
    var (c', g') := Fire(cfg, c, g, a);
    if a.Spawn? || a.CallInline? {
      forall i | 0 <= i < |c.subs| ensures c'.subs[i] == c.subs[i] {
      }
      assert !Blamed(NewCall(c.pc.dir.entries));
    } else {
      forall i | 0 <= i < |c.subs| ensures c'.subs[i].call == c.subs[i].call {
      }
      if Epilogue(a) && c.subs[a.i].call.pc.Failed? {
        assert Blamed(c.subs[a.i].call);
      }
      if a.InlineReturns? && c.subs[|c.subs| - 1].call.pc.Failed? {
        assert Blamed(c.subs[|c.subs| - 1].call);
      }
    }
  }

  lemma {:induction false} StepBlames(cfg: Config, c: Call, g: Shared, path: seq<nat>, a: Act)
    requires CanStep(cfg, c, g, path, a)
    requires Blamed(c) || g.cancelled ==> g.failed
    ensures var (c', g') := Step(cfg, c, g, path, a);
      && (Blamed(c') || g'.cancelled ==> g'.failed)
      && (AnyFailed(c) ==> AnyFailed(c'))
      && (g'.failed ==> g.failed || AnyFailed(c'))
      && (g.failed ==> g'.failed)
    decreases path
  {
    if path == [] {
      FireBlames(cfg, c, g, a);
    } else {
      var i := path[0];
      var (c', g') := Step(cfg, c, g, path, a);
      StepBlames(cfg, c.subs[i].call, g, path[1..], a);
      assert AnyFailed(c'.subs[i].call) ==> AnyFailed(c');
      forall j | 0 <= j < |c.subs| && j != i ensures c'.subs[j] == c.subs[j] {
      }
    }
  }

  // -------------------------------------------------------------- progress

  /** Some step is enabled while a call has not returned: the default branch
      runs the sub-call inline when no slot is free, so no call ever waits for
      a slot, and waiting for children ends because children do not wait. */
  lemma {:induction false} Progress(cfg: Config, c: Call, g: Shared) returns (path: seq<nat>, a: Act)
    requires Inv(c) && !Over(c)
    requires LiveCalls(c) <= g.tokens
    ensures CanStep(cfg, c, g, path, a)
    decreases c
  {
    path := [];
    match c.pc {
      case Start => a := ListOk;
      case Loop => a := if c.pos < |c.entries| then NextEntry else EndLoop;
      case GetAttr(_) => a := AttrOk;
      case Claim(_) => a := ClaimLink;
      case AddLength(_) => a := CountLength;
      case AddInode(_) => a := CountInode;
      case Cancel(_) => a := CancelScan;
      case Select(_) =>
        a := if c.errCh then TakeError else if g.cancelled then SeeCancelled
             else if g.tokens < cfg.threads then Spawn else CallInline;
      case Inline =>
        var last := |c.subs| - 1;
        if Over(c.subs[last].call) {
          a := InlineReturns;
        } else {
          path, a := SubProgress(cfg, c, g, last);
        }
      case Wait =>
        if i :| 0 <= i < |c.subs| && c.subs[i].origin.Spawned? && !c.subs[i].origin.phase.Joined? {
          path, a := SubProgress(cfg, c, g, i);
        } else {
          a := Join;
        }
    }
  }

  /** The same for a sub-call that is not finished yet. */
  lemma {:induction false} SubProgress(cfg: Config, c: Call, g: Shared, i: nat) returns (path: seq<nat>, a: Act)
    requires Inv(c) && i < |c.subs|
    requires c.subs[i].origin.InlineCall? ==> !Over(c.subs[i].call)
    requires c.subs[i].origin != Spawned(Joined)
    requires LiveCalls(c) <= g.tokens
    ensures CanStep(cfg, c, g, path, a)
    decreases c, 0
  {
    var s := c.subs[i];
    LiveCallsIncludes(c.subs, i);
    assert SubInv(c, i);
    if !Over(s.call) {
      var p, b := Progress(cfg, s.call, g);
      path, a := [i] + p, b;
    } else {
      path := [];
      a := match s.origin.phase case Running => Release(i) case Released => Report(i) case _ => SignalDone(i);
    }
  }

  /** Spawned calls below `c` that still hold their slot. */
  ghost function LiveCalls(c: Call): nat
    decreases c, 1
  {
    LiveSubs(c.subs)
  }

  ghost function LiveSubs(subs: seq<Sub>): nat
    decreases subs, 0
  {
    if subs == [] then 0 else LiveSub(subs[0]) + LiveSubs(subs[1..])
  }

  ghost function LiveSub(s: Sub): nat
    decreases s, 2
  {
    LiveCalls(s.call) + if s.origin == Spawned(Running) then 1 else 0
  }

  lemma {:induction false} LiveCallsIncludes(subs: seq<Sub>, i: nat)
    requires i < |subs|
    ensures LiveSub(subs[i]) <= LiveSubs(subs)
  {
    if i > 0 {
      LiveCallsIncludes(subs[1..], i - 1);
    }
  }

  // ------------------------------------------------------------- termination

  /** An upper bound on the steps a call and its sub-calls can still take. */
  function EntrySteps(e: Entry): nat
    decreases e, 1
  {
    match e
    case File(_) => 5
    case Other(_) => 2
    case Directory(_, es) => 9 + EntriesSteps(es)
  }

  function EntriesSteps(es: seq<Entry>): nat
    decreases es, 0
  {
    if es == [] then 0 else EntrySteps(es[0]) + EntriesSteps(es[1..])
  }

  function PcSteps(pc: Pc): nat {
    match pc
    case Start => 3
    case Loop => 2
    case GetAttr(_) => 6
    case Claim(_) => 5
    case AddLength(_) => 4
    case AddInode(e) => if e.Directory? then 10 + EntriesSteps(e.entries) else 3
    case Select(d) => 9 + EntriesSteps(Content(d))
    case Cancel(d) => 1 + EntriesSteps(Content(d))
    case Inline => 3
    case Wait => 1
    case Returned => 0
    case Failed(_) => 0
  }

  function OriginSteps(o: Origin): nat {
    match o
    case InlineCall => 0
    case Spawned(Running) => 3
    case Spawned(Released) => 2
    case Spawned(Reported) => 1
    case Spawned(Joined) => 0
  }

  ghost function CallSteps(c: Call): nat
    decreases c, 1
  {
    (if Over(c) then 0 else PcSteps(c.pc) + EntriesSteps(Rest(c))) + SubsSteps(c.subs)
  }

  ghost function SubSteps(s: Sub): nat
    decreases s, 2
  {
    CallSteps(s.call) + OriginSteps(s.origin)
  }

  ghost function SubsSteps(subs: seq<Sub>): nat
    decreases subs, 0
  {
    if subs == [] then 0 else SubSteps(subs[0]) + SubsSteps(subs[1..])
  }

  lemma {:induction false} SubsStepsUpdate(subs: seq<Sub>, i: nat, s: Sub)
    requires i < |subs|
    ensures SubsSteps(subs[i := s]) + SubSteps(subs[i]) == SubsSteps(subs) + SubSteps(s)
    decreases i
  {
    if i == 0 {
      assert subs[0 := s][1..] == subs[1..];
    } else {
      SubsStepsUpdate(subs[1..], i - 1, s);
      assert subs[i := s][1..] == subs[1..][i - 1 := s];
    }
  }

  lemma {:induction false} SubsStepsAppend(subs: seq<Sub>, s: Sub)
    ensures SubsSteps(subs + [s]) == SubsSteps(subs) + SubSteps(s)
  {
    if subs == [] {
      assert [] + [s] == [s];
    } else {
      assert (subs + [s])[1..] == subs[1..] + [s];
      SubsStepsAppend(subs[1..], s);
    }
  }

  lemma NextEntryDescends(cfg: Config, c: Call, g: Shared)
    requires Enabled(cfg, c, g, NextEntry)
    ensures CallSteps(Fire(cfg, c, g, NextEntry).0) < CallSteps(c)
  {
    var c' := Fire(cfg, c, g, NextEntry).0;
    var e := c.entries[c.pos];
    assert Rest(c) == [e] + Rest(c');
    assert EntriesSteps(Rest(c)) == EntrySteps(e) + EntriesSteps(Rest(c')) by {
      assert Rest(c)[0] == e && Rest(c)[1..] == Rest(c');
    }
    assert PcSteps(c'.pc) < 2 + EntrySteps(e);
  }

  lemma NewCallSteps(es: seq<Entry>)
    ensures CallSteps(NewCall(es)) == 3 + EntriesSteps(es)
  {
    assert Rest(NewCall(es)) == es;
    assert SubsSteps(NewCall(es).subs) == 0;
  }

  lemma SubCallDescends(cfg: Config, c: Call, g: Shared, a: Act)
    requires Enabled(cfg, c, g, a)
    requires a.Spawn? || a.CallInline?
    ensures CallSteps(Fire(cfg, c, g, a).0) < CallSteps(c)
  {
    var c' := Fire(cfg, c, g, a).0;
    var s := c'.subs[|c.subs|];
    SubsStepsAppend(c.subs, s);
    assert c'.subs == c.subs + [s] && Rest(c') == Rest(c);
    NewCallSteps(c.pc.dir.entries);
  }

  lemma EpilogueDescends(cfg: Config, c: Call, g: Shared, a: Act)
    requires Enabled(cfg, c, g, a) && Epilogue(a)
    ensures CallSteps(Fire(cfg, c, g, a).0) < CallSteps(c)
  {
    var c' := Fire(cfg, c, g, a).0;
    SubsStepsUpdate(c.subs, a.i, c'.subs[a.i]);
  }

  lemma FireDescends(cfg: Config, c: Call, g: Shared, a: Act)
    requires Enabled(cfg, c, g, a)
    ensures CallSteps(Fire(cfg, c, g, a).0) < CallSteps(c)
  {
    if a.NextEntry? {
      NextEntryDescends(cfg, c, g);
    } else if a.Spawn? || a.CallInline? {
      SubCallDescends(cfg, c, g, a);
    } else if Epilogue(a) {
      EpilogueDescends(cfg, c, g, a);
    } else {
      var c' := Fire(cfg, c, g, a).0;
      assert Rest(c') == Rest(c) && c'.subs == c.subs;
    }
  }

  lemma {:induction false} StepDescends(cfg: Config, c: Call, g: Shared, path: seq<nat>, a: Act)
    requires CanStep(cfg, c, g, path, a)
    ensures CallSteps(Step(cfg, c, g, path, a).0) < CallSteps(c)
    decreases path
  {
    if path == [] {
      FireDescends(cfg, c, g, a);
    } else {
      var i := path[0];
      var c' := Step(cfg, c, g, path, a).0;
      StepDescends(cfg, c.subs[i].call, g, path[1..], a);
      SubsStepsUpdate(c.subs, i, c'.subs[i]);
    }
  }
}
