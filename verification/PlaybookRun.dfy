/**
 runPlaybook of cli/command/playbook.go.  The workers send on an unbuffered
 channel and then signal the wait group; the command returns when all workers
 have signalled, and does not wait for the receiver.  So at that moment the rounds
 of all arrivals but the last are complete, and the last may be cut short anywhere.
 */
module PlaybookRun {
  import opened PlaybookReceiver

  datatype Worker = Sending | Finishing | Signalled

  /** `busy`: the receiver is in the round of the last arrival.  `order` says whose
      result arrived when. */
  datatype Play = Play(workers: seq<Worker>, rets: map<nat, Result>, printed: seq<Result>, busy: bool,
                       arrived: seq<Result>, order: seq<nat>)

  datatype Act = Deliver(i: nat) | PrintNext | Rest | Signal(i: nat)

  function Start(sent: seq<Result>): Play {
    Play(seq(|sent|, _ => Sending), map[], [], false, [], [])
  }

  /** A send and the matching receive are one action. */
  predicate Enabled(sent: seq<Result>, s: Play, a: Act) {
    match a
    case Deliver(i) => i < |s.workers| && i < |sent| && s.workers[i].Sending? && !s.busy
    case PrintNext => s.busy && |s.printed| in s.rets
    case Rest => s.busy && |s.printed| !in s.rets
    case Signal(i) => i < |s.workers| && s.workers[i].Finishing?
  }

  function Next(sent: seq<Result>, s: Play, a: Act): Play
    requires Enabled(sent, s, a)
  {
    match a
    case Deliver(i) =>
      s.(workers := s.workers[i := Finishing], rets := s.rets[sent[i].index := sent[i]], busy := true,
         arrived := s.arrived + [sent[i]], order := s.order + [i])
    case PrintNext => s.(printed := s.printed + [s.rets[|s.printed|]])
    case Rest => s.(busy := false)
    case Signal(i) => s.(workers := s.workers[i := Signalled])
  }

  ghost predicate CanRun(sent: seq<Result>, s: Play, run: seq<Act>)
    decreases run
  {
    run == [] || (Enabled(sent, s, run[0]) && CanRun(sent, Next(sent, s, run[0]), run[1..]))
  }

  ghost function After(sent: seq<Result>, s: Play, run: seq<Act>): Play
    requires CanRun(sent, s, run)
    decreases run
  {
    if run == [] then s else After(sent, Next(sent, s, run[0]), run[1..])
  }

  /** wg.Wait() is over: the command returns. */
  predicate Returns(s: Play) {
    forall i :: 0 <= i < |s.workers| ==> s.workers[i].Signalled?
  }

  // -------------------------------------------------------------- the invariant

  /** Lines printed so far: in order, once each, all of them arrived. */
  ghost predicate Lines(s: Play) {
    && (forall i :: 0 <= i < |s.printed| ==> s.printed[i].index == i && s.printed[i] in s.arrived)
    && forall i :: 0 <= i < |s.printed| ==> i in s.rets
  }

  ghost predicate Delivered(sent: seq<Result>, s: Play) {
    && |s.workers| == |sent| && |s.order| == |s.arrived|
    && (forall k :: 0 <= k < |s.order| ==> s.order[k] < |sent| && s.arrived[k] == sent[s.order[k]])
    && (forall j, k :: 0 <= j < k < |s.order| ==> s.order[j] != s.order[k])
    && forall i :: 0 <= i < |s.workers| ==> (s.workers[i].Sending? <==> i !in s.order)
  }

  ghost predicate Inv(sent: seq<Result>, s: Play) {
    && Delivered(sent, s) && Keeps(s.rets, s.arrived) && Lines(s)
    && (if s.busy then s.arrived != [] && Reaches(s.arrived[..|s.arrived| - 1], |s.printed|)
        else |s.printed| !in s.rets)
  }

  /** At least the lines of these arrivals. */
  ghost predicate Reaches(arrived: seq<Result>, n: nat) {
    forall c: nat :: Least(Indices(arrived), c) ==> c <= n
  }

  lemma DeliverInv(sent: seq<Result>, s: Play, i: nat)
    requires Inv(sent, s) && Enabled(sent, s, Deliver(i))
    ensures Inv(sent, Next(sent, s, Deliver(i)))
  {
    var t := Next(sent, s, Deliver(i));
    KeepOne(s.rets, s.arrived, sent[i]);
    assert t.arrived[..|t.arrived| - 1] == s.arrived;
    forall c: nat | Least(Indices(s.arrived), c) ensures c <= |s.printed| {
      assert |s.printed| !in Indices(s.arrived);
    }
  }

  lemma StepInv(sent: seq<Result>, s: Play, a: Act)
    requires Inv(sent, s) && Enabled(sent, s, a)
    ensures Inv(sent, Next(sent, s, a))
  {
    match a {
      case Deliver(i) => DeliverInv(sent, s, i);
      case _ =>
    }
  }

  lemma {:induction false} RunInv(sent: seq<Result>, s: Play, run: seq<Act>)
    requires Inv(sent, s) && CanRun(sent, s, run)
    ensures Inv(sent, After(sent, s, run))
    decreases run
  {
    if run != [] {
      StepInv(sent, s, run[0]);
      RunInv(sent, Next(sent, s, run[0]), run[1..]);
    }
  }

  lemma ReachableInv(sent: seq<Result>, run: seq<Act>)
    requires CanRun(sent, Start(sent), run)
    ensures Inv(sent, After(sent, Start(sent), run))
  {
    RunInv(sent, Start(sent), run);
  }

  // ------------------------------------------------------ when the command returns

  /** For every schedule: when the command returns, every worker's result has
      arrived, and the output has the lines of all arrivals but the last, at most
      those of all, in order and once each. */
  lemma OutputAtReturn(sent: seq<Result>, run: seq<Act>)
    requires CanRun(sent, Start(sent), run) && Returns(After(sent, Start(sent), run))
    ensures var s := After(sent, Start(sent), run);
      && Arrival(s.order, |sent|) && s.arrived == Arrived(sent, s.order)
      && (forall i :: 0 <= i < |s.printed| ==> s.printed[i].index == i && s.printed[i] in s.arrived)
      && (sent != [] ==> Reaches(s.arrived[..|sent| - 1], |s.printed|))
      && (!s.busy || |s.printed| !in s.rets ==> Shows(s.arrived, s.printed))
  {
    ReachableInv(sent, run);
    var s := After(sent, Start(sent), run);
    AllDelivered(s.order, |sent|);
    assert s.arrived == Arrived(sent, s.order);
    if !s.busy && sent != [] {
      FewerReach(s.arrived, |sent| - 1, |s.printed|);
    }
  }

  lemma AllDelivered(order: seq<nat>, n: nat)
    requires forall k :: 0 <= k < |order| ==> order[k] < n
    requires forall j, k :: 0 <= j < k < |order| ==> order[j] != order[k]
    requires forall i: nat :: i < n ==> i in order
    ensures |order| == n
  {
    OrderSize(order);
    RangeSize(Members(order), n);
    forall i: nat | i < n ensures i in Members(order) {
      assert i in order;
      var k :| 0 <= k < |order| && order[k] == i;
    }
    RangeHas(Members(order), n);
  }

  lemma {:induction false} RangeHas(s: set<nat>, n: nat)
    requires forall i: nat :: i < n ==> i in s
    ensures |s| >= n
  {
    if n > 0 {
      RangeHas(s - {n - 1}, n - 1);
    }
  }

  lemma FewerReach(arrived: seq<Result>, k: nat, n: nat)
    requires k <= |arrived| && n !in Indices(arrived)
    ensures Reaches(arrived[..k], n)
  {
    assert n !in Indices(arrived[..k]) by {
      assert forall r :: r in arrived[..k] ==> r in arrived;
    }
  }

  /** When the command returns, everything has been printed iff no worker but the
      first failed to copy its script and the receiver has nothing left to print. */
  lemma AllPrintedAtReturnIff(hosts: seq<string>, scpFailed: seq<bool>, outputs: seq<string>, run: seq<Act>)
    requires |hosts| == |scpFailed| == |outputs|
    requires CanRun(Sent(hosts, scpFailed, outputs), Start(Sent(hosts, scpFailed, outputs)), run)
    requires Returns(After(Sent(hosts, scpFailed, outputs), Start(Sent(hosts, scpFailed, outputs)), run))
    ensures var s := After(Sent(hosts, scpFailed, outputs), Start(Sent(hosts, scpFailed, outputs)), run);
      |s.printed| == |hosts| <==>
        (forall i :: 1 <= i < |hosts| ==> !scpFailed[i]) && (!s.busy || |s.printed| !in s.rets)
  {
    var sent := Sent(hosts, scpFailed, outputs);
    var s := After(sent, Start(sent), run);
    OutputAtReturn(sent, run);
    ReachableInv(sent, run);
    IndicesBelow(hosts, scpFailed, outputs, s);
    if !s.busy || |s.printed| !in s.rets {
      AllPrintedIffIndexed(hosts, scpFailed, outputs, s.order, s.printed);
    }
  }

  /** No index reaches the number of hosts; so with all lines printed no more is due. */
  lemma IndicesBelow(hosts: seq<string>, scpFailed: seq<bool>, outputs: seq<string>, s: Play)
    requires |hosts| == |scpFailed| == |outputs| && Delivered(Sent(hosts, scpFailed, outputs), s)
    requires Keeps(s.rets, s.arrived)
    ensures forall x :: x in s.rets ==> x < |hosts|
  {
    forall x | x in s.rets ensures x < |hosts| {
      var k :| 0 <= k < |s.arrived| && s.arrived[k] == s.rets[x];
    }
  }

  // ------------------------------------------------------------ a losing schedule

  lemma {:induction false} RunAppend(sent: seq<Result>, s: Play, run: seq<Act>, more: seq<Act>)
    requires CanRun(sent, s, run) && CanRun(sent, After(sent, s, run), more)
    ensures CanRun(sent, s, run + more)
    ensures After(sent, s, run + more) == After(sent, After(sent, s, run), more)
    decreases run
  {
    if run == [] {
      assert run + more == more;
    } else {
      assert (run + more)[0] == run[0] && (run + more)[1..] == run[1..] + more;
      RunAppend(sent, Next(sent, s, run[0]), run[1..], more);
    }
  }

  /** The receiver finishes its round. */
  lemma {:induction false} Drain(sent: seq<Result>, s: Play) returns (run: seq<Act>)
    requires s.busy
    ensures CanRun(sent, s, run)
    ensures var t := After(sent, s, run); !t.busy && t.workers == s.workers
    decreases Beyond(s.rets.Keys, |s.printed|)
  {
    if |s.printed| in s.rets {
      var t := Next(sent, s, PrintNext);
      assert |s.printed| in Beyond(s.rets.Keys, |s.printed|);
      run := Drain(sent, t);
      run := [PrintNext] + run;
      assert run[1..] == run[1..];
    } else {
      run := [Rest];
      assert CanRun(sent, Next(sent, s, Rest), run[1..]);
    }
  }

  ghost predicate FirstSignalled(s: Play, k: nat) {
    forall i :: 0 <= i < |s.workers| ==> if i < k then s.workers[i].Signalled? else s.workers[i].Sending?
  }

  /** Worker `k` delivers and signals. */
  lemma One(sent: seq<Result>, s: Play, k: nat) returns (run: seq<Act>)
    requires !s.busy && |s.workers| == |sent| && k < |sent| && FirstSignalled(s, k)
    ensures CanRun(sent, s, run)
    ensures var t := After(sent, s, run);
      && t.busy && t.printed == s.printed && |t.workers| == |sent| && FirstSignalled(t, k + 1)
  {
    run := [Deliver(k), Signal(k)];
    var t := Next(sent, s, Deliver(k));
    assert run[1..] == [Signal(k)] && [Signal(k)][1..] == [];
    var u := Next(sent, t, Signal(k));
    assert CanRun(sent, u, []) && After(sent, u, []) == u;
    assert CanRun(sent, t, [Signal(k)]) && After(sent, t, [Signal(k)]) == u;
    assert CanRun(sent, s, run) && After(sent, s, run) == u;
  }

  lemma {:induction false} FirstWorkers(sent: seq<Result>, k: nat) returns (run: seq<Act>)
    requires k <= |sent|
    ensures CanRun(sent, Start(sent), run)
    ensures var t := After(sent, Start(sent), run); !t.busy && |t.workers| == |sent| && FirstSignalled(t, k)
  {
    if k == 0 {
      run := [];
    } else {
      run := FirstWorkers(sent, k - 1);
      var s := After(sent, Start(sent), run);
      var step := One(sent, s, k - 1);
      var t := After(sent, s, step);
      var rest := Drain(sent, t);
      RunAppend(sent, s, step, rest);
      RunAppend(sent, Start(sent), run, step + rest);
      run := run + (step + rest);
    }
  }

  /** With any hosts at all there is a schedule in which the command returns before
      everything is printed: the last round is lost. */
  lemma LastRoundCanBeLost(sent: seq<Result>) returns (run: seq<Act>)
    requires sent != []
    ensures CanRun(sent, Start(sent), run) && Returns(After(sent, Start(sent), run))
    ensures |After(sent, Start(sent), run).printed| < |sent|
  {
    var n := |sent| - 1;
    run := FirstWorkers(sent, n);
    var s := After(sent, Start(sent), run);
    var step := One(sent, s, n);
    ReachableInv(sent, run);
    PrintedByFirst(sent, s, n);
    RunAppend(sent, Start(sent), run, step);
    run := run + step;
  }

  /** Before the others send, there are no more lines than signalled workers. */
  lemma PrintedByFirst(sent: seq<Result>, s: Play, n: nat)
    requires Inv(sent, s) && FirstSignalled(s, n)
    ensures |s.printed| <= n
  {
    OrderSize(s.order);
    forall x | x in Members(s.order) ensures x < n {
      var k :| 0 <= k < |s.order| && s.order[k] == x;
      assert x in s.order;
    }
    RangeSize(Members(s.order), n);
    PrintedBelow(s);
  }

  /** No more lines than arrivals. */
  lemma PrintedBelow(s: Play)
    requires Keeps(s.rets, s.arrived) && forall i :: 0 <= i < |s.printed| ==> i in s.rets
    ensures |s.printed| <= |s.arrived|
  {
    RangeHas(Indices(s.arrived), |s.printed|);
    FewIndices(s.arrived);
  }

  lemma {:induction false} FewIndices(rs: seq<Result>)
    ensures |Indices(rs)| <= |rs|
  {
    if rs != [] {
      var k := |rs| - 1;
      FewIndices(rs[..k]);
      assert rs == rs[..k] + [rs[k]];
      assert Indices(rs) == Indices(rs[..k]) + {rs[k].index};
    }
  }

  /** Every schedule prints everything before the command returns iff there is no host. */
  lemma AlwaysAllPrintedIff(sent: seq<Result>)
    ensures (forall run :: CanRun(sent, Start(sent), run) && Returns(After(sent, Start(sent), run)) ==>
        |After(sent, Start(sent), run).printed| == |sent|)
      <==> sent == []
  {
    if sent == [] {
      forall run | CanRun(sent, Start(sent), run) && Returns(After(sent, Start(sent), run))
        ensures |After(sent, Start(sent), run).printed| == 0
      {
        ReachableInv(sent, run);
        PrintedBelow(After(sent, Start(sent), run));
      }
    } else {
      var run := LastRoundCanBeLost(sent);
    }
  }
}
