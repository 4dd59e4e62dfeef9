/**
 The result receiver of cli/command/playbook.go: workers send their results in
 any order, the receiver prints them in the order of the hosts.
 */
module PlaybookReceiver {

  datatype Result = Result(index: nat, host: string, output: string, failed: bool)

  function Indices(rs: seq<Result>): set<nat> {
    set r | r in rs :: r.index
  }

  /** `c` is the least index not received. */
  ghost predicate Least(received: set<nat>, c: nat) {
    c !in received && forall i: nat :: i < c ==> i in received
  }

  /** What has been printed after these arrivals: the indices below the least
      missing one, in order, once each. */
  ghost predicate Shows(arrived: seq<Result>, printed: seq<Result>) {
    && Least(Indices(arrived), |printed|)
    && forall i :: 0 <= i < |printed| ==> printed[i].index == i && printed[i] in arrived
  }

  /** The map holds one result for each index received. */
  ghost predicate Keeps(rets: map<nat, Result>, arrived: seq<Result>) {
    && rets.Keys == Indices(arrived)
    && forall i :: i in rets ==> rets[i].index == i && rets[i] in arrived
  }

  lemma KeepOne(rets: map<nat, Result>, arrived: seq<Result>, ret: Result)
    requires Keeps(rets, arrived)
    ensures Keeps(rets[ret.index := ret], arrived + [ret])
  {
    assert Indices(arrived + [ret]) == Indices(arrived) + {ret.index};
  }

  /** The received indices not printed yet. */
  ghost function Beyond(keys: set<nat>, c: nat): set<nat> {
    set k | k in keys && k >= c
  }

  class Receiver {
    var rets: map<nat, Result>
    var current: nat
    var printed: seq<Result>
    ghost var arrived: seq<Result>

    ghost predicate Valid()
      reads this
    {
      && Keeps(rets, arrived)
      && current == |printed|
      && Shows(arrived, printed)
    }

    constructor ()
      ensures Valid() && arrived == [] && printed == []
    {
      rets, current, printed, arrived := map[], 0, [], [];
    }

    /** One round of the loop over the channel. */
    method Receive(ret: Result)
      requires Valid()
      modifies this
      ensures Valid()
      ensures arrived == old(arrived) + [ret]
      ensures old(printed) <= printed
    {
      KeepOne(rets, arrived, ret);
      rets := rets[ret.index := ret];
      arrived := arrived + [ret];
      while current in rets
        invariant Keeps(rets, arrived)
        invariant arrived == old(arrived) + [ret] && old(printed) <= printed
        invariant current == |printed|
        invariant forall i: nat :: i < current ==> i in rets
        invariant forall i :: 0 <= i < |printed| ==> printed[i].index == i && printed[i] in arrived
        decreases Beyond(rets.Keys, current)
      {
        assert current in Beyond(rets.Keys, current);
        printed := printed + [rets[current]];
        current := current + 1;
      }
    }
  }

  /** The goroutine `receiver` over everything its channel delivers. */
  method ReceiveAll(arrivals: seq<Result>) returns (printed: seq<Result>)
    ensures Shows(arrivals, printed)
  {
    var r := new Receiver();
    for i := 0 to |arrivals|
      invariant r.Valid() && fresh(r) && r.arrived == arrivals[..i]
    {
      r.Receive(arrivals[i]);
    }
    assert arrivals[..|arrivals|] == arrivals;
    printed := r.printed;
  }

  // ----------------------------------------------------------------- the runs

  /** `sent` are the results in the order they were sent by workers 0..n-1;
      `order` is the order of arrival. */
  ghost predicate Arrival(order: seq<nat>, n: nat) {
    && |order| == n
    && (forall i :: 0 <= i < n ==> order[i] < n)
    && forall i, j :: 0 <= i < j < n ==> order[i] != order[j]
  }

  function Arrived(sent: seq<Result>, order: seq<nat>): (r: seq<Result>)
    requires forall i :: 0 <= i < |order| ==> order[i] < |sent|
    ensures |r| == |order|
  {
    seq(|order|, i requires 0 <= i < |order| => sent[order[i]])
  }

  lemma {:induction false} RangeSize(s: set<nat>, n: nat)
    requires forall x :: x in s ==> x < n
    ensures |s| <= n
    ensures |s| == n ==> forall x: nat :: x < n ==> x in s
  {
    if n == 0 {
      assert s == {};
    } else if n - 1 in s {
      RangeSize(s - {n - 1}, n - 1);
    } else {
      RangeSize(s, n - 1);
    }
  }

  ghost function Members(order: seq<nat>): set<nat> {
    set i | 0 <= i < |order| :: order[i]
  }

  lemma {:induction false} OrderSize(order: seq<nat>)
    requires forall i, j :: 0 <= i < j < |order| ==> order[i] != order[j]
    ensures |Members(order)| == |order|
    decreases |order|
  {
    if order == [] {
      assert Members(order) == {};
    } else {
      var last := |order| - 1;
      OrderSize(order[..last]);
      assert order[last] !in Members(order[..last]);
      assert Members(order) == Members(order[..last]) + {order[last]};
    }
  }

  lemma IndexIn(rs: seq<Result>, i: nat)
    requires i < |rs|
    ensures rs[i].index in Indices(rs)
  {
    assert rs[i] in rs;
  }

  /** Every worker's result arrives, and nothing else. */
  lemma EveryoneArrives(sent: seq<Result>, order: seq<nat>)
    requires Arrival(order, |sent|)
    ensures forall r :: r in Arrived(sent, order) <==> r in sent
    ensures Indices(Arrived(sent, order)) == Indices(sent)
  {
    OrderSize(order);
    RangeSize(Members(order), |sent|);
    var a := Arrived(sent, order);
    forall r | r in sent ensures r in a {
      var k :| 0 <= k < |sent| && sent[k] == r;
      assert k in Members(order);
      var i :| 0 <= i < |order| && order[i] == k;
      assert a[i] == r;
    }
  }

  /** The line that execute sends: its own index, except that a failed copy of the
      script is sent without one, which is index 0. */
  function Sent(hosts: seq<string>, scpFailed: seq<bool>, outputs: seq<string>): (r: seq<Result>)
    requires |hosts| == |scpFailed| == |outputs|
    ensures |r| == |hosts|
  {
    seq(|hosts|, i requires 0 <= i < |hosts| =>
      if scpFailed[i] then Result(0, hosts[i], "", true) else Result(i, hosts[i], outputs[i], false))
  }

  /** Whatever the order of arrival, all results are printed iff no worker but the
      first failed to copy its script; and what is printed stops short of the first
      such worker. */
  lemma AllPrintedIffIndexed(hosts: seq<string>, scpFailed: seq<bool>, outputs: seq<string>, order: seq<nat>,
                             printed: seq<Result>)
    requires |hosts| == |scpFailed| == |outputs| && Arrival(order, |hosts|)
    requires Shows(Arrived(Sent(hosts, scpFailed, outputs), order), printed)
    ensures |printed| <= |hosts|
    ensures |printed| == |hosts| <==> forall i :: 1 <= i < |hosts| ==> !scpFailed[i]
    ensures |printed| < |hosts| ==> 1 <= |printed| && scpFailed[|printed|]
    ensures forall i :: 1 <= i < |printed| ==> !scpFailed[i]
  {
    var sent := Sent(hosts, scpFailed, outputs);
    EveryoneArrives(sent, order);
    var indices := Indices(sent);
    assert |hosts| < |printed| ==> |hosts| in indices;
    forall i | 0 <= i < |hosts| && (i == 0 || !scpFailed[i]) ensures i in indices {
      IndexIn(sent, i);
      assert sent[i].index == i;
    }
    forall x | x in indices ensures x < |hosts| && (x == 0 || !scpFailed[x]) {
      var r :| r in sent && r.index == x;
      var k :| 0 <= k < |sent| && sent[k] == r;
    }
  }

  /** Two hosts, the copy to the second fails: its result is never printed. */
  lemma SecondCopyFails(output: string, order: seq<nat>, printed: seq<Result>)
    requires Arrival(order, 2)
    requires Shows(Arrived(Sent(["a", "b"], [false, true], [output, ""]), order), printed)
    ensures |printed| == 1
  {
    var failed := [false, true];
    AllPrintedIffIndexed(["a", "b"], failed, [output, ""], order, printed);
    assert failed[1];
  }

  /** With every worker sending its own index, the printed lines are the sent ones
      in the order of the hosts. */
  lemma PrintedInHostOrder(hosts: seq<string>, outputs: seq<string>, order: seq<nat>, printed: seq<Result>)
    requires |hosts| == |outputs| && Arrival(order, |hosts|)
    requires Shows(Arrived(Sent(hosts, seq(|hosts|, _ => false), outputs), order), printed)
    ensures printed == Sent(hosts, seq(|hosts|, _ => false), outputs)
  {
    var none := seq(|hosts|, _ => false);
    AllPrintedIffIndexed(hosts, none, outputs, order, printed);
    EveryoneArrives(Sent(hosts, none, outputs), order);
  }
}
