/**
 The RPC path of internal/rpc/client.go and internal/rpc/pool.go: a pool of
 connections per address, dialling with retries, and a call that fails over to
 the next address only while no address has connected.

 Dials and replies are oracles: `dial(k)` is how attempt k goes, `reply(k)` what
 call k returns.
 */
module Rpc {

  type Conn = nat

  datatype Dialed = Up(conn: Conn) | Down(error: nat)

  /** A transport error, or an answer that CheckRpcNeedRetry classifies. */
  datatype Reply = Broken(error: nat) | Answer(response: nat, needRetry: bool)

  datatype Result = Success(response: nat) | Failed(error: nat)

  type Dials = nat -> Dialed

  type Replies = nat -> Reply

  /** The first attempt that connects, or `retries + 1` if none does. */
  ghost function FirstUp(dial: Dials, retries: nat, from: nat): (k: nat)
    requires from <= retries + 1
    ensures from <= k <= retries + 1
    ensures k <= retries ==> dial(k).Up?
    ensures forall j :: from <= j < k ==> dial(j).Down?
    decreases retries + 1 - from
  {
    if from == retries + 1 || dial(from).Up? then from else FirstUp(dial, retries, from + 1)
  }

  /** A reply that ends the retry loop: not to be retried, or no retries left. */
  ghost predicate Decisive(reply: Replies, retries: nat, k: nat) {
    k == retries || (reply(k).Answer? && !reply(k).needRetry)
  }

  ghost function FirstDecisive(reply: Replies, retries: nat, from: nat): (k: nat)
    requires from <= retries
    ensures from <= k <= retries && Decisive(reply, retries, k)
    ensures forall j :: from <= j < k ==> !Decisive(reply, retries, j)
    decreases retries - from
  {
    if Decisive(reply, retries, from) then from else FirstDecisive(reply, retries, from + 1)
  }

  function Outcome(r: Reply): Result {
    match r
    case Broken(e) => Failed(e)
    case Answer(res, _) => Success(res)
  }

  type Pool = map<string, seq<Conn>>

  function Conns(p: Pool, address: string): seq<Conn> {
    if address in p then p[address] else []
  }

  /** Whether a connection to `address` can be had at all. */
  ghost predicate Connects(p: Pool, address: string, dial: Dials, retries: nat) {
    Conns(p, address) != [] || FirstUp(dial, retries, 0) <= retries
  }

  class ConnectionPool {
    var connections: Pool

    constructor ()
      ensures connections == map[]
    {
      connections := map[];
    }

    /** The oldest pooled connection, else up to `retries + 1` dials. */
    method GetConnection(address: string, retries: nat, dial: Dials) returns (r: Dialed, dials: nat)
      modifies this
      ensures dials <= retries + 1
      ensures r.Up? <==> Connects(old(connections), address, dial, retries)
      ensures var was := Conns(old(connections), address);
        if was != [] then
          r == Up(was[0]) && dials == 0 && connections == old(connections)[address := was[1..]]
        else
          connections == old(connections) &&
          var k := FirstUp(dial, retries, 0);
          if k <= retries then r == dial(k) && dials == k + 1 else r == dial(retries) && dials == retries + 1
    {
      if address in connections && |connections[address]| > 0 {
        var conn := connections[address][0];
        connections := connections[address := connections[address][1..]];
        return Up(conn), 0;
      }
      var left: nat := retries;
      dials := 0;
      while true
        invariant left + dials == retries
        invariant FirstUp(dial, retries, 0) == FirstUp(dial, retries, dials)
        invariant connections == old(connections)
        decreases left
      {
        r := dial(dials);
        if r.Down? && left > 0 {
          left := left - 1;
          dials := dials + 1;
          continue;
        }
        dials := dials + 1;
        return;
      }
    }

    method PutConnection(address: string, conn: Conn)
      modifies this
      ensures connections == old(connections)[address := Conns(old(connections), address) + [conn]]
    {
      connections := connections[address := (if address in connections then connections[address] else []) + [conn]];
    }

    method Release(address: string)
      modifies this
      ensures connections == old(connections) - {address}
    {
      connections := connections - {address};
    }

    /** The retry loop of one address. */
    method Call(retries: nat, reply: Replies) returns (r: Result, calls: nat)
      ensures var k := FirstDecisive(reply, retries, 0);
        r == Outcome(reply(k)) && calls == k + 1
    {
      var retryTimes: nat := retries;
      calls := 0;
      while true
        invariant retryTimes + calls == retries
        invariant FirstDecisive(reply, retries, 0) == FirstDecisive(reply, retries, calls)
        decreases retryTimes
      {
        var res := reply(calls);
        calls := calls + 1;
        if res.Broken? {
          if retryTimes > 0 {
            retryTimes := retryTimes - 1;
            continue;
          }
          return Failed(res.error), calls;
        }
        if res.needRetry && retryTimes > 0 {
          retryTimes := retryTimes - 1;
          continue;
        }
        return Success(res.response), calls;
      }
    }

    /** GetRpcResponse.  `used` is the position of the address that was called
        (`|addrs|` if none), `calls` how often, `dials` the dials per address tried. */
    method GetRpcResponse(addrs: seq<string>, retries: nat, dial: nat -> Dials, reply: Replies)
      returns (result: Result, used: nat, calls: nat, dials: seq<nat>)
      requires addrs != []
      modifies this
      ensures used <= |addrs|
      ensures forall i :: 0 <= i < used ==> !Connects(old(connections), addrs[i], dial(i), retries)
      ensures used < |addrs| ==> Connects(old(connections), addrs[used], dial(used), retries)
      ensures used < |addrs| ==>
        var k := FirstDecisive(reply, retries, 0);
        result == Outcome(reply(k)) && calls == k + 1 <= retries + 1
      ensures used == |addrs| ==> dial(|addrs| - 1)(retries).Down?
      ensures used == |addrs| ==> result == Failed(dial(|addrs| - 1)(retries).error) && calls == 0
      ensures |dials| == if used < |addrs| then used + 1 else used
      ensures forall i :: 0 <= i < |dials| ==> dials[i] <= retries + 1
      ensures used == |addrs| ==> connections == old(connections)
      ensures used < |addrs| ==>
        connections == Returned(old(connections), addrs[used], dial(used), retries)
    {
      result, used, calls, dials := Failed(0), 0, 0, [];
      while used < |addrs|
        invariant used <= |addrs| && |dials| == used
        invariant connections == old(connections)
        invariant forall i :: 0 <= i < used ==> !Connects(connections, addrs[i], dial(i), retries)
        invariant forall i :: 0 <= i < |dials| ==> dials[i] <= retries + 1
        invariant used > 0 ==> dial(used - 1)(retries).Down? && result == Failed(dial(used - 1)(retries).error)
      {
        var address := addrs[used];
        var conn, n := GetConnection(address, retries, dial(used));
        dials := dials + [n];
        if conn.Down? {
          result := Failed(conn.error);
          used := used + 1;
          continue;
        }
        result, calls := Call(retries, reply);
        PutConnection(address, conn.conn);
        assert Conns(old(connections), address) == [] ==> [] + [conn.conn] == [conn.conn];
        return;
      }
    }
  }

  /** The pool after a call over `address`: the connection used, pooled or newly
      dialled, is at the end of the address's queue; nothing else has changed. */
  ghost function Returned(p: Pool, address: string, dial: Dials, retries: nat): Pool
    requires Connects(p, address, dial, retries)
  {
    var was := Conns(p, address);
    p[address := if was != [] then was[1..] + [was[0]] else [dial(FirstUp(dial, retries, 0)).conn]]
  }

  /** Connections are conserved: a call keeps every pooled connection and adds at
      most the one it had to dial. */
  lemma CallConserves(p: Pool, address: string, dial: Dials, retries: nat, a: string)
    requires Connects(p, address, dial, retries)
    ensures var q := Returned(p, address, dial, retries);
      && multiset(Conns(q, a)) == multiset(Conns(p, a)) +
           (if a == address && Conns(p, a) == [] then multiset{dial(FirstUp(dial, retries, 0)).conn} else multiset{})
      && Conns(q, address) != []
  {
    var was := Conns(p, address);
    if was != [] {
      assert was == [was[0]] + was[1..];
    }
  }

  // ------------------------------------------- many goroutines on one pool

  type Link = (string, Conn)

  /** The pool with what the goroutines hold, and what was dialled and released. */
  datatype Traffic = Traffic(pool: Pool, held: multiset<Link>, dialled: multiset<Link>, released: multiset<Link>)

  /** The atomic actions: GetConnection takes under the lock or dials outside it. */
  datatype Act = Take(address: string) | Dial(address: string, conn: Conn) | Put(address: string, conn: Conn)
               | Drop(address: string)

  predicate Enabled(t: Traffic, a: Act) {
    match a
    case Take(address) => Conns(t.pool, address) != []
    case Dial(_, _) => true
    case Put(address, conn) => (address, conn) in t.held
    case Drop(_) => true
  }

  function Links(address: string, conns: seq<Conn>): multiset<Link> {
    if conns == [] then multiset{} else multiset{(address, conns[0])} + Links(address, conns[1..])
  }

  function Next(t: Traffic, a: Act): Traffic
    requires Enabled(t, a)
  {
    match a
    case Take(address) =>
      var conns := Conns(t.pool, address);
      t.(pool := t.pool[address := conns[1..]], held := t.held + multiset{(address, conns[0])})
    case Dial(address, conn) =>
      t.(held := t.held + multiset{(address, conn)}, dialled := t.dialled + multiset{(address, conn)})
    case Put(address, conn) =>
      t.(pool := t.pool[address := Conns(t.pool, address) + [conn]], held := t.held - multiset{(address, conn)})
    case Drop(address) =>
      t.(pool := t.pool - {address}, released := t.released + Links(address, Conns(t.pool, address)))
  }

  ghost predicate CanRun(t: Traffic, run: seq<Act>)
    decreases run
  {
    run == [] || (Enabled(t, run[0]) && CanRun(Next(t, run[0]), run[1..]))
  }

  ghost function After(t: Traffic, run: seq<Act>): Traffic
    requires CanRun(t, run)
    decreases run
  {
    if run == [] then t else After(Next(t, run[0]), run[1..])
  }

  /** How often a connection is pooled, held or released. */
  ghost function Kept(t: Traffic, l: Link): nat {
    Links(l.0, Conns(t.pool, l.0))[l] + t.held[l] + t.released[l]
  }

  /** From `t` to `u` as many were kept more as were dialled. */
  ghost predicate Conserved(t: Traffic, u: Traffic, l: Link) {
    Kept(u, l) + t.dialled[l] == Kept(t, l) + u.dialled[l]
  }

  lemma {:induction false} LinksAppend(address: string, conns: seq<Conn>, conn: Conn)
    ensures Links(address, conns + [conn]) == Links(address, conns) + multiset{(address, conn)}
  {
    if conns == [] {
      assert [] + [conn] == [conn];
    } else {
      assert (conns + [conn])[1..] == conns[1..] + [conn];
      LinksAppend(address, conns[1..], conn);
    }
  }

  lemma {:induction false} LinksElsewhere(address: string, conns: seq<Conn>, other: string, conn: Conn)
    requires other != address
    ensures Links(address, conns)[(other, conn)] == 0
  {
    if conns != [] {
      LinksElsewhere(address, conns[1..], other, conn);
    }
  }

  lemma TakeConserves(t: Traffic, address: string, l: Link)
    requires Conns(t.pool, address) != []
    ensures Conserved(t, Next(t, Take(address)), l)
  {
    var u := Next(t, Take(address));
    var conns := Conns(t.pool, address);
    assert Links(address, conns) == multiset{(address, conns[0])} + Links(address, conns[1..]);
    assert l.0 != address ==> Conns(u.pool, l.0) == Conns(t.pool, l.0);
  }

  lemma PutConserves(t: Traffic, address: string, conn: Conn, l: Link)
    requires (address, conn) in t.held
    ensures Conserved(t, Next(t, Put(address, conn)), l)
  {
    var u := Next(t, Put(address, conn));
    LinksAppend(address, Conns(t.pool, address), conn);
    assert l.0 != address ==> Conns(u.pool, l.0) == Conns(t.pool, l.0);
  }

  lemma DropConserves(t: Traffic, address: string, l: Link)
    ensures Conserved(t, Next(t, Drop(address)), l)
  {
    var u := Next(t, Drop(address));
    if l.0 == address {
      assert Conns(u.pool, address) == [] && Links(address, []) == multiset{};
    } else {
      LinksElsewhere(address, Conns(t.pool, address), l.0, l.1);
      assert Conns(u.pool, l.0) == Conns(t.pool, l.0);
    }
  }

  lemma StepConserves(t: Traffic, a: Act, l: Link)
    requires Enabled(t, a)
    ensures Conserved(t, Next(t, a), l)
  {
    match a {
      case Take(address) => TakeConserves(t, address, l);
      case Put(address, conn) => PutConserves(t, address, conn, l);
      case Drop(address) => DropConserves(t, address, l);
      case Dial(_, _) =>
    }
  }

  /** However the calls of many goroutines interleave, every connection that was
      pooled or dialled is pooled, held or released, as often as it was, and under
      its own address. */
  lemma {:induction false} TrafficConserves(t: Traffic, run: seq<Act>, l: Link)
    requires CanRun(t, run)
    ensures Conserved(t, After(t, run), l)
    decreases run
  {
    if run != [] {
      StepConserves(t, run[0], l);
      TrafficConserves(Next(t, run[0]), run[1..], l);
    }
  }
}
