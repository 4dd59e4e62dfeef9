/**
 The result monitor of internal/tasks/monitor.go and the status of the main bar
 in internal/tasks/tasks.go.
 */
module TaskMonitor {

  /** What a task returns: nil, ERR_SKIP_TASK, or any other error. */
  datatype Outcome = Success | Skip | Failure(code: nat)

  datatype Status = StatusOk | StatusSkip | StatusError

  /** The monitor's fields as a value: results per bar id, and the last real error
      (`Success` stands for nil). */
  datatype Board = Board(err: Outcome, result: map<nat, seq<Outcome>>)

  const EMPTY := Board(Success, map[])

  function Results(b: Board, bid: nat): seq<Outcome> {
    if bid in b.result then b.result[bid] else []
  }

  function Record(b: Board, bid: nat, o: Outcome): Board {
    Board(if o.Failure? then o else b.err, b.result[bid := Results(b, bid) + [o]])
  }

  /** Status of a list of results, as `get` reads it off the three counts. */
  predicate Failed(os: seq<Outcome>) {
    exists i :: 0 <= i < |os| && os[i].Failure?
  }

  predicate AllSkipped(os: seq<Outcome>) {
    forall i :: 0 <= i < |os| ==> os[i].Skip?
  }

  function StatusOf(os: seq<Outcome>): Status {
    if Failed(os) then StatusError else if AllSkipped(os) then StatusSkip else StatusOk
  }

  /** The stored error is a real error, and it is there iff one was recorded. */
  ghost predicate Faithful(b: Board) {
    && !b.err.Skip?
    && (b.err.Failure? <==> exists bid :: bid in b.result && Failed(b.result[bid]))
  }

  lemma RecordFaithful(b: Board, bid: nat, o: Outcome)
    requires Faithful(b)
    ensures Faithful(Record(b, bid, o))
  {
    var c := Record(b, bid, o);
    var was, now := Results(b, bid), Results(c, bid);
    assert now == was + [o];
    assert Failed(now) <==> Failed(was) || o.Failure? by {
      if Failed(was) {
        var i :| 0 <= i < |was| && was[i].Failure?;
        assert now[i].Failure?;
      }
      assert now[|was|] == o;
    }
    if b.err.Failure? {
      var x :| x in b.result && Failed(b.result[x]);
      assert x in c.result && Failed(c.result[x]);
    }
    if o.Failure? {
      assert bid in c.result && Failed(c.result[bid]);
    }
    if c.err.Success? {
      forall x | x in c.result ensures !Failed(c.result[x]) {
        if x != bid {
          assert c.result[x] == b.result[x];
        } else {
          assert bid in b.result ==> !Failed(b.result[bid]);
        }
      }
    }
  }

  class Monitor {
    var err: Outcome
    var result: map<nat, seq<Outcome>>

    function View(): Board
      reads this
    {
      Board(err, result)
    }

    constructor ()
      ensures View() == EMPTY
    {
      err, result := Success, map[];
    }

    method Set(bid: nat, o: Outcome)
      modifies this
      ensures View() == Record(old(View()), bid, o)
    {
      result := result[bid := (if bid in result then result[bid] else []) + [o]];
      if o != Success && o != Skip {
        err := o;
      }
    }

    /** Counts of success, skip and error; together they are all results of the bar. */
    method Sum(bid: nat) returns (nsucc: nat, nskip: nat, nerr: nat)
      ensures nsucc == multiset(Results(View(), bid))[Success]
      ensures nskip == multiset(Results(View(), bid))[Skip]
      ensures nsucc + nskip + nerr == |Results(View(), bid)|
      ensures nerr == 0 <==> !Failed(Results(View(), bid))
      ensures nskip == |Results(View(), bid)| <==> AllSkipped(Results(View(), bid))
    {
      var os := if bid in result then result[bid] else [];
      nsucc, nskip, nerr := 0, 0, 0;
      for i := 0 to |os|
        invariant nsucc == multiset(os[..i])[Success]
        invariant nskip == multiset(os[..i])[Skip]
        invariant nsucc + nskip + nerr == i
        invariant nerr == 0 <==> !Failed(os[..i])
        invariant nskip == i <==> AllSkipped(os[..i])
        invariant nskip <= i
      {
        assert os[..i + 1] == os[..i] + [os[i]];
        assert Failed(os[..i + 1]) <==> Failed(os[..i]) || os[i].Failure? by {
          assert os[..i + 1][i] == os[i];
          assert forall j :: 0 <= j < i ==> os[..i + 1][j] == os[..i][j];
        }
        if os[i] == Success {
          nsucc := nsucc + 1;
        } else if os[i] == Skip {
          nskip := nskip + 1;
        } else {
          nerr := nerr + 1;
        }
      }
      assert os[..|os|] == os;
    }

    method Get(bid: nat) returns (s: Status)
      ensures s == StatusOf(Results(View(), bid))
    {
      var nsucc, nskip, nerr := Sum(bid);
      var total := nsucc + nskip + nerr;
      if nerr != 0 {
        return StatusError;
      } else if nskip == total {
        return StatusSkip;
      }
      s := StatusOk;
    }

    /** setMainBarStatus: the bars come in whatever order the map delivers them. */
    method SetMainBarStatus(bars: set<nat>, main: nat)
      modifies this
      ensures View() == Record(old(View()), main, MainOutcome(old(View()), bars))
    {
      var todo := bars;
      var nsucc := 0;
      while todo != {}
        invariant todo <= bars
        invariant forall b :: b in bars - todo ==> StatusOf(Results(View(), b)) != StatusError
        invariant nsucc == 0 <==> forall b :: b in bars - todo ==> StatusOf(Results(View(), b)) != StatusOk
        invariant View() == old(View()) && 0 <= nsucc
        decreases todo
      {
        var b :| b in todo;
        var status := Get(b);
        if status == StatusError {
          Set(main, err);
          return;
        } else if status == StatusOk {
          nsucc := nsucc + 1;
        }
        todo := todo - {b};
      }
      if nsucc == 0 {
        Set(main, Skip);
      } else {
        Set(main, Success);
      }
    }
  }

  /** What is recorded for the main bar. */
  ghost function MainOutcome(b: Board, bars: set<nat>): Outcome {
    if exists x :: x in bars && StatusOf(Results(b, x)) == StatusError then b.err
    else if exists x :: x in bars && StatusOf(Results(b, x)) == StatusOk then Success
    else Skip
  }
}
