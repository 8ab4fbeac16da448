/** The polling subscription: a block cursor that advances over a chain through failing requests and cancellation,
    sending each block's logs once. */
module Polling {

  /** What one turn of the loop meets.  A cancellation may strike between polls, or while a poll is sending, after
      `sent` of its logs, in which case the cursor does not move unless that was all of them. */
  datatype Turn =
    | HeadFails
    | LogsFail(head: nat)
    | Polled(head: nat)
    | CancelledIdle
    | CancelledSending(head: nat, sent: nat)

  /** The filtered logs of the blocks above `from` up to `upTo`, in block order. */
  function LogsBetween<L>(logsOf: nat -> seq<L>, from: nat, upTo: nat): seq<L>
    decreases upTo
  {
    if upTo <= from then [] else LogsBetween(logsOf, from, upTo - 1) + logsOf(upTo)
  }

  lemma {:induction false} LogsSplit<L>(logsOf: nat -> seq<L>, from: nat, mid: nat, upTo: nat)
    requires from <= mid <= upTo
    ensures LogsBetween(logsOf, from, upTo) == LogsBetween(logsOf, from, mid) + LogsBetween(logsOf, mid, upTo)
    decreases upTo
  {
    if upTo == mid {
      assert LogsBetween(logsOf, mid, upTo) == [];
    } else {
      LogsSplit(logsOf, from, mid, upTo - 1);
    }
  }

  /** One more block adds exactly its own logs. */
  lemma OneBlock<L>(logsOf: nat -> seq<L>, from: nat)
    ensures LogsBetween(logsOf, from, from + 1) == logsOf(from + 1)
  {
    assert LogsBetween(logsOf, from, from) == [];
  }

  /** A log is in the range exactly when it is in a block above `from` and not above `upTo`. */
  lemma {:induction false} LogsAreOfBlocks<L>(logsOf: nat -> seq<L>, from: nat, upTo: nat, log: L)
    ensures log in LogsBetween(logsOf, from, upTo) <==> exists b :: from < b <= upTo && log in logsOf(b)
    decreases upTo
  {
    if from < upTo {
      LogsAreOfBlocks(logsOf, from, upTo - 1, log);
      if b :| from < b <= upTo && log in logsOf(b) {
        assert b == upTo || from < b <= upTo - 1;
      }
    }
  }

  /** The logs a query for blocks `from` to `upTo`, both included, finds on an append-only chain. */
  function FilterLogs<L>(logsOf: nat -> seq<L>, from: nat, upTo: nat): seq<L>
    requires from > 0
  {
    LogsBetween(logsOf, from - 1, upTo)
  }

  class Poller<L> {
    const start: nat
    var lastBlock: nat
    var logs: seq<L>  // everything sent to the log channel
    var closed: bool

    constructor (head: nat)
      ensures start == lastBlock == head && logs == [] && !closed
    {
      start, lastBlock := head, head;
      logs, closed := [], false;
    }

    /** Between polls, exactly the logs of the blocks since the start up to the cursor have been sent. */
    ghost predicate CaughtUp(logsOf: nat -> seq<L>)
      reads this
    {
      start <= lastBlock && logs == LogsBetween(logsOf, start, lastBlock)
    }

    /** The polling goroutine, until the turns given run out or it is cancelled.  `reached` is the end of the range
        in progress when it stopped, the cursor itself when no range was. */
    method Poll(logsOf: nat -> seq<L>, turns: seq<Turn>) returns (reached: nat)
      requires !closed && CaughtUp(logsOf)
      modifies this
      ensures start <= old(lastBlock) <= lastBlock <= reached
      ensures LogsBetween(logsOf, start, lastBlock) <= logs <= LogsBetween(logsOf, start, reached)
      ensures !closed ==> reached == lastBlock
      ensures !closed ==> forall log :: log in logs <==> exists b :: start < b <= lastBlock && log in logsOf(b)
      ensures closed <==> exists turn :: turn in turns && Stops(turn)
      ensures forall turn :: turn in turns && turn.Polled? && !closed ==> turn.head <= lastBlock
      ensures lastBlock == old(lastBlock)
              || exists turn :: turn in turns && (turn.Polled? || turn.CancelledSending?) && turn.head == lastBlock
    {
      for t := 0 to |turns|
        invariant !closed && CaughtUp(logsOf) && old(lastBlock) <= lastBlock
        invariant forall turn :: turn in turns[..t] ==> !Stops(turn)
        invariant forall turn :: turn in turns[..t] && turn.Polled? ==> turn.head <= lastBlock
        invariant lastBlock == old(lastBlock)
                  || exists turn :: turn in turns[..t] && turn.Polled? && turn.head == lastBlock
      {
        assert turns[..t + 1] == turns[..t] + [turns[t]];
        match turns[t]
        case HeadFails =>
        case CancelledIdle =>
          assert Stops(turns[t]);
          closed := true;
          return lastBlock;
        case LogsFail(head) =>
        case Polled(head) =>
          if head > lastBlock {
            var _ := SendRange(logsOf, head, |FilterLogs(logsOf, lastBlock + 1, head)|);
            lastBlock := head;
          }
        case CancelledSending(head, sent) =>
          assert Stops(turns[t]);
          reached := lastBlock;
          if head > lastBlock {
            var all := SendRange(logsOf, head, sent);
            reached := head;
            if all {
              lastBlock := head;
            }
          }
          closed := true;
          return;
      }
      assert turns[..|turns|] == turns;
      reached := lastBlock;
      forall log
        ensures log in logs <==> exists b :: start < b <= lastBlock && log in logsOf(b)
      {
        LogsAreOfBlocks(logsOf, start, lastBlock, log);
      }
    }

    /** Sends the logs of the blocks above the cursor up to head, or only the first `limit` of them. */
    method SendRange(logsOf: nat -> seq<L>, head: nat, limit: nat) returns (all: bool)
      requires CaughtUp(logsOf) && head > lastBlock
      modifies this`logs
      ensures LogsBetween(logsOf, start, lastBlock) <= logs <= LogsBetween(logsOf, start, head)
      ensures all <==> limit >= |FilterLogs(logsOf, lastBlock + 1, head)|
      ensures all ==> logs == LogsBetween(logsOf, start, head)
    {
      var results := FilterLogs(logsOf, lastBlock + 1, head);
      LogsSplit(logsOf, start, lastBlock, head);
      ghost var before := logs;
      for i := 0 to |results|
        invariant logs == before + results[..i] && i <= limit
      {
        if i == limit {
          return false;
        }
        assert results[..i + 1] == results[..i] + [results[i]];
        logs := logs + [results[i]];
      }
      assert results[..|results|] == results;
      all := true;
    }
  }

  /** The turn ends the goroutine. */
  predicate Stops(turn: Turn) {
    turn.CancelledIdle? || turn.CancelledSending?
  }

  /** Two schedules over the same chain that leave the cursor at the same block have sent the same logs, whatever
      failed and however often each polled. */
  method TwoSchedulesAgree<L>(logsOf: nat -> seq<L>, head: nat, one: seq<Turn>, other: seq<Turn>)
    returns (a: Poller<L>, b: Poller<L>)
    requires forall turn :: turn in one + other ==> !Stops(turn)
    ensures a.lastBlock == b.lastBlock ==> a.logs == b.logs
    ensures a.logs == LogsBetween(logsOf, head, a.lastBlock) && b.logs == LogsBetween(logsOf, head, b.lastBlock)
  {
    a := new Poller(head);
    b := new Poller(head);
    assert forall turn :: turn in one ==> turn in one + other;
    assert forall turn :: turn in other ==> turn in one + other;
    var _ := a.Poll(logsOf, one);
    var _ := b.Poll(logsOf, other);
  }
}
