/**
 The crossing between the asyncio loop and the rclpy thread
 (src/ros_mcp/ros/executor_thread.py, src/ros_mcp/ros/bridge.py): any number of asyncio callers, one
 executor thread, one FIFO work queue, one future per call. `Next` is one atomic step of any of them.

 A call is known by its ticket, the number of calls made before it. What its callable will do when
 it is run travels with the call as its `Outcome`, so it is arbitrary.
 */
module RosBridge {

  type Ticket = nat

  datatype Outcome = Returned(value: string) | Threw(exception: string)

  datatype Future = Pending | Resolved(outcome: Outcome) | Abandoned   // Abandoned: its caller was cancelled

  /** Where `_run` is: at the test of the stop event, in the loop's drain, in the last drain, or over. */
  datatype ThreadPc = Testing | Draining | LastDrain | Over

  /** `delivered` and `deliveries`: the completions the asyncio loop has run, and has yet to run.
      `sealedAt`: the number of calls made when the last drain found the queue empty. */
  datatype Bridge = Bridge(
    calls: seq<Outcome>, queue: seq<Ticket>, executed: seq<Ticket>, futures: seq<Future>,
    delivered: seq<Ticket>, deliveries: seq<Ticket>, stopSet: bool, pc: ThreadPc, sealedAt: nat)

  const Fresh := Bridge([], [], [], [], [], [], false, Testing, 0)

  datatype Step =
    | Call(outcome: Outcome)      // call_ros_from_asyncio: create the future, enqueue
    | RequestStop                 // stop()
    | ThreadStep                  // the executor thread's next step
    | Deliver                     // the loop runs the next call_soon_threadsafe callback
    | Abandon(ticket: Ticket)     // a caller is cancelled while waiting

  /** `_set_result_if_pending` and `_set_exception_if_pending`. */
  function SetIfPending(f: Future, outcome: Outcome): Future {
    if f == Pending then Resolved(outcome) else f
  }

  function ThreadNext(b: Bridge): Bridge {
    match b.pc
    case Testing => b.(pc := if b.stopSet then LastDrain else Draining)
    case Over => b
    case _ =>
      if |b.queue| > 0 then
        b.(queue := b.queue[1..], executed := b.executed + [b.queue[0]], deliveries := b.deliveries + [b.queue[0]])
      else if b.pc == Draining then b.(pc := Testing)
      else b.(pc := Over, sealedAt := |b.calls|)
  }

  function Next(b: Bridge, step: Step): Bridge {
    match step
    case Call(outcome) =>
      b.(calls := b.calls + [outcome], queue := b.queue + [|b.calls|], futures := b.futures + [Pending])
    case RequestStop => b.(stopSet := true)
    case ThreadStep => ThreadNext(b)
    case Deliver =>
      if |b.deliveries| == 0 then b
      else
        var t := b.deliveries[0];
        b.(deliveries := b.deliveries[1..], delivered := b.delivered + [t],
           futures := if t < |b.futures| && t < |b.calls| then b.futures[t := SetIfPending(b.futures[t], b.calls[t])]
                      else b.futures)
    case Abandon(t) =>
      if t < |b.futures| && b.futures[t] == Pending then b.(futures := b.futures[t := Abandoned]) else b
  }

  function Run(steps: seq<Step>): Bridge
    decreases |steps|
  {
    if |steps| == 0 then Fresh else Next(Run(steps[..|steps| - 1]), steps[|steps| - 1])
  }

  // ----- the invariant

  /** The tickets 0, 1, ..., in order. */
  function FirstTickets(n: nat): seq<Ticket> {
    seq(n, i => i)
  }

  ghost predicate InOrder(b: Bridge) {
    && b.executed + b.queue == FirstTickets(|b.calls|)
    && b.delivered + b.deliveries == b.executed
    && |b.futures| == |b.calls|
  }

  /** The future of a delivered call is done; a resolved one was delivered and holds its own call's
      outcome. */
  ghost predicate FutureHonest(b: Bridge, t: Ticket)
    requires t < |b.futures| && t < |b.calls|
  {
    && (t < |b.delivered| ==> b.futures[t] != Pending)
    && (b.futures[t].Resolved? ==> t < |b.delivered| && b.futures[t].outcome == b.calls[t])
  }

  ghost predicate Inv(b: Bridge) {
    && InOrder(b)
    && (forall t: Ticket | t < |b.calls| :: FutureHonest(b, t))
    && (b.pc == LastDrain || b.pc == Over ==> b.stopSet)
    && (b.pc == Over ==> b.executed == FirstTickets(b.sealedAt))
  }

  /** Where ticket numbers sit. */
  lemma TicketsInPlace(b: Bridge)
    requires InOrder(b)
    ensures |b.delivered| <= |b.executed| <= |b.calls|
    ensures forall i: nat | i < |b.executed| :: b.executed[i] == i
    ensures forall i: nat | i < |b.queue| :: b.queue[i] == |b.executed| + i
    ensures forall i: nat | i < |b.deliveries| :: b.deliveries[i] == |b.delivered| + i
  {
    var all := FirstTickets(|b.calls|);
    forall i: nat | i < |b.executed| ensures b.executed[i] == i {
      assert (b.executed + b.queue)[i] == all[i];
    }
    forall i: nat | i < |b.queue| ensures b.queue[i] == |b.executed| + i {
      assert (b.executed + b.queue)[|b.executed| + i] == all[|b.executed| + i];
    }
    forall i: nat | i < |b.deliveries| ensures b.deliveries[i] == |b.delivered| + i {
      assert (b.delivered + b.deliveries)[|b.delivered| + i] == b.executed[|b.delivered| + i];
    }
  }

  lemma CallKeeps(b: Bridge, outcome: Outcome)
    requires Inv(b)
    ensures Inv(Next(b, Call(outcome)))
  {
    var t := Next(b, Call(outcome));
    TicketsInPlace(b);
    assert t.executed + t.queue == (b.executed + b.queue) + [|b.calls|];
    forall k: Ticket | k < |t.calls| ensures FutureHonest(t, k) {
      if k < |b.calls| { assert FutureHonest(b, k); }
    }
  }

  lemma ThreadKeeps(b: Bridge)
    requires Inv(b)
    ensures Inv(ThreadNext(b))
  {
    var t := ThreadNext(b);
    if (b.pc == Draining || b.pc == LastDrain) && |b.queue| > 0 {
      assert t.executed + t.queue == b.executed + b.queue;
      assert t.delivered + t.deliveries == (b.delivered + b.deliveries) + [b.queue[0]];
    } else if b.pc == LastDrain {
      assert b.executed + b.queue == b.executed;
    }
    forall k: Ticket | k < |t.calls| ensures FutureHonest(t, k) { assert FutureHonest(b, k); }
  }

  lemma DeliverKeeps(b: Bridge)
    requires Inv(b)
    ensures Inv(Next(b, Deliver))
  {
    TicketsInPlace(b);
    var t := Next(b, Deliver);
    if |b.deliveries| > 0 {
      assert b.deliveries[0] == |b.delivered|;
      assert t.delivered + t.deliveries == b.delivered + b.deliveries;
      forall k: Ticket | k < |t.calls| ensures FutureHonest(t, k) { assert FutureHonest(b, k); }
    }
  }

  lemma AbandonKeeps(b: Bridge, ticket: Ticket)
    requires Inv(b)
    ensures Inv(Next(b, Abandon(ticket)))
  {
    var t := Next(b, Abandon(ticket));
    forall k: Ticket | k < |t.calls| ensures FutureHonest(t, k) { assert FutureHonest(b, k); }
  }

  lemma NextKeeps(b: Bridge, step: Step)
    requires Inv(b)
    ensures Inv(Next(b, step))
  {
    match step {
      case Call(outcome) => CallKeeps(b, outcome);
      case RequestStop =>
        forall k: Ticket | k < |b.calls| ensures FutureHonest(b.(stopSet := true), k) { assert FutureHonest(b, k); }
      case ThreadStep => ThreadKeeps(b);
      case Deliver => DeliverKeeps(b);
      case Abandon(t) => AbandonKeeps(b, t);
    }
  }

  lemma FreshInv()
    ensures Inv(Fresh)
  {
    assert Fresh.executed + Fresh.queue == FirstTickets(0);
  }

  lemma {:induction false} ReachableInv(steps: seq<Step>)
    ensures Inv(Run(steps))
  {
    if |steps| == 0 {
      FreshInv();
    } else {
      ReachableInv(steps[..|steps| - 1]);
      NextKeeps(Run(steps[..|steps| - 1]), steps[|steps| - 1]);
    }
  }

  // ----- the promises

  /** Over every interleaving the callables run are a prefix of the calls made, in their order, each
      once; and each future that is resolved holds the outcome of its own, executed, callable. */
  lemma RunsInCallOrder(steps: seq<Step>)
    ensures var b := Run(steps);
            && |b.executed| <= |b.calls| == |b.futures| && b.executed == FirstTickets(|b.executed|)
            && forall t: Ticket | t < |b.futures| && b.futures[t].Resolved? ::
                 t < |b.executed| && b.futures[t].outcome == b.calls[t]
  {
    ReachableInv(steps);
    var b := Run(steps);
    TicketsInPlace(b);
    forall t: Ticket | t < |b.futures| && b.futures[t].Resolved?
      ensures t < |b.executed| && b.futures[t].outcome == b.calls[t]
    {
      assert FutureHonest(b, t);
    }
  }

  /** When the loop has run every completion, exactly the executed calls are answered (or were given
      up by their callers). */
  lemma EveryExecutedCallIsAnswered(steps: seq<Step>, t: Ticket)
    requires var b := Run(steps); b.deliveries == [] && t < |b.calls|
    ensures var b := Run(steps); |b.futures| == |b.calls| && (t < |b.executed| ==> b.futures[t] != Pending)
    ensures var b := Run(steps); b.futures[t].Resolved? ==> t < |b.executed|
  {
    ReachableInv(steps);
    var b := Run(steps);
    assert b.delivered + [] == b.delivered;
    assert FutureHonest(b, t);
  }

  /** `c` is a later state of `b`: a future that is done never changes again, and once the thread is
      over nothing more is executed. */
  ghost predicate Later(b: Bridge, c: Bridge) {
    && b.calls <= c.calls && b.executed <= c.executed && |b.futures| <= |c.futures|
    && (forall t: Ticket | t < |b.futures| && b.futures[t] != Pending :: c.futures[t] == b.futures[t])
    && (b.pc == Over ==> c.pc == Over && c.executed == b.executed && c.sealedAt == b.sealedAt)
  }

  lemma NextIsLater(b: Bridge, step: Step)
    ensures Later(b, Next(b, step))
  {}

  /** No future is ever resolved twice, whatever happens. */
  lemma {:induction false} FuturesResolveOnce(steps: seq<Step>, k: nat)
    requires k <= |steps|
    ensures Later(Run(steps[..k]), Run(steps))
  {
    if k == |steps| {
      assert steps[..k] == steps;
    } else {
      var init := steps[..|steps| - 1];
      assert init[..k] == steps[..k];
      FuturesResolveOnce(init, k);
      NextIsLater(Run(init), steps[|steps| - 1]);
    }
  }

  /** After the thread is over exactly the calls made before its last drain found the queue empty
      have been run: a later call's callable is never run and its future never resolved. */
  lemma LastDrainRunsAllBefore(steps: seq<Step>)
    requires Run(steps).pc == Over
    ensures var b := Run(steps);
            && b.sealedAt <= |b.calls| == |b.futures| && b.executed == FirstTickets(b.sealedAt)
            && forall t: Ticket | b.sealedAt <= t < |b.calls| :: !b.futures[t].Resolved?
  {
    ReachableInv(steps);
    RunsInCallOrder(steps);
    TicketsInPlace(Run(steps));
  }

  /** The thread alone, `n` steps. */
  function ThreadSteps(b: Bridge, n: nat): Bridge
    decreases n
  {
    if n == 0 then b else ThreadSteps(ThreadNext(b), n - 1)
  }

  /** A drain the callers leave alone empties the queue, in order; the last one then ends the thread. */
  lemma {:induction false} DrainEmptiesQueue(b: Bridge)
    requires b.pc == Draining || b.pc == LastDrain
    ensures var c := ThreadSteps(b, |b.queue| + 1);
            && c.queue == [] && c.executed == b.executed + b.queue
            && c.pc == (if b.pc == Draining then Testing else Over)
    decreases |b.queue|
  {
    if |b.queue| > 0 {
      DrainEmptiesQueue(ThreadNext(b));
      assert b.queue == [b.queue[0]] + b.queue[1..];
    } else {
      assert b.executed + b.queue == b.executed;
      assert ThreadSteps(b, 1) == ThreadSteps(ThreadNext(b), 0);
    }
  }

  // ----- the two objects as the source writes them

  function Concat(arrivals: seq<seq<Ticket>>): seq<Ticket>
    decreases |arrivals|
  {
    if |arrivals| == 0 then [] else Concat(arrivals[..|arrivals| - 1]) + arrivals[|arrivals| - 1]
  }

  /** The executor thread and the bridge above it. */
  class ExecutorThread {
    var calls: seq<Outcome>
    var queue: seq<Ticket>
    var executed: seq<Ticket>
    var futures: seq<Future>
    var delivered: seq<Ticket>
    var deliveries: seq<Ticket>
    var stopSet: bool
    var pc: ThreadPc
    ghost var sealedAt: nat

    ghost function View(): Bridge
      reads this
    {
      Bridge(calls, queue, executed, futures, delivered, deliveries, stopSet, pc, sealedAt)
    }

    constructor ()
      ensures View() == Fresh
    {
      calls, queue, executed, futures, delivered, deliveries := [], [], [], [], [], [];
      stopSet, pc, sealedAt := false, Testing, 0;
    }

    /** `call_ros_from_asyncio` up to its await. */
    method CallRosFromAsyncio(outcome: Outcome) returns (ticket: Ticket)
      modifies this
      ensures View() == Next(old(View()), Call(outcome)) && ticket == |old(calls)|
    {
      ticket := |calls|;
      calls := calls + [outcome];
      futures := futures + [Pending];
      queue := queue + [ticket];
    }

    method RequestsStop()
      modifies this`stopSet
      ensures View() == Next(old(View()), RequestStop)
    {
      stopSet := true;
    }

    /** One step of `_run`: the loop test, or one round of `_drain_work_queue`. */
    method ThreadRuns()
      modifies this
      ensures View() == Next(old(View()), ThreadStep)
    {
      if pc == Testing {
        if stopSet { pc := LastDrain; } else { pc := Draining; }
      } else if pc != Over {
        if |queue| == 0 {
          if pc == Draining {
            pc := Testing;
          } else {
            pc, sealedAt := Over, |calls|;
          }
        } else {
          var fn := queue[0];
          queue := queue[1..];
          executed := executed + [fn];
          deliveries := deliveries + [fn];
        }
      }
    }

    /** The loop runs the next completion. */
    method Delivers()
      requires Inv(View())
      modifies this
      ensures View() == Next(old(View()), Deliver)
    {
      if |deliveries| > 0 {
        TicketsInPlace(View());
        var t := deliveries[0];
        deliveries := deliveries[1..];
        delivered := delivered + [t];
        if futures[t] == Pending {
          futures := futures[t := Resolved(calls[t])];
        } else {
          assert futures[t := futures[t]] == futures;
        }
      }
    }

    /** `_drain_work_queue` while other threads keep enqueueing: `arrivals[i]` comes in just before
        the `i`-th `get_nowait`. Nothing is lost, duplicated or reordered, and the drain only stops
        on an empty queue. */
    method DrainWorkQueue(arrivals: seq<seq<Ticket>>) returns (rounds: nat, emptied: bool)
      modifies this`queue, this`executed, this`deliveries
      ensures rounds <= |arrivals|
      ensures executed + queue == old(executed) + old(queue) + Concat(arrivals[..rounds]) && old(executed) <= executed
      ensures emptied ==> queue == []
      ensures !emptied ==> rounds == |arrivals| && |executed| == |old(executed)| + rounds
    {
      rounds, emptied := 0, false;
      assert Concat(arrivals[..0]) == [];
      while rounds < |arrivals|
        invariant rounds <= |arrivals| && !emptied && |executed| == |old(executed)| + rounds
        invariant executed + queue == old(executed) + old(queue) + Concat(arrivals[..rounds])
                  && old(executed) <= executed
      {
        ghost var before := executed + queue;
        assert arrivals[..rounds + 1][..rounds] == arrivals[..rounds];
        queue := queue + arrivals[rounds];
        rounds := rounds + 1;
        assert executed + queue == before + arrivals[rounds - 1];
        if |queue| == 0 {
          return rounds, true;
        }
        var fn := queue[0];
        assert executed + queue == (executed + [fn]) + queue[1..];
        queue := queue[1..];
        executed := executed + [fn];
        deliveries := deliveries + [fn];
      }
    }
  }
}
