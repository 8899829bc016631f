/**
 `DefaultExecutionManager` as the source writes it: three dictionaries changed in place, one method
 per stretch of code between two suspension points, each proved to be the protocol's action. With it
 the field of the navigation plugin that the manager's stop reads, and the executor thread's queue of
 `cancel_all` callables.
 */
module ExecutionManager {
  import opened RealMath
  import opened SafetyPolicy
  import opened ExecutionProtocol
  import opened GoalHandle

  class Manager {
    const wiring: Wiring
    /** The event loop's tasks with the command objects they run. */
    var tasks: seq<Exec>
    var inFlight: map<CommandId, nat>
    var tokens: map<CommandId, nat>
    var active: map<RobotId, nat>
    /** The tokens whose flag is set. */
    var cancelled: set<nat>
    ghost var registrations: seq<Registration>
    /** The navigation plugin's `_active_goal_handle`, and its history. */
    var handle: Option<GoalId>
    ghost var writes: seq<HandleWrite>
    /** The stops whose cancel callable waits in the executor thread's queue. */
    var cancelQueue: seq<nat>
    var goalsCancelled: set<GoalId>

    ghost function View(): System
      reads this
    {
      System(tasks, inFlight, tokens, active, cancelled, registrations, handle, writes, cancelQueue, goalsCancelled)
    }

    constructor (w: Wiring)
      ensures wiring == w && View() == Empty
    {
      wiring := w;
      tasks, inFlight, tokens, active, cancelled, registrations := [], map[], map[], map[], {}, [];
      handle, writes, cancelQueue, goalsCancelled := None, [], [], {};
    }

    /** `submit` up to its await: join the execution in flight under this id, or start one. */
    method Submit(c: Command) returns (serving: nat)
      modifies this
      ensures View() == Next(wiring, old(View()), Action.Submit(c))
      ensures c.id in inFlight && serving == inFlight[c.id]
    {
      if c.id in inFlight {
        return inFlight[c.id];
      }
      serving := |tasks|;
      tasks := tasks + [Exec(c, Created, [], true, NotAccepted)];
      inFlight := inFlight[c.id := serving];
    }

    /** `submit`'s finally. */
    method Release(e: nat)
      requires e < |tasks| && tasks[e].pc.Done? && tasks[e].owned
      modifies this
      ensures View() == Next(wiring, old(View()), Released(e))
    {
      inFlight := inFlight - {tasks[e].command.id};
      tasks := tasks[e := tasks[e].(owned := false)];
    }

    /** `cancel`. */
    method Cancel(id: CommandId) returns (found: bool)
      modifies this
      ensures View() == Next(wiring, old(View()), CancelRequested(id)) && found == (id in old(tokens))
    {
      if id !in tokens {
        return false;
      }
      cancelled := cancelled + {tokens[id]};
      return true;
    }

    /** The task suspends at `pc`, or ends, having done `marks`. */
    method Suspends(e: nat, pc: Pc, marks: seq<Mark>)
      requires e < |tasks|
      modifies this`tasks
      ensures View() == Suspend(old(View()), e, pc, marks)
    {
      tasks := tasks[e := tasks[e].(pc := pc, trail := tasks[e].trail + marks)];
    }

    /** `_execute` into `_execute_read` or `_execute_motion`, up to the first await. */
    method Begins(e: nat, hasHandler: bool)
      requires At(View(), e, Created)
      modifies this
      ensures View() == Next(wiring, old(View()), Begin(e, hasHandler))
    {
      if tasks[e].command.isRead {
        if !hasHandler {
          Suspends(e, Done(Some(StatusFailed)), [Entered(Executing), Entered(Failed)]);
        } else {
          Suspends(e, AwaitingHandler, [Entered(Executing)]);
        }
      } else {
        Suspends(e, AwaitingPose, [Entered(InSafetyCheck)]);
      }
    }

    method ReadAnswered(e: nat, succeeded: bool)
      requires At(View(), e, AwaitingHandler)
      modifies this
      ensures View() == Next(wiring, old(View()), ReadHandled(e, succeeded))
    {
      Suspends(e, Done(Some(StatusOf(succeeded))), [Entered(StateOf(succeeded))]);
    }

    /** `_execute_motion` from the pose to the next await. */
    method PoseAnswered(e: nat, decision: Decision, offered: bool)
      requires At(View(), e, AwaitingPose)
      modifies this
      ensures View() == Next(wiring, old(View()), PoseResolved(e, decision, offered))
    {
      var c := tasks[e].command;
      if decision.Deny? {
        Suspends(e, Done(Some(StatusFailed)), [Decided(decision), Entered(SafetyRefused)]);
        return;
      }
      if decision.RequireApproval? {
        Suspends(e, Done(Some(StatusAwaitingApproval)), [Decided(decision), Entered(ApprovalAwaited)]);
        return;
      }
      if c.op == StopOp {
        SignalsActive(e);
        if wiring.hasMotion {
          Suspends(e, AwaitingMotionStop, [Decided(Allow), Entered(InPlanning)] + [MotionStopCalled]);
        } else {
          StopsNavigation(e, [Decided(Allow), Entered(InPlanning)]);
        }
        return;
      }
      if !offered || c.op == OtherOp {
        Suspends(e, Done(Some(StatusFailed)),
                 [Decided(Allow), Entered(InPlanning), Offered(false), Entered(BackendUnavailable)]);
        return;
      }
      tokens := tokens[c.id := e];
      active := active[c.robot := e];
      registrations := registrations + [Registration(c.robot, e)];
      Suspends(e, AwaitingBackend,
               [Decided(Allow), Entered(InPlanning), Offered(true), Entered(Executing), Dispatched(c.op)]);
    }

    /** `_handle_stop`, lines 226-232. */
    method SignalsActive(e: nat)
      requires e < |tasks|
      modifies this`cancelled
      ensures View() == SignalActive(old(View()), e)
    {
      var c := tasks[e].command;
      if c.robot in active && active[c.robot] < |tasks| {
        var other := tasks[active[c.robot]].command.id;
        if other != c.id && other in tokens {
          cancelled := cancelled + {tokens[other]};
        }
      }
    }

    /** `_handle_stop`, lines 238-241, with `cancel_all` up to its await: test the handle, enqueue. */
    method StopsNavigation(e: nat, before: seq<Mark>)
      requires e < |tasks|
      modifies this
      ensures View() == AfterMotionStop(wiring, old(View()), e, before)
    {
      if !wiring.hasNavigation {
        Suspends(e, Done(Some(StatusSucceeded)), before + [Entered(Succeeded)]);
        return;
      }
      if handle.None? {
        Suspends(e, Done(Some(StatusSucceeded)), before + [GoalCancelCalled, Entered(Succeeded)]);
        return;
      }
      cancelQueue := cancelQueue + [e];
      Suspends(e, AwaitingGoalCancel, before + [GoalCancelCalled]);
    }

    method MotionStopAnswered(e: nat)
      requires At(View(), e, AwaitingMotionStop)
      modifies this
      ensures View() == Next(wiring, old(View()), MotionStopped(e))
    {
      StopsNavigation(e, []);
    }

    /** The executor thread runs the next cancel callable, which reads the handle only now. */
    method CancelCallableRuns()
      modifies this`cancelQueue, this`goalsCancelled
      ensures View() == Next(wiring, old(View()), CancelRead)
    {
      if |cancelQueue| > 0 {
        cancelQueue := cancelQueue[1..];
        if handle.Some? {
          goalsCancelled := goalsCancelled + {handle.value};
        }
      }
    }

    /** Nav2 accepted the goal of a running `navigate`. */
    method GoalAccepts(e: nat)
      requires Navigating(wiring, View(), e, NotAccepted)
      modifies this`handle, this`writes, this`tasks
      ensures View() == Next(wiring, old(View()), GoalAccepted(e))
    {
      handle := Some(e);
      writes := writes + [Accept(e)];
      tasks := tasks[e := tasks[e].(goal := Accepted)];
    }

    /** That `navigate` leaves its polling loop. */
    method GoalDrops(e: nat)
      requires Navigating(wiring, View(), e, Accepted)
      modifies this`handle, this`writes, this`tasks
      ensures View() == Next(wiring, old(View()), GoalDropped(e))
    {
      handle := None;
      writes := writes + [Drop(e)];
      tasks := tasks[e := tasks[e].(goal := Dropped)];
    }

    method GoalCancelAnswered(e: nat)
      requires At(View(), e, AwaitingGoalCancel) && e !in cancelQueue
      modifies this
      ensures View() == Next(wiring, old(View()), GoalCancelled(e))
    {
      Suspends(e, Done(Some(StatusSucceeded)), [Entered(Succeeded)]);
    }

    /** The `finally` of `_execute_motion`. */
    method CleansUp(e: nat)
      requires e < |tasks|
      modifies this`tokens, this`active
      ensures View() == CleanUp(old(View()), e)
    {
      var c := tasks[e].command;
      tokens := tokens - {c.id};
      if c.robot in active && active[c.robot] == e {
        active := active - {c.robot};
      }
    }

    /** The backend's result, or `asyncio.TimeoutError` from the backstop when there is none. */
    method BackendAnswered(e: nat, succeeded: Option<bool>)
      requires At(View(), e, AwaitingBackend) && (succeeded.Some? ==> tasks[e].goal != Accepted)
      modifies this
      ensures View() == Next(wiring, old(View()),
                             if succeeded.Some? then BackendReturned(e, succeeded.value) else BackstopFired(e))
    {
      var ok := succeeded.Some? && succeeded.value;
      CleansUp(e);
      Suspends(e, Done(Some(StatusOf(ok))), [Entered(StateOf(ok))]);
    }

    /** An exception at the current await: the `finally` if registered, then `_execute`'s handler. */
    method ExceptionRaised(e: nat)
      requires Running(View(), e)
      modifies this
      ensures View() == Next(wiring, old(View()), Raised(e))
    {
      if tasks[e].pc == AwaitingBackend {
        CleansUp(e);
      }
      Suspends(e, Done(Some(StatusFailed)), [Entered(Failed)]);
    }

    /** `select_backend` raises. */
    method PlannerRaises(e: nat)
      requires At(View(), e, AwaitingPose) && tasks[e].command.op != StopOp
      modifies this
      ensures View() == Next(wiring, old(View()), PlannerRaised(e))
    {
      Suspends(e, Done(Some(StatusFailed)), [Decided(Allow), Entered(InPlanning), Entered(Failed)]);
    }

    /** The task itself is cancelled: only the `finally` runs. */
    method Interrupted(e: nat)
      requires Running(View(), e)
      modifies this
      ensures View() == Next(wiring, old(View()), TaskCancelled(e))
    {
      if tasks[e].pc == AwaitingBackend {
        CleansUp(e);
      }
      Suspends(e, Done(None), []);
    }
  }
}
