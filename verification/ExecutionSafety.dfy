/**
 What every interleaving of the execution manager keeps: one running execution per command id, the
 Non-Bypass Rule, forward-only states, and clean-up that never removes a newer command's entry. Which
 commands a stop reaches is the subject of `StopReach`.
 */
module ExecutionSafety {
  import opened RealMath
  import opened SafetyPolicy
  import opened GoalHandle
  import opened ExecutionProtocol

  // ----- de-duplication and the three maps

  /** At most one running execution per command id, and it is the one later submissions of that id
      are given. */
  lemma {:induction false} OneExecutionPerId(w: Wiring, actions: seq<Action>, e: nat)
    requires Running(Run(w, actions), e)
    ensures var s := Run(w, actions); var id := s.execs[e].command.id;
            && id in s.inFlight && s.inFlight[id] == e
            && (forall f: nat | Running(s, f) && s.execs[f].command.id == id :: f == e)
            && (forall c: Command | c.id == id :: Next(w, s, Submit(c)) == s)
  {
    ReachableInv(w, actions);
  }

  ghost predicate TokenOf(s: System, id: CommandId, e: nat) { id in s.tokens && s.tokens[id] == e }

  ghost predicate ActiveIs(s: System, robot: RobotId, e: nat) { robot in s.active && s.active[robot] == e }

  lemma ActiveIsNewest(s: System, robot: RobotId, e: nat)
    requires ActiveFor(s, robot)
    ensures ActiveIs(s, robot, e) <==> NewestFor(s.registrations, robot) == Some(e) && At(s, e, AwaitingBackend)
  {}

  /** The tokens are exactly those of the executions between registration and their `finally`, and
      the robot's active command is the last one registered for it, for as long as that one runs. */
  lemma {:induction false} MapsAreExact(w: Wiring, actions: seq<Action>)
    ensures var s := Run(w, actions);
            && (forall id: CommandId, e: nat ::
                  TokenOf(s, id, e) <==> At(s, e, AwaitingBackend) && s.execs[e].command.id == id)
            && (forall robot: RobotId, e: nat ::
                  ActiveIs(s, robot, e) <==> NewestFor(s.registrations, robot) == Some(e) && At(s, e, AwaitingBackend))
  {
    ReachableInv(w, actions);
    var s := Run(w, actions);
    forall robot: RobotId, e: nat
      ensures ActiveIs(s, robot, e) <==> NewestFor(s.registrations, robot) == Some(e) && At(s, e, AwaitingBackend)
    {
      ActiveIsNewest(s, robot, e);
    }
  }

  /** Nothing is left behind: once every execution has ended no token and no active command remains. */
  lemma {:induction false} QuiescentIsClean(w: Wiring, actions: seq<Action>)
    requires forall e: nat :: !Running(Run(w, actions), e)
    ensures Run(w, actions).tokens == map[] && Run(w, actions).active == map[]
  {
    ReachableInv(w, actions);
    var s := Run(w, actions);
    forall id: CommandId ensures id !in s.tokens {
      var e := if id in s.tokens then s.tokens[id] else 0;
      assert !Running(s, e);
    }
    forall robot: RobotId ensures robot !in s.active {
      var e := if robot in s.active then s.active[robot] else 0;
      assert !Running(s, e) && ActiveFor(s, robot);
    }
  }

  predicate Ends(s: System, a: Action, e: nat) {
    || a == BackstopFired(e) || a == Raised(e) || a == TaskCancelled(e)
    || (a.BackendReturned? && a.e == e && e < |s.execs| && s.execs[e].goal != Accepted)
  }

  /** The end of a registered execution is its clean-up, whatever the reason. */
  lemma EndIsCleanUp(w: Wiring, s: System, a: Action, e: nat)
    requires Ends(s, a, e) && At(s, e, AwaitingBackend)
    ensures var t := Next(w, s, a);
            t.tokens == CleanUp(s, e).tokens && t.active == CleanUp(s, e).active && !Running(t, e)
  {}

  /** However a registered execution ends, every other registered execution keeps its token and, if
      it is its robot's active command, that entry. */
  lemma {:induction false} CleanUpSparesOthers(w: Wiring, actions: seq<Action>, a: Action, e: nat, f: nat)
    requires var s := Run(w, actions);
             Ends(s, a, e) && At(s, e, AwaitingBackend) && At(s, f, AwaitingBackend) && f != e
    ensures var s, t := Run(w, actions), Next(w, Run(w, actions), a); var c := s.execs[f].command;
            && !Running(t, e) && s.execs[e].command.id !in t.tokens
            && TokenOf(t, c.id, f) && (ActiveIs(s, c.robot, f) ==> ActiveIs(t, c.robot, f))
  {
    ReachableInv(w, actions);
    var s := Run(w, actions);
    OwnedIdsDiffer(s, e, f);
    EndIsCleanUp(w, s, a, e);
  }

  // ----- what one execution does

  /** Marks before position `i`. */
  ghost predicate Before(trail: seq<Mark>, m: Mark, i: nat)
    requires i <= |trail|
  {
    exists j: nat :: j < i && trail[j] == m
  }

  predicate IsBackendCall(m: Mark) { m.Dispatched? || m.MotionStopCalled? || m.GoalCancelCalled? }

  /** The Non-Bypass Rule for one trail. */
  ghost predicate NeverBypasses(c: Command, trail: seq<Mark>) {
    && (forall i: nat | i < |trail| && IsBackendCall(trail[i]) :: Before(trail, Decided(Allow), i) && !c.isRead)
    && (forall i: nat | i < |trail| && trail[i].Dispatched? ::
          Before(trail, Offered(true), i) && trail[i].op == c.op && c.Drives())
    && (forall i: nat, j: nat | i < j < |trail| :: !(trail[i].Dispatched? && trail[j].Dispatched?))
    && ((exists i: nat :: i < |trail| && trail[i].Decided? && trail[i].decision != Allow) ==>
          forall i: nat | i < |trail| :: !IsBackendCall(trail[i]))
  }

  function Rank(state: State): nat {
    match state
    case InSafetyCheck => 0
    case InPlanning => 1
    case Executing => 2
    case _ => 3
  }

  ghost predicate Forward(trail: seq<Mark>) {
    forall i: nat, j: nat | i < j < |trail| && trail[i].Entered? && trail[j].Entered? ::
      Rank(trail[i].state) < Rank(trail[j].state)
  }

  /** The reported status agrees with the last state written. */
  predicate Reports(x: Exec) {
    x.pc.Done? && x.pc.status.Some? ==>
      && |x.trail| > 0 && x.trail[|x.trail| - 1].Entered? && Rank(x.trail[|x.trail| - 1].state) == 3
      && (x.pc.status == Some(StatusSucceeded) <==> x.trail[|x.trail| - 1] == Entered(Succeeded))
      && (x.pc.status == Some(StatusAwaitingApproval) <==> x.trail[|x.trail| - 1] == Entered(ApprovalAwaited))
  }

  /** What may follow a walk. */
  predicate IsLast(last: seq<Mark>) { last == [] || last == [Entered(Failed)] || last == [Entered(Succeeded)] }

  /** Only `Dispatched(c.op)` at the end of a driving walk, ... */
  lemma DriveNeverBypasses(w: Wiring, c: Command, last: seq<Mark>)
    requires Reaches(w, c, AwaitingBackend) && IsLast(last)
    ensures NeverBypasses(c, Walk(w, c, AwaitingBackend) + last)
  {
    var walk := Walk(w, c, AwaitingBackend);
    var trail := walk + last;
    assert trail[1] == walk[1] == Decided(Allow) && trail[3] == walk[3] == Offered(true);
    forall i: nat | 2 <= i <= |trail| ensures Before(trail, Decided(Allow), i) {}
    forall i: nat | 4 <= i <= |trail| ensures Before(trail, Offered(true), i) {}
  }

  /** ... only the two stop calls on a stopping one. */
  lemma StopNeverBypasses(w: Wiring, c: Command, pc: Pc, last: seq<Mark>)
    requires Reaches(w, c, pc) && (pc == AwaitingMotionStop || pc == AwaitingGoalCancel) && IsLast(last)
    ensures NeverBypasses(c, Walk(w, c, pc) + last)
  {
    var walk := Walk(w, c, pc);
    var trail := walk + last;
    assert trail[1] == walk[1] == Decided(Allow);
    forall i: nat | 2 <= i <= |trail| ensures Before(trail, Decided(Allow), i) {}
  }

  lemma WalkNeverBypasses(w: Wiring, c: Command, pc: Pc, last: seq<Mark>)
    requires Reaches(w, c, pc) && IsLast(last)
    ensures NeverBypasses(c, Walk(w, c, pc) + last)
  {
    if pc == AwaitingBackend {
      DriveNeverBypasses(w, c, last);
    } else if pc == AwaitingMotionStop || pc == AwaitingGoalCancel {
      StopNeverBypasses(w, c, pc, last);
    }
  }

  lemma WalkIsForward(w: Wiring, c: Command, pc: Pc, last: seq<Mark>)
    requires Reaches(w, c, pc) && (last == [] || last == [Entered(Failed)] || last == [Entered(Succeeded)])
    ensures Forward(Walk(w, c, pc) + last)
  {}

  lemma EarlyEndIsSafe(w: Wiring, c: Command, trail: seq<Mark>, status: Option<Status>)
    requires EndedEarly(w, c, trail, status)
    ensures NeverBypasses(c, trail) && Forward(trail)
  {}

  /** The suspension point an execution ended from. */
  lemma EndedSomewhere(w: Wiring, c: Command, trail: seq<Mark>, status: Option<Status>) returns (from: Pc)
    requires Ended(w, c, trail, status) && !EndedEarly(w, c, trail, status)
    ensures EndedFrom(w, c, from, trail, status)
  {
    if EndedFrom(w, c, Created, trail, status) { from := Created; }
    else if EndedFrom(w, c, AwaitingHandler, trail, status) { from := AwaitingHandler; }
    else if EndedFrom(w, c, AwaitingPose, trail, status) { from := AwaitingPose; }
    else if EndedFrom(w, c, AwaitingBackend, trail, status) { from := AwaitingBackend; }
    else if EndedFrom(w, c, AwaitingMotionStop, trail, status) { from := AwaitingMotionStop; }
    else { from := AwaitingGoalCancel; }
  }

  /** What an execution leaves is a walk, perhaps with a last state. */
  lemma PathIsWalk(w: Wiring, x: Exec) returns (from: Pc, last: seq<Mark>)
    requires OnPath(w, x) && !(x.pc.Done? && EndedEarly(w, x.command, x.trail, x.pc.status))
    ensures Reaches(w, x.command, from) && (last == [] || last == [Entered(Failed)] || last == [Entered(Succeeded)])
    ensures x.trail == Walk(w, x.command, from) + last
  {
    if x.pc.Done? {
      from := EndedSomewhere(w, x.command, x.trail, x.pc.status);
      last := x.trail[|Walk(w, x.command, from)|..];
    } else {
      from, last := x.pc, [];
    }
  }

  lemma PathReports(w: Wiring, x: Exec)
    requires OnPath(w, x)
    ensures Reports(x)
  {
    if x.pc.Done? && !EndedEarly(w, x.command, x.trail, x.pc.status) {
      var from := EndedSomewhere(w, x.command, x.trail, x.pc.status);
    }
  }

  lemma PathIsSafe(w: Wiring, x: Exec)
    requires OnPath(w, x)
    ensures NeverBypasses(x.command, x.trail) && Forward(x.trail)
  {
    if x.pc.Done? && EndedEarly(w, x.command, x.trail, x.pc.status) {
      EarlyEndIsSafe(w, x.command, x.trail, x.pc.status);
    } else {
      var from, last := PathIsWalk(w, x);
      WalkNeverBypasses(w, x.command, from, last);
      WalkIsForward(w, x.command, from, last);
    }
  }

  /** The Non-Bypass Rule over whole runs: a backend is only ever called by an execution whose own
      safety check answered ALLOW before, `move` and `navigate` only after the planner offered a
      backend, for the command's own operation and at most once; an execution that was refused or sent
      to approval calls no backend at all. */
  lemma {:induction false} NonBypass(w: Wiring, actions: seq<Action>, e: nat)
    requires e < |Run(w, actions).execs|
    ensures var x := Run(w, actions).execs[e]; NeverBypasses(x.command, x.trail)
  {
    ReachableInv(w, actions);
    PathIsSafe(w, Run(w, actions).execs[e]);
  }

  /** States only move forward, at most one terminal state is ever written in an execution, and the
      result says "succeeded" exactly when that state is SUCCEEDED. */
  lemma {:induction false} StatesMoveForward(w: Wiring, actions: seq<Action>, e: nat)
    requires e < |Run(w, actions).execs|
    ensures var x := Run(w, actions).execs[e]; Forward(x.trail) && Reports(x)
  {
    ReachableInv(w, actions);
    PathIsSafe(w, Run(w, actions).execs[e]);
    PathReports(w, Run(w, actions).execs[e]);
  }

  /** `t` is a later state of `s`: what an execution did stays written, what has ended stays as it
      is, and nothing cancelled is cleared. */
  ghost predicate Later(s: System, t: System) {
    && |s.execs| <= |t.execs| && s.cancelled <= t.cancelled
    && s.writes <= t.writes && s.goalsCancelled <= t.goalsCancelled
    && forall e: nat | e < |s.execs| ::
         && t.execs[e].command == s.execs[e].command && s.execs[e].trail <= t.execs[e].trail
         && (s.execs[e].pc.Done? ==> t.execs[e].pc == s.execs[e].pc && t.execs[e].trail == s.execs[e].trail)
  }

  lemma SuspendIsLater(s: System, u: System, e: nat, pc: Pc, marks: seq<Mark>)
    requires Running(s, e) && u.execs == s.execs && s.cancelled <= u.cancelled
    requires u.writes == s.writes && u.goalsCancelled == s.goalsCancelled
    ensures Later(s, Suspend(u, e, pc, marks))
  {}

  lemma AfterMotionStopIsLater(w: Wiring, s: System, u: System, e: nat, before: seq<Mark>)
    requires Running(s, e) && u.execs == s.execs && s.cancelled <= u.cancelled
    requires u.writes == s.writes && u.goalsCancelled == s.goalsCancelled
    ensures Later(s, AfterMotionStop(w, u, e, before))
  {
    if !w.hasNavigation {
      SuspendIsLater(s, u, e, Done(Some(StatusSucceeded)), before + [Entered(Succeeded)]);
    } else if u.handle.None? {
      SuspendIsLater(s, u, e, Done(Some(StatusSucceeded)), before + [GoalCancelCalled, Entered(Succeeded)]);
    } else {
      SuspendIsLater(s, u.(cancelQueue := u.cancelQueue + [e]), e, AwaitingGoalCancel, before + [GoalCancelCalled]);
    }
  }

  lemma DecideIsLater(w: Wiring, s: System, e: nat, decision: Decision, offered: bool)
    requires At(s, e, AwaitingPose)
    ensures Later(s, Decide(w, s, e, decision, offered))
  {
    if decision == Allow && s.execs[e].command.op == StopOp {
      var u, before := SignalActive(s, e), [Decided(Allow), Entered(InPlanning)];
      if w.hasMotion {
        SuspendIsLater(s, u, e, AwaitingMotionStop, before + [MotionStopCalled]);
      } else {
        AfterMotionStopIsLater(w, s, u, e, before);
      }
    } else {
      RefusedOrDispatched(w, s, e, decision, offered);
    }
  }

  lemma RefusedOrDispatched(w: Wiring, s: System, e: nat, decision: Decision, offered: bool)
    requires At(s, e, AwaitingPose) && !(decision == Allow && s.execs[e].command.op == StopOp)
    ensures Later(s, Decide(w, s, e, decision, offered))
  {}

  lemma AnswersAreLater(w: Wiring, s: System, a: Action)
    requires IsAnswer(a)
    ensures Later(s, Next(w, s, a))
  {
    match a {
      case ReadHandled(e, succeeded) =>
        if At(s, e, AwaitingHandler) {
          SuspendIsLater(s, s, e, Done(Some(StatusOf(succeeded))), [Entered(StateOf(succeeded))]);
        }
      case BackendReturned(e, succeeded) =>
        if At(s, e, AwaitingBackend) && s.execs[e].goal != Accepted {
          SuspendIsLater(s, CleanUp(s, e), e, Done(Some(StatusOf(succeeded))), [Entered(StateOf(succeeded))]);
        }
      case BackstopFired(e) =>
        if At(s, e, AwaitingBackend) {
          SuspendIsLater(s, CleanUp(s, e), e, Done(Some(StatusFailed)), [Entered(Failed)]);
        }
      case GoalCancelled(e) =>
        if At(s, e, AwaitingGoalCancel) && e !in s.cancelQueue {
          SuspendIsLater(s, s, e, Done(Some(StatusSucceeded)), [Entered(Succeeded)]);
        }
      case Raised(e) =>
        if Running(s, e) {
          SuspendIsLater(s, CleanUpIfRegistered(s, e), e, Done(Some(StatusFailed)), [Entered(Failed)]);
        }
      case TaskCancelled(e) =>
        if Running(s, e) { SuspendIsLater(s, CleanUpIfRegistered(s, e), e, Done(None), []); }
    }
  }

  lemma BeginIsLater(w: Wiring, s: System, e: nat, hasHandler: bool)
    requires At(s, e, Created)
    ensures Later(s, Next(w, s, Begin(e, hasHandler)))
  {}

  lemma OthersAreLater(w: Wiring, s: System, a: Action)
    requires !IsAnswer(a) && !a.PoseResolved? && !a.Begin?
    ensures Later(s, Next(w, s, a))
  {
    if a.MotionStopped? && At(s, a.e, AwaitingMotionStop) { AfterMotionStopIsLater(w, s, s, a.e, []); }
  }

  lemma NextIsLater(w: Wiring, s: System, a: Action)
    ensures Later(s, Next(w, s, a))
  {
    match a {
      case PoseResolved(e, decision, offered) =>
        if At(s, e, AwaitingPose) { DecideIsLater(w, s, e, decision, offered); }
      case Begin(e, hasHandler) =>
        if At(s, e, Created) { BeginIsLater(w, s, e, hasHandler); }
      case _ => if IsAnswer(a) { AnswersAreLater(w, s, a); } else { OthersAreLater(w, s, a); }
    }
  }

  /** Over any further run. */
  lemma {:induction false} RunsOnlyGrow(w: Wiring, actions: seq<Action>, k: nat)
    requires k <= |actions|
    ensures Later(Run(w, actions[..k]), Run(w, actions))
  {
    if k == |actions| {
      assert actions[..k] == actions;
    } else {
      var init := actions[..|actions| - 1];
      assert init[..k] == actions[..k];
      RunsOnlyGrow(w, init, k);
      NextIsLater(w, Run(w, init), actions[|actions| - 1]);
    }
  }

  // ----- what an execution reports

  /** The execution ended with this status, this state written last. */
  predicate EndsIn(x: Exec, status: Status, state: State) {
    x.pc == Done(Some(status)) && |x.trail| > 0 && x.trail[|x.trail| - 1] == Entered(state)
  }

  /** The adapter (the backend, or the handler of a read) answers the execution that waits for it. */
  predicate Answers(s: System, a: Action, e: nat, ok: bool) {
    || (a == BackendReturned(e, ok) && At(s, e, AwaitingBackend) && s.execs[e].goal != Accepted)
    || (a == ReadHandled(e, ok) && At(s, e, AwaitingHandler))
  }

  /** The execution is given up: its backstop fires, an exception reaches it, the planner raises, or a read
      has no handler. */
  predicate GivesUp(s: System, a: Action, e: nat) {
    || (a == BackstopFired(e) && At(s, e, AwaitingBackend))
    || (a == Raised(e) && Running(s, e))
    || (a == PlannerRaised(e) && At(s, e, AwaitingPose) && s.execs[e].command.op != StopOp)
    || (a == Begin(e, false) && At(s, e, Created) && s.execs[e].command.isRead)
  }

  /** The stop's last call has come back, or there was none to wait for. */
  predicate StopIsOver(w: Wiring, s: System, a: Action, e: nat) {
    || (a == GoalCancelled(e) && At(s, e, AwaitingGoalCancel) && e !in s.cancelQueue)
    || (a == MotionStopped(e) && At(s, e, AwaitingMotionStop) && (!w.hasNavigation || s.handle.None?))
    || (a.PoseResolved? && a.e == e && a.decision == Allow && At(s, e, AwaitingPose)
        && s.execs[e].command.op == StopOp && !w.hasMotion && (!w.hasNavigation || s.handle.None?))
  }

  /** Gate and planner answer the execution `e`. */
  predicate Resolves(s: System, a: Action, e: nat) { a.PoseResolved? && a.e == e && At(s, e, AwaitingPose) }

  /** What is reported after `a`, cause by cause, `x` being the execution then. */
  ghost predicate ReportsCause(w: Wiring, s: System, a: Action, e: nat, x: Exec)
    requires e < |s.execs|
  {
    && (Answers(s, a, e, true) || StopIsOver(w, s, a, e) ==> EndsIn(x, StatusSucceeded, Succeeded))
    && (Answers(s, a, e, false) || GivesUp(s, a, e) ==> EndsIn(x, StatusFailed, Failed))
    && (a == TaskCancelled(e) && Running(s, e) ==> x.pc == Done(None) && x.trail == s.execs[e].trail)
    && (Resolves(s, a, e) ==>
          && (a.decision.Deny? ==> EndsIn(x, StatusFailed, SafetyRefused))
          && (a.decision == RequireApproval ==> EndsIn(x, StatusAwaitingApproval, ApprovalAwaited))
          && (a.decision == Allow && s.execs[e].command.op != StopOp
              && (!a.offered || s.execs[e].command.op == OtherOp) ==>
                EndsIn(x, StatusFailed, BackendUnavailable)))
  }

  /** The cause of `a` is what `e` reports in the state `t`. */
  ghost predicate Reported(w: Wiring, s: System, a: Action, e: nat, t: System)
    requires e < |s.execs|
  {
    e < |t.execs| && ReportsCause(w, s, a, e, t.execs[e])
  }

  lemma SuspendEnds(s: System, u: System, e: nat, status: Option<Status>, marks: seq<Mark>)
    requires e < |s.execs| && u.execs == s.execs
    ensures var t := Suspend(u, e, Done(status), marks);
            && |t.execs| == |s.execs| && t.execs[e].pc == Done(status)
            && t.execs[e].trail == s.execs[e].trail + marks
            && (|marks| > 0 ==>
                  |t.execs[e].trail| > 0 && t.execs[e].trail[|t.execs[e].trail| - 1] == marks[|marks| - 1])
  {}

  lemma AnswersReport(w: Wiring, s: System, a: Action, e: nat)
    requires e < |s.execs| && (Answers(s, a, e, true) || Answers(s, a, e, false))
    ensures Reported(w, s, a, e, Next(w, s, a))
  {
    var u := if a.ReadHandled? then s else CleanUp(s, e);
    SuspendEnds(s, u, e, Some(if a.succeeded then StatusSucceeded else StatusFailed),
                [Entered(if a.succeeded then Succeeded else Failed)]);
  }

  lemma GivenUpReports(w: Wiring, s: System, a: Action, e: nat)
    requires GivesUp(s, a, e) && (a.BackstopFired? || a.Raised?)
    ensures Reported(w, s, a, e, Next(w, s, a))
  {
    var u := if a.Raised? then CleanUpIfRegistered(s, e) else CleanUp(s, e);
    SuspendEnds(s, u, e, Some(StatusFailed), [Entered(Failed)]);
  }

  lemma EarlyFailureReports(w: Wiring, s: System, a: Action, e: nat)
    requires GivesUp(s, a, e) && (a.PlannerRaised? || a.Begin?)
    ensures Reported(w, s, a, e, Next(w, s, a))
  {
    var marks := if a.Begin? then [Entered(Executing), Entered(Failed)]
                 else [Decided(Allow), Entered(InPlanning), Entered(Failed)];
    SuspendEnds(s, s, e, Some(StatusFailed), marks);
  }

  lemma TaskEndReports(w: Wiring, s: System, e: nat)
    requires Running(s, e)
    ensures Reported(w, s, TaskCancelled(e), e, Next(w, s, TaskCancelled(e)))
  {
    SuspendEnds(s, CleanUpIfRegistered(s, e), e, None, []);
  }

  lemma MotionStopReports(w: Wiring, s: System, u: System, e: nat, before: seq<Mark>)
    requires e < |s.execs| && u.execs == s.execs && (!w.hasNavigation || u.handle.None?)
    ensures var t := AfterMotionStop(w, u, e, before);
            |t.execs| == |s.execs| && EndsIn(t.execs[e], StatusSucceeded, Succeeded)
  {
    if !w.hasNavigation {
      SuspendEnds(s, u, e, Some(StatusSucceeded), before + [Entered(Succeeded)]);
    } else {
      SuspendEnds(s, u, e, Some(StatusSucceeded), before + [GoalCancelCalled, Entered(Succeeded)]);
    }
  }

  lemma StopEndReports(w: Wiring, s: System, a: Action, e: nat)
    requires StopIsOver(w, s, a, e)
    ensures Reported(w, s, a, e, Next(w, s, a))
  {
    match a {
      case GoalCancelled(_) => SuspendEnds(s, s, e, Some(StatusSucceeded), [Entered(Succeeded)]);
      case MotionStopped(_) => MotionStopReports(w, s, s, e, []);
      case PoseResolved(_, _, _) =>
        MotionStopReports(w, s, SignalActive(s, e), e, [Decided(Allow), Entered(InPlanning)]);
    }
  }

  lemma RefusalReports(w: Wiring, s: System, a: Action, e: nat)
    requires Resolves(s, a, e) && (a.decision != Allow || s.execs[e].command.op != StopOp)
    ensures Reported(w, s, a, e, Next(w, s, a))
  {
    var c := s.execs[e].command;
    if a.decision != Allow {
      SuspendEnds(s, s, e, Some(if a.decision.Deny? then StatusFailed else StatusAwaitingApproval),
                  [Decided(a.decision), Entered(if a.decision.Deny? then SafetyRefused else ApprovalAwaited)]);
    } else if !a.offered || c.op == OtherOp {
      SuspendEnds(s, s, e, Some(StatusFailed),
                  [Decided(Allow), Entered(InPlanning), Offered(false), Entered(BackendUnavailable)]);
    } else {
      DecideIsLater(w, s, e, a.decision, a.offered);
    }
  }

  /** Nothing is promised of the others. */
  lemma NoEndReports(w: Wiring, s: System, a: Action, e: nat, t: System)
    requires e < |s.execs| && e < |t.execs| && !Answers(s, a, e, true) && !Answers(s, a, e, false)
    requires !GivesUp(s, a, e) && !StopIsOver(w, s, a, e)
    requires !(Resolves(s, a, e) && (a.decision != Allow || s.execs[e].command.op != StopOp))
    requires !(a == TaskCancelled(e) && Running(s, e))
    ensures Reported(w, s, a, e, t)
  {}

  lemma EndReports(w: Wiring, s: System, a: Action, e: nat)
    requires e < |s.execs|
    ensures Reported(w, s, a, e, Next(w, s, a))
  {
    if StopIsOver(w, s, a, e) {
      StopEndReports(w, s, a, e);
    } else if Resolves(s, a, e) && (a.decision != Allow || s.execs[e].command.op != StopOp) {
      RefusalReports(w, s, a, e);
    } else if Answers(s, a, e, true) || Answers(s, a, e, false) {
      AnswersReport(w, s, a, e);
    } else if GivesUp(s, a, e) {
      if a.BackstopFired? || a.Raised? { GivenUpReports(w, s, a, e); } else { EarlyFailureReports(w, s, a, e); }
    } else if a == TaskCancelled(e) && Running(s, e) {
      TaskEndReports(w, s, e);
    } else {
      NextIsLater(w, s, a);
      NoEndReports(w, s, a, e, Next(w, s, a));
    }
  }

  /** What has been reported stays. */
  lemma ReportStays(w: Wiring, s: System, a: Action, e: nat, t: System, u: System)
    requires e < |s.execs| && Reported(w, s, a, e, t) && Later(t, u)
    ensures Reported(w, s, a, e, u)
  {}

  lemma {:induction false} RunStep(w: Wiring, actions: seq<Action>, k: nat)
    requires k < |actions|
    ensures Run(w, actions[..k + 1]) == Next(w, Run(w, actions[..k]), actions[k])
  {
    assert actions[..k + 1][..k] == actions[..k];
  }

  /** Every end by its cause, over any run and for the rest of it: the adapter's answer is the result, what is
      given up has failed, a refusal and a wait for approval are told apart, a stop that got through has
      succeeded, and a cancelled task writes nothing. */
  lemma {:induction false} EndsAreReported(w: Wiring, actions: seq<Action>, k: nat, e: nat)
    requires k < |actions| && e < |Run(w, actions[..k]).execs|
    ensures Reported(w, Run(w, actions[..k]), actions[k], e, Run(w, actions))
  {
    EndReports(w, Run(w, actions[..k]), actions[k], e);
    RunStep(w, actions, k);
    RunsOnlyGrow(w, actions, k + 1);
    ReportStays(w, Run(w, actions[..k]), actions[k], e, Run(w, actions[..k + 1]), Run(w, actions));
  }

  /** The backend calls that follow from `a`. */
  ghost predicate Calls(w: Wiring, s: System, a: Action, e: nat, x: Exec)
    requires e < |s.execs|
  {
    var op := s.execs[e].command.op;
    && (Resolves(s, a, e) && a.decision == Allow ==>
          && (a.offered && (op == MoveOp || op == NavigateOp) ==> Dispatched(op) in x.trail)
          && (op == StopOp && w.hasMotion ==> MotionStopCalled in x.trail)
          && (op == StopOp && !w.hasMotion && w.hasNavigation ==> GoalCancelCalled in x.trail))
    && (a == MotionStopped(e) && At(s, e, AwaitingMotionStop) && w.hasNavigation ==> GoalCancelCalled in x.trail)
  }

  lemma SuspendMarks(s: System, e: nat, pc: Pc, marks: seq<Mark>, i: nat)
    requires e < |s.execs| && i < |marks|
    ensures marks[i] in Suspend(s, e, pc, marks).execs[e].trail
  {
    assert (s.execs[e].trail + marks)[|s.execs[e].trail| + i] == marks[i];
  }

  lemma GoalCancelIsCalled(w: Wiring, s: System, e: nat, before: seq<Mark>)
    requires e < |s.execs| && w.hasNavigation
    ensures e < |AfterMotionStop(w, s, e, before).execs|
            && GoalCancelCalled in AfterMotionStop(w, s, e, before).execs[e].trail
  {
    if s.handle.None? {
      SuspendMarks(s, e, Done(Some(StatusSucceeded)), before + [GoalCancelCalled, Entered(Succeeded)], |before|);
    } else {
      SuspendMarks(s.(cancelQueue := s.cancelQueue + [e]), e, AwaitingGoalCancel, before + [GoalCancelCalled],
                   |before|);
    }
  }

  lemma AllowCalls(w: Wiring, s: System, e: nat, offered: bool)
    requires At(s, e, AwaitingPose)
    ensures var t := Decide(w, s, e, Allow, offered);
            e < |t.execs| && Calls(w, s, PoseResolved(e, Allow, offered), e, t.execs[e])
  {
    var c, before := s.execs[e].command, [Decided(Allow), Entered(InPlanning)];
    if c.op == StopOp {
      if w.hasMotion {
        SuspendMarks(SignalActive(s, e), e, AwaitingMotionStop, before + [MotionStopCalled], 2);
      } else if w.hasNavigation {
        GoalCancelIsCalled(w, SignalActive(s, e), e, before);
      }
    } else if offered && c.op != OtherOp {
      SuspendMarks(Register(s, e), e, AwaitingBackend,
                   [Decided(Allow), Entered(InPlanning), Offered(true), Entered(Executing), Dispatched(c.op)], 4);
    }
  }

  lemma StepCalls(w: Wiring, s: System, a: Action, e: nat)
    requires e < |s.execs|
    ensures e < |Next(w, s, a).execs| && Calls(w, s, a, e, Next(w, s, a).execs[e])
  {
    if Resolves(s, a, e) && a.decision == Allow {
      AllowCalls(w, s, e, a.offered);
    } else if a == MotionStopped(e) && At(s, e, AwaitingMotionStop) && w.hasNavigation {
      GoalCancelIsCalled(w, s, e, []);
    } else {
      NextIsLater(w, s, a);
    }
  }

  /** Where an execution waits next that does not end: a read for its handler, any other for the pose and then
      for the gate; what is dispatched for its backend, a stop for the motion backend first and for a goal
      that is held then. */
  ghost predicate WaitsNext(w: Wiring, s: System, a: Action, e: nat, pc: Pc)
    requires e < |s.execs|
  {
    var c := s.execs[e].command;
    && (a.Begin? && a.e == e && At(s, e, Created) ==>
          && (c.isRead && a.hasHandler ==> pc == AwaitingHandler) && (!c.isRead ==> pc == AwaitingPose))
    && (Resolves(s, a, e) && a.decision == Allow ==>
          && (a.offered && (c.op == MoveOp || c.op == NavigateOp) ==> pc == AwaitingBackend)
          && (c.op == StopOp && w.hasMotion ==> pc == AwaitingMotionStop)
          && (c.op == StopOp && !w.hasMotion && w.hasNavigation && s.handle.Some? ==> pc == AwaitingGoalCancel))
    && (a == MotionStopped(e) && At(s, e, AwaitingMotionStop) && w.hasNavigation && s.handle.Some? ==>
          pc == AwaitingGoalCancel)
  }

  lemma AllowedWaits(w: Wiring, s: System, e: nat, offered: bool)
    requires At(s, e, AwaitingPose)
    ensures var t := Decide(w, s, e, Allow, offered);
            e < |t.execs| && WaitsNext(w, s, PoseResolved(e, Allow, offered), e, t.execs[e].pc)
  {}

  lemma ExecutionsGoOn(w: Wiring, s: System, a: Action, e: nat)
    requires e < |s.execs|
    ensures e < |Next(w, s, a).execs| && WaitsNext(w, s, a, e, Next(w, s, a).execs[e].pc)
  {
    NextIsLater(w, s, a);
    if Resolves(s, a, e) && a.decision == Allow { AllowedWaits(w, s, e, a.offered); }
  }

  /** The other half of the Non-Bypass Rule, over any run: what the gate allows and the planner offers is
      called, and an allowed stop calls every backend there is, one after the other. */
  lemma {:induction false} AllowedIsCalled(w: Wiring, actions: seq<Action>, k: nat, e: nat)
    requires k < |actions| && e < |Run(w, actions[..k]).execs|
    ensures e < |Run(w, actions).execs| && Calls(w, Run(w, actions[..k]), actions[k], e, Run(w, actions).execs[e])
  {
    StepCalls(w, Run(w, actions[..k]), actions[k], e);
    RunStep(w, actions, k);
    RunsOnlyGrow(w, actions, k + 1);
  }

  /** Action `k` is the adapter's answer to `e`. */
  ghost predicate AnsweredAt(w: Wiring, actions: seq<Action>, k: nat, e: nat, ok: bool) {
    k < |actions| && Answers(Run(w, actions[..k]), actions[k], e, ok)
  }

  /** `e` ended in success with this step. */
  predicate NewSuccess(s: System, t: System, e: nat) {
    && e < |t.execs| && t.execs[e].pc == Done(Some(StatusSucceeded))
    && (t.execs[e].command.isRead || t.execs[e].command.op != StopOp)
    && !(e < |s.execs| && s.execs[e].pc == Done(Some(StatusSucceeded)))
  }

  lemma DecisionsDoNotSucceed(w: Wiring, s: System, f: nat, decision: Decision, offered: bool, e: nat)
    requires Inv(w, s) && At(s, f, AwaitingPose)
    ensures !NewSuccess(s, Decide(w, s, f, decision, offered), e)
  {
    assert OnPath(w, s.execs[f]);
  }

  lemma StopsDoNotSucceed(w: Wiring, s: System, f: nat, e: nat)
    requires Inv(w, s) && At(s, f, AwaitingMotionStop)
    ensures !NewSuccess(s, AfterMotionStop(w, s, f, []), e)
  {
    assert OnPath(w, s.execs[f]);
  }

  lemma CancelsDoNotSucceed(w: Wiring, s: System, f: nat, e: nat)
    requires Inv(w, s) && At(s, f, AwaitingGoalCancel)
    ensures !NewSuccess(s, Next(w, s, GoalCancelled(f)), e)
  {
    assert OnPath(w, s.execs[f]);
  }

  lemma AdapterSucceeds(w: Wiring, s: System, a: Action, e: nat)
    requires IsAnswer(a) && !a.GoalCancelled? && NewSuccess(s, Next(w, s, a), e)
    ensures Answers(s, a, e, true)
  {}

  lemma OthersDoNotSucceed(w: Wiring, s: System, a: Action, e: nat)
    requires !IsAnswer(a) && !a.PoseResolved? && !a.MotionStopped?
    ensures !NewSuccess(s, Next(w, s, a), e)
  {}

  lemma OnlyAnswersSucceed(w: Wiring, s: System, a: Action, e: nat)
    requires Inv(w, s) && NewSuccess(s, Next(w, s, a), e)
    ensures Answers(s, a, e, true)
  {
    match a {
      case PoseResolved(f, decision, offered) =>
        if At(s, f, AwaitingPose) { DecisionsDoNotSucceed(w, s, f, decision, offered, e); }
      case MotionStopped(f) => if At(s, f, AwaitingMotionStop) { StopsDoNotSucceed(w, s, f, e); }
      case GoalCancelled(f) => if At(s, f, AwaitingGoalCancel) { CancelsDoNotSucceed(w, s, f, e); }
      case _ => if IsAnswer(a) { AdapterSucceeds(w, s, a, e); } else { OthersDoNotSucceed(w, s, a, e); }
    }
  }

  /** The manager says "succeeded" of a command that is no stop exactly when its backend, or the handler of
      the read, did. */
  lemma {:induction false} SuccessIsTheAdapters(w: Wiring, actions: seq<Action>, e: nat)
    requires e < |Run(w, actions).execs|
    requires var c := Run(w, actions).execs[e].command; c.isRead || c.op != StopOp
    ensures Run(w, actions).execs[e].pc == Done(Some(StatusSucceeded))
            <==> exists k: nat :: AnsweredAt(w, actions, k, e, true)
  {
    if k: nat :| AnsweredAt(w, actions, k, e, true) {
      EndsAreReported(w, actions, k, e);
    }
    if Run(w, actions).execs[e].pc == Done(Some(StatusSucceeded)) { SuccessWasAnswered(w, actions, e); }
  }

  lemma {:induction false} SuccessWasAnswered(w: Wiring, actions: seq<Action>, e: nat)
    requires e < |Run(w, actions).execs| && Run(w, actions).execs[e].pc == Done(Some(StatusSucceeded))
    requires var c := Run(w, actions).execs[e].command; c.isRead || c.op != StopOp
    ensures exists k: nat :: AnsweredAt(w, actions, k, e, true)
    decreases |actions|
  {
    if |actions| > 0 {
      var init := actions[..|actions| - 1];
      ReachableInv(w, init);
      if NewSuccess(Run(w, init), Run(w, actions), e) {
        OnlyAnswersSucceed(w, Run(w, init), actions[|actions| - 1], e);
        assert actions[..|actions| - 1] == init;
        assert AnsweredAt(w, actions, |actions| - 1, e, true);
      } else {
        NextIsLater(w, Run(w, init), actions[|actions| - 1]);
        SuccessWasAnswered(w, init, e);
        var k: nat :| AnsweredAt(w, init, k, e, true);
        assert init[..k] == actions[..k];
        assert AnsweredAt(w, actions, k, e, true);
      }
    }
  }

  /** A cancellation sets the flag of the running execution of that id, if there is one, and does nothing
      else. */
  lemma {:induction false} CancelIsHeard(w: Wiring, actions: seq<Action>, id: CommandId)
    ensures var s, t := Run(w, actions), Run(w, actions + [CancelRequested(id)]);
            && t == s.(cancelled := t.cancelled)
            && forall e: nat :: e in t.cancelled <==>
                 e in s.cancelled || (At(s, e, AwaitingBackend) && s.execs[e].command.id == id)
  {
    ReachableInv(w, actions);
    assert (actions + [CancelRequested(id)])[..|actions|] == actions;
  }
}
