/**
 Which commands a stop reaches: the token of its robot's newest command, at once, and the Nav2 goal
 the navigation plugin holds, when the cancel callable is run.

 Both effects are less than the tool promises (src/ros_mcp/mcp/schemas.py:112-115: any in-flight move or
 navigate command is cancelled). The theorems say exactly when they are enough: for a stop nothing
 interferes with, by a condition on the state it finds; for the Nav2 half under any interference.
 */
module StopReach {
  import opened RealMath
  import opened SafetyPolicy
  import opened GoalHandle
  import opened ExecutionProtocol
  import opened ExecutionSafety

  // ----- the plugin's field

  /** The field is what its last write left; every goal is accepted at most once. */
  ghost predicate GoalInv(w: Wiring, s: System) {
    && s.handle == HandleAfter(s.writes) && (s.handle.Some? ==> w.hasNavigation)
    && (forall i: nat | i < |s.writes| :: s.writes[i].goal < |s.execs|)
    && (forall i: nat, j: nat | i < j < |s.writes| && s.writes[i].Accept? && s.writes[j].Accept? ::
          s.writes[i].goal != s.writes[j].goal)
    && (forall e: nat | e < |s.execs| :: GoalRecorded(s, e))
  }

  ghost predicate GoalRecorded(s: System, e: nat)
    requires e < |s.execs|
  {
    if s.execs[e].goal == NotAccepted then forall i: nat | i < |s.writes| :: s.writes[i].goal != e
    else Accept(e) in s.writes
  }

  /** The action writes nothing to the field. */
  ghost predicate SameField(s: System, t: System) {
    && t.handle == s.handle && t.writes == s.writes && |s.execs| <= |t.execs|
    && (forall e: nat | e < |s.execs| :: t.execs[e].goal == s.execs[e].goal)
    && (forall e: nat | |s.execs| <= e < |t.execs| :: t.execs[e].goal == NotAccepted)
  }

  lemma AnswersWriteNothing(w: Wiring, s: System, a: Action)
    requires IsAnswer(a)
    ensures SameField(s, Next(w, s, a))
  {}

  lemma DecisionsWriteNothing(w: Wiring, s: System, a: Action)
    requires a.MotionStopped? || a.PlannerRaised? || a.Begin?
    ensures SameField(s, Next(w, s, a))
  {}

  lemma DecidingWritesNothing(w: Wiring, s: System, e: nat, decision: Decision, offered: bool)
    requires At(s, e, AwaitingPose)
    ensures SameField(s, Decide(w, s, e, decision, offered))
  {}

  predicate WritesHandle(a: Action) { a.GoalAccepted? || a.GoalDropped? }

  lemma OthersWriteNothing(w: Wiring, s: System, a: Action)
    requires !WritesHandle(a)
    ensures SameField(s, Next(w, s, a))
  {
    if IsAnswer(a) {
      AnswersWriteNothing(w, s, a);
    } else if a.PoseResolved? {
      if At(s, a.e, AwaitingPose) { DecidingWritesNothing(w, s, a.e, a.decision, a.offered); }
    } else if a.MotionStopped? || a.PlannerRaised? || a.Begin? {
      DecisionsWriteNothing(w, s, a);
    }
  }

  lemma SameFieldKeeps(w: Wiring, s: System, t: System)
    requires GoalInv(w, s) && SameField(s, t)
    ensures GoalInv(w, t)
  {
    forall e: nat | e < |t.execs| ensures GoalRecorded(t, e) {
      if e < |s.execs| { assert GoalRecorded(s, e); }
    }
  }

  lemma WriteKeeps(w: Wiring, s: System, x: HandleWrite, phase: GoalPhase)
    requires GoalInv(w, s) && w.hasNavigation && x.goal < |s.execs|
    requires if x.Accept? then phase == Accepted && s.execs[x.goal].goal == NotAccepted
             else phase == Dropped && s.execs[x.goal].goal == Accepted
    ensures GoalInv(w, WriteHandle(s, x, phase))
  {
    var t := WriteHandle(s, x, phase);
    assert GoalRecorded(s, x.goal);
    assert t.writes[|s.writes|] == x;
    forall e: nat | e < |t.execs| ensures GoalRecorded(t, e) {
      assert GoalRecorded(s, e);
      if t.execs[e].goal != NotAccepted && e != x.goal {
        var i :| 0 <= i < |s.writes| && s.writes[i] == Accept(e);
        assert t.writes[i] == Accept(e);
      }
      if e == x.goal && x.Drop? {
        var i :| 0 <= i < |s.writes| && s.writes[i] == Accept(e);
        assert t.writes[i] == Accept(e);
      }
    }
  }

  lemma {:induction false} ReachableGoalInv(w: Wiring, actions: seq<Action>)
    ensures GoalInv(w, Run(w, actions))
  {
    if |actions| > 0 {
      var s, a := Run(w, actions[..|actions| - 1]), actions[|actions| - 1];
      ReachableGoalInv(w, actions[..|actions| - 1]);
      match a {
        case GoalAccepted(e) => if Navigating(w, s, e, NotAccepted) { WriteKeeps(w, s, Accept(e), Accepted); }
        case GoalDropped(e) => if Navigating(w, s, e, Accepted) { WriteKeeps(w, s, Drop(e), Dropped); }
        case _ =>
          OthersWriteNothing(w, s, a);
          SameFieldKeeps(w, s, Next(w, s, a));
      }
    }
  }

  /** The log is what the `navigate`s write: each has written what its phase says, in this order, and
      nothing else writes. */
  ghost predicate LogIsOfNavigates(s: System) {
    forall e: nat :: OwnWrites(s.writes, e) == WritesOf(e, if e < |s.execs| then s.execs[e].goal else NotAccepted)
  }

  lemma WriteIsLogged(s: System, x: HandleWrite, phase: GoalPhase)
    requires LogIsOfNavigates(s) && x.goal < |s.execs|
    requires WritesOf(x.goal, phase) == WritesOf(x.goal, s.execs[x.goal].goal) + [x]
    ensures LogIsOfNavigates(WriteHandle(s, x, phase))
  {
    forall e: nat { OwnWritesAppend(s.writes, x, e); }
  }

  lemma {:induction false} ReachableLog(w: Wiring, actions: seq<Action>)
    ensures LogIsOfNavigates(Run(w, actions))
  {
    if |actions| > 0 {
      var s, a := Run(w, actions[..|actions| - 1]), actions[|actions| - 1];
      ReachableLog(w, actions[..|actions| - 1]);
      match a {
        case GoalAccepted(e) => if Navigating(w, s, e, NotAccepted) { WriteIsLogged(s, Accept(e), Accepted); }
        case GoalDropped(e) => if Navigating(w, s, e, Accepted) { WriteIsLogged(s, Drop(e), Dropped); }
        case _ =>
          OthersWriteNothing(w, s, a);
          SameFieldIsLogged(s, Next(w, s, a));
      }
    }
  }

  lemma SameFieldIsLogged(s: System, t: System)
    requires LogIsOfNavigates(s) && SameField(s, t)
    ensures LogIsOfNavigates(t)
  {}

  // ----- the Nav2 half of a stop, whatever interferes

  /** The goal is accepted and its `navigate` is still in its loop. */
  ghost predicate GoalActive(s: System, g: nat) {
    At(s, g, AwaitingBackend) && s.execs[g].goal == Accepted
  }

  /** A goal that was active once is held later exactly if it was held and nothing was written since:
      no goal is stored twice. */
  lemma HeldSince(w: Wiring, s: System, t: System, g: nat)
    requires GoalInv(w, s) && GoalInv(w, t) && s.writes <= t.writes && g < |s.execs| && s.execs[g].goal == Accepted
    ensures t.handle == Some(g) <==> s.handle == Some(g) && t.writes == s.writes
  {
    assert GoalRecorded(s, g);
    var i :| 0 <= i < |s.writes| && s.writes[i] == Accept(g);
    assert t.writes[i] == Accept(g);
    if t.handle == Some(g) {
      var j := |t.writes| - 1;
      assert t.writes[j] == Accept(g);
      assert i == j;
      assert t.writes == s.writes;
    }
  }

  /** `cancel_all` of stop `e` goes from `s` to `u`: it tests the field and enqueues its callable. In `t`
      the executor thread is about to run that callable. */
  ghost predicate CancelUnderway(s: System, u: System, t: System, e: nat) {
    e !in s.cancelQueue && e in u.cancelQueue && |t.cancelQueue| > 0 && t.cancelQueue[0] == e
  }

  /** The callable reads the field late. A goal that was active when the stop tested it, and still is, is
      cancelled exactly if it was already, or if it was the one held at the test and the field was not
      written in between. */
  lemma {:induction false} CancelAllReaches(w: Wiring, before: seq<Action>, between: seq<Action>, e: nat, g: nat)
    requires |between| > 0 && var t := Run(w, before + between);
             CancelUnderway(Run(w, before), Run(w, before + between[..1]), t, e)
    requires GoalActive(Run(w, before), g) && GoalActive(Run(w, before + between), g)
    ensures var s, t := Run(w, before), Run(w, before + between);
            g in Next(w, t, CancelRead).goalsCancelled <==>
            g in t.goalsCancelled || (s.handle == Some(g) && t.writes == s.writes)
  {
    var s, t := Run(w, before), Run(w, before + between);
    ReachableGoalInv(w, before);
    ReachableGoalInv(w, before + between);
    RunsOnlyGrow(w, before + between, |before|);
    assert (before + between)[..|before|] == before;
    HeldSince(w, s, t, g);
  }

  /** What a stop needs of `cancel_all` (docs/06-execution.md:92-93), `s` being the state at its test and
      `t` the one its callable is run in: every goal active at the test is cancelled, unless it has ended
      by itself. */
  ghost predicate CancelAllReachesAll(w: Wiring, s: System, t: System) {
    forall g: nat | GoalActive(s, g) && GoalActive(t, g) :: g in Next(w, t, CancelRead).goalsCancelled
  }

  /** No goal but the held one needs it, and that one only if the field stays as it was. */
  ghost predicate OnlyHeldAndUntouched(s: System, t: System) {
    forall g: nat | GoalActive(s, g) && GoalActive(t, g) && g !in t.goalsCancelled ::
      s.handle == Some(g) && t.writes == s.writes
  }

  lemma {:induction false} CancelAllReachesAllExactly(w: Wiring, before: seq<Action>, between: seq<Action>, e: nat)
    requires |between| > 0 && var t := Run(w, before + between);
             CancelUnderway(Run(w, before), Run(w, before + between[..1]), t, e)
    ensures var s, t := Run(w, before), Run(w, before + between);
            CancelAllReachesAll(w, s, t) <==> OnlyHeldAndUntouched(s, t)
  {
    var s, t := Run(w, before), Run(w, before + between);
    forall g: nat | GoalActive(s, g) && GoalActive(t, g)
      ensures g in Next(w, t, CancelRead).goalsCancelled <==>
              g in t.goalsCancelled || (s.handle == Some(g) && t.writes == s.writes)
    {
      CancelAllReaches(w, before, between, e, g);
    }
  }

  // ----- the token half

  /** The stop of execution `e` leaves its safety check. */
  function StopDecided(w: Wiring, s: System, e: nat): System {
    Next(w, s, PoseResolved(e, Allow, true))
  }

  ghost predicate AboutToStop(s: System, e: nat) {
    At(s, e, AwaitingPose) && s.execs[e].command.op == StopOp
  }

  ghost predicate NewestRunning(s: System, robot: RobotId, f: nat) {
    At(s, f, AwaitingBackend) && NewestFor(s.registrations, robot) == Some(f)
  }

  /** A stop cancels the token of its robot's newest registered command if that still runs, and
      no other: the two tests in `_handle_stop` (a different id, a token present) never fail. */
  lemma {:induction false} StopCancelsTheNewest(w: Wiring, actions: seq<Action>, e: nat)
    requires AboutToStop(Run(w, actions), e)
    ensures var s := Run(w, actions); var newest := NewestFor(s.registrations, s.execs[e].command.robot);
            StopDecided(w, s, e).cancelled ==
            if newest.Some? && At(s, newest.value, AwaitingBackend) then s.cancelled + {newest.value} else s.cancelled
  {
    ReachableInv(w, actions);
    NewestIsSignalled(w, Run(w, actions), e);
  }

  lemma NewestIsSignalled(w: Wiring, s: System, e: nat)
    requires Inv(w, s) && AboutToStop(s, e)
    ensures var newest := NewestFor(s.registrations, s.execs[e].command.robot);
            StopDecided(w, s, e).cancelled ==
            if newest.Some? && At(s, newest.value, AwaitingBackend) then s.cancelled + {newest.value} else s.cancelled
  {
    assert ActiveFor(s, s.execs[e].command.robot);
    var newest := NewestFor(s.registrations, s.execs[e].command.robot);
    if newest.Some? && At(s, newest.value, AwaitingBackend) {
      OwnedIdsDiffer(s, e, newest.value);
    }
  }

  // ----- a stop that is left alone

  /** `f` is a move or navigate command of the robot that has not ended. */
  ghost predicate Pending(s: System, robot: RobotId, f: nat) {
    Running(s, f) && s.execs[f].command.Drives() && s.execs[f].command.robot == robot
  }

  /** Told to stop, by its token or by the cancellation of its goal. */
  ghost predicate Told(s: System, f: nat) { f in s.cancelled || f in s.goalsCancelled }

  /** After the decision only the stop itself and the executor thread's cancel callables go on. */
  predicate LeftAlone(between: seq<Action>, e: nat) {
    forall i | 0 <= i < |between| ::
      between[i] == MotionStopped(e) || between[i] == GoalCancelled(e) || between[i] == CancelRead
  }

  /** The whole run of a stop. */
  function StopRun(before: seq<Action>, between: seq<Action>, e: nat): seq<Action> {
    before + [PoseResolved(e, Allow, true)] + between
  }

  ghost predicate StopSucceeded(s: System, e: nat) { At(s, e, Done(Some(StatusSucceeded))) }

  /** What `robot.stop` promises: any in-flight move or navigate command of the robot is cancelled. */
  ghost predicate KeepsPromise(found: System, left: System, robot: RobotId) {
    forall f: nat | Pending(found, robot, f) :: Told(left, f)
  }

  /** The state a stop finds is within its reach: each command in flight has been told already, or is the
      newest registered one and executing, or is the navigate whose goal the plugin holds. */
  ghost predicate WithinReach(found: System, robot: RobotId) {
    forall f: nat | Pending(found, robot, f) ::
      Told(found, f) || NewestRunning(found, robot, f) || found.handle == Some(f)
  }

  /** What holds in each state of an undisturbed stop, `found` being the state it was decided in. */
  ghost predicate Undisturbed(w: Wiring, found: System, u: System, e: nat) {
    && u.handle == found.handle && e < |u.execs| && u.execs[e].command.op == StopOp
    && u.cancelled == StopDecided(w, found, e).cancelled
    && (found.handle.None? ==> u.goalsCancelled == found.goalsCancelled)
    && (found.handle.Some? ==> found.goalsCancelled <= u.goalsCancelled <= found.goalsCancelled + {found.handle.value})
    && (found.handle.Some? && w.hasNavigation ==>
          match u.execs[e].pc
          case AwaitingMotionStop => w.hasMotion
          case AwaitingGoalCancel => e in u.cancelQueue || found.handle.value in u.goalsCancelled
          case Done(_) => found.handle.value in u.goalsCancelled
          case _ => false)
  }

  lemma UndisturbedStart(w: Wiring, s: System, e: nat)
    requires AboutToStop(s, e)
    ensures Undisturbed(w, s, StopDecided(w, s, e), e)
  {}

  lemma UndisturbedStep(w: Wiring, found: System, u: System, e: nat, a: Action)
    requires Undisturbed(w, found, u, e)
    requires a == MotionStopped(e) || a == GoalCancelled(e) || a == CancelRead
    ensures Undisturbed(w, found, Next(w, u, a), e)
  {
    if a == CancelRead && |u.cancelQueue| > 0 && e in u.cancelQueue && e !in u.cancelQueue[1..] {
      assert u.cancelQueue[0] == e;
    }
  }

  lemma {:induction false} UndisturbedRun(w: Wiring, before: seq<Action>, between: seq<Action>, e: nat)
    requires AboutToStop(Run(w, before), e) && LeftAlone(between, e)
    ensures Undisturbed(w, Run(w, before), Run(w, StopRun(before, between, e)), e)
    decreases |between|
  {
    var all := StopRun(before, between, e);
    if |between| == 0 {
      assert all[..|all| - 1] == before;
      UndisturbedStart(w, Run(w, before), e);
    } else {
      var init, last := between[..|between| - 1], between[|between| - 1];
      assert all[..|all| - 1] == StopRun(before, init, e) && all[|all| - 1] == last;
      UndisturbedRun(w, before, init, e);
      UndisturbedStep(w, Run(w, before), Run(w, StopRun(before, init, e)), e, last);
    }
  }

  /** Both effects together: whom a stop that was left alone has told when it has succeeded. */
  lemma {:induction false} StopTells(w: Wiring, before: seq<Action>, between: seq<Action>, e: nat, f: nat)
    requires AboutToStop(Run(w, before), e) && LeftAlone(between, e)
    requires StopSucceeded(Run(w, StopRun(before, between, e)), e)
    ensures var s, t := Run(w, before), Run(w, StopRun(before, between, e));
            Told(t, f) <==> Told(s, f) || NewestRunning(s, s.execs[e].command.robot, f) || s.handle == Some(f)
  {
    ReachableGoalInv(w, before);
    UndisturbedRun(w, before, between, e);
    StopCancelsTheNewest(w, before, e);
  }

  /** The promise, exactly: a stop that is left alone cancels every in-flight move and navigate command
      of its robot if and only if the state it finds is within its reach. */
  lemma {:induction false} StopCancelsAllExactly(w: Wiring, before: seq<Action>, between: seq<Action>, e: nat)
    requires AboutToStop(Run(w, before), e) && LeftAlone(between, e)
    requires StopSucceeded(Run(w, StopRun(before, between, e)), e)
    ensures var s, t := Run(w, before), Run(w, StopRun(before, between, e)); var robot := s.execs[e].command.robot;
            KeepsPromise(s, t, robot) <==> WithinReach(s, robot)
  {
    var s, t := Run(w, before), Run(w, StopRun(before, between, e));
    forall f: nat
      ensures Told(t, f) <==> Told(s, f) || NewestRunning(s, s.execs[e].command.robot, f) || s.handle == Some(f)
    {
      StopTells(w, before, between, e, f);
    }
  }

  // ----- runs that show it

  const Both := Wiring(true, true)

  const Halt := Command("halt", "r1", StopOp, false)

  function Driving(id: CommandId, op: Operation): Command { Command(id, "r1", op, false) }

  /** A driving command submitted, allowed and dispatched as execution `n`. */
  function Launching(c: Command, n: nat): seq<Action> {
    [Submit(c), Begin(n, true), PoseResolved(n, Allow, true)]
  }

  /** A stop submitted, its gate about to answer. */
  function Stopping(n: nat): seq<Action> { [Submit(Halt), Begin(n, true)] }

  lemma {:induction false} RunOne(w: Wiring, actions: seq<Action>, a: Action)
    ensures Run(w, actions + [a]) == Next(w, Run(w, actions), a)
  {
    assert (actions + [a])[..|actions|] == actions;
  }

  /** Everything but the executions and the in-flight map. */
  ghost predicate SameGoals(s: System, t: System) {
    t.handle == s.handle && t.writes == s.writes && t.cancelQueue == s.cancelQueue
    && t.goalsCancelled == s.goalsCancelled
&& t.cancelled == s.cancelled
  }

  lemma {:induction false} LaunchRun(w: Wiring, before: seq<Action>, c: Command)
    requires c.id !in Run(w, before).inFlight && c.Drives()
    ensures var s := Run(w, before); var n := |s.execs|; var t := Run(w, before + Launching(c, n));
            && |t.execs| == n + 1 && t.execs[..n] == s.execs && At(t, n, AwaitingBackend) && t.execs[n].command == c
            && t.execs[n].goal == NotAccepted && SameGoals(s, t) && t.active == s.active[c.robot := n]
            && t.inFlight == s.inFlight[c.id := n] && t.registrations == s.registrations + [Registration(c.robot, n)]
  {
    var s := Run(w, before);
    var n := |s.execs|;
    RunOne(w, before, Submit(c));
    var s1 := Run(w, before + [Submit(c)]);
    assert At(s1, n, Created) && s1.execs[..n] == s.execs;
    RunOne(w, before + [Submit(c)], Begin(n, true));
    var s2 := Run(w, before + [Submit(c)] + [Begin(n, true)]);
    assert At(s2, n, AwaitingPose) && s2.execs[n].command == c && s2.execs[..n] == s.execs;
    RunOne(w, before + [Submit(c)] + [Begin(n, true)], PoseResolved(n, Allow, true));
    assert before + Launching(c, n) == before + [Submit(c)] + [Begin(n, true)] + [PoseResolved(n, Allow, true)];
  }

  lemma {:induction false} StoppingRun(w: Wiring, before: seq<Action>)
    requires "halt" !in Run(w, before).inFlight
    ensures var s := Run(w, before); var n := |s.execs|; var t := Run(w, before + Stopping(n));
            && |t.execs| == n + 1 && t.execs[..n] == s.execs && AboutToStop(t, n) && t.execs[n].command == Halt
            && SameGoals(s, t) && t.active == s.active && t.registrations == s.registrations
  {
    var s := Run(w, before);
    var n := |s.execs|;
    RunOne(w, before, Submit(Halt));
    var s1 := Run(w, before + [Submit(Halt)]);
    assert At(s1, n, Created) && s1.execs[..n] == s.execs;
    RunOne(w, before + [Submit(Halt)], Begin(n, true));
    assert before + Stopping(n) == before + [Submit(Halt)] + [Begin(n, true)];
  }

  /** Two moves of one robot overlap and the newer one returns. */
  const TwoMoves :=
    Launching(Driving("older", MoveOp), 0) + Launching(Driving("newer", MoveOp), 1) + [BackendReturned(1, true)]

  /** Two moves registered, the newer one returned. */
  ghost predicate OlderDrivesOn(s: System) {
    && |s.execs| == 2 && At(s, 0, AwaitingBackend) && s.execs[0].command == Driving("older", MoveOp)
    && s.cancelled == {} && s.goalsCancelled == {} && s.handle == None
    && s.registrations == [Registration("r1", 0), Registration("r1", 1)] && s.execs[1].pc.Done?
    && "halt" !in s.inFlight
  }

  lemma NewerReturns(s: System)
    requires |s.execs| == 2 && At(s, 0, AwaitingBackend) && s.execs[0].command == Driving("older", MoveOp)
    requires At(s, 1, AwaitingBackend) && s.execs[1].goal == NotAccepted
    requires s.cancelled == {} && s.goalsCancelled == {} && s.handle == None && "halt" !in s.inFlight
    requires s.registrations == [Registration("r1", 0), Registration("r1", 1)]
    ensures OlderDrivesOn(Next(Both, s, BackendReturned(1, true)))
  {}

  lemma TwoMovesRun()
    ensures OlderDrivesOn(Run(Both, TwoMoves))
  {
    var c0, c1 := Driving("older", MoveOp), Driving("newer", MoveOp);
    LaunchRun(Both, [], c0);
    var l0 := Launching(c0, 0);
    assert [] + l0 == l0;
    LaunchRun(Both, l0, c1);
    var l1 := l0 + Launching(c1, 1);
    var s2 := Run(Both, l1);
    assert s2.execs[0] == s2.execs[..1][0] == Run(Both, l0).execs[0];
    assert s2.inFlight == map["older" := 0, "newer" := 1];
    RunOne(Both, l1, BackendReturned(1, true));
    NewerReturns(s2);
  }

  /** A stop of such a robot. */
  lemma MissesOlder(s: System)
    requires |s.execs| == 3 && At(s, 0, AwaitingBackend) && AboutToStop(s, 2)
    requires s.handle == None && s.goalsCancelled == {} && StopDecided(Both, s, 2).cancelled == {}
    ensures var t := Next(Both, StopDecided(Both, s, 2), MotionStopped(2));
            StopSucceeded(t, 2) && At(t, 0, AwaitingBackend) && t.cancelled == {} && t.goalsCancelled == {}
  {
    var u := StopDecided(Both, s, 2);
    assert At(u, 2, AwaitingMotionStop) && At(u, 0, AwaitingBackend) && u.handle == None && u.goalsCancelled == {};
  }

  lemma {:induction false} StopMisses(before: seq<Action>)
    requires OlderDrivesOn(Run(Both, before))
    ensures var all := before + Stopping(2); var s, t := Run(Both, all), Run(Both, StopRun(all, [MotionStopped(2)], 2));
            && AboutToStop(s, 2) && StopSucceeded(t, 2) && At(t, 0, AwaitingBackend)
            && t.cancelled == {} && t.goalsCancelled == {} && !KeepsPromise(s, t, "r1")
  {
    StoppingRun(Both, before);
    var all := before + Stopping(2);
    var s := Run(Both, all);
    assert s.execs[0] == s.execs[..2][0] && s.execs[1] == s.execs[..2][1];
    StopCancelsTheNewest(Both, all, 2);
    RunOne(Both, all, PoseResolved(2, Allow, true));
    MissesOlder(s);
    RunOne(Both, all + [PoseResolved(2, Allow, true)], MotionStopped(2));
    assert Pending(s, "r1", 0);
  }

  /** A stop of that robot, undisturbed, succeeds and has told nobody: the older move drives on. */
  lemma StopCanMissAMove()
    ensures var before := TwoMoves + Stopping(2);
            var s, t := Run(Both, before), Run(Both, StopRun(before, [MotionStopped(2)], 2));
            && AboutToStop(s, 2) && StopSucceeded(t, 2) && At(t, 0, AwaitingBackend)
            && t.cancelled == {} && t.goalsCancelled == {} && !KeepsPromise(s, t, "r1")
  {
    TwoMovesRun();
    StopMisses(TwoMoves);
  }

  /** An older navigate holds the handle, a newer move is executing. */
  const NavigateThenMove :=
    Launching(Driving("nav", NavigateOp), 0) + [GoalAccepted(0)] + Launching(Driving("move", MoveOp), 1)

  /** The goal of execution 0 is held, execution 1 was dispatched after it. */
  ghost predicate HoldsThenDrives(s: System, c1: Command) {
    && |s.execs| == 2 && GoalActive(s, 0) && s.execs[0].command == Driving("nav", NavigateOp)
    && At(s, 1, AwaitingBackend) && s.execs[1].command == c1 && s.execs[1].goal == NotAccepted
    && s.handle == Some(0) && s.writes == [Accept(0)] && s.cancelQueue == [] && s.goalsCancelled == {}
    && s.cancelled == {} && "halt" !in s.inFlight
    && s.registrations == [Registration("r1", 0), Registration("r1", 1)]
  }

  lemma {:induction false} FirstHolds()
    ensures var s := Run(Both, Launching(Driving("nav", NavigateOp), 0) + [GoalAccepted(0)]);
            && |s.execs| == 1 && GoalActive(s, 0) && s.execs[0].command == Driving("nav", NavigateOp)
            && s.handle == Some(0) && s.writes == [Accept(0)] && s.cancelQueue == [] && s.goalsCancelled == {}
            && s.cancelled == {} && s.inFlight == map["nav" := 0] && s.registrations == [Registration("r1", 0)]
  {
    var c0 := Driving("nav", NavigateOp);
    LaunchRun(Both, [], c0);
    var l0 := Launching(c0, 0);
    assert [] + l0 == l0;
    RunOne(Both, l0, GoalAccepted(0));
  }

  lemma {:induction false} NavigateThenRun(c1: Command)
    requires c1 == Driving("move", MoveOp) || c1 == Driving("nav2", NavigateOp)
    ensures HoldsThenDrives(Run(Both, Launching(Driving("nav", NavigateOp), 0) + [GoalAccepted(0)] + Launching(c1, 1)),
                            c1)
  {
    FirstHolds();
    var l1 := Launching(Driving("nav", NavigateOp), 0) + [GoalAccepted(0)];
    LaunchRun(Both, l1, c1);
    var s1, s2 := Run(Both, l1), Run(Both, l1 + Launching(c1, 1));
    assert s2.execs[0] == s2.execs[..1][0] == s1.execs[0];
  }

  /** The stop of execution 2 decided in such a state: the newer command's token is set. */
  ghost predicate StopDecidedThere(u: System, c1: Command) {
    && |u.execs| == 3 && GoalActive(u, 0) && At(u, 1, AwaitingBackend) && u.execs[1].command == c1
    && u.execs[1].goal == NotAccepted && At(u, 2, AwaitingMotionStop) && u.execs[2].command == Halt
    && u.handle == Some(0) && u.writes == [Accept(0)] && u.cancelQueue == [] && u.goalsCancelled == {}
    && u.cancelled == {1}
  }

  lemma {:induction false} StopInThere(before: seq<Action>, c1: Command)
    requires HoldsThenDrives(Run(Both, before), c1)
    ensures var all := before + Stopping(2);
            && AboutToStop(Run(Both, all), 2) && Run(Both, all).execs[2].command == Halt
            && |Run(Both, all).execs| == 3 && Run(Both, all).execs[..2] == Run(Both, before).execs
            && StopDecidedThere(Run(Both, all + [PoseResolved(2, Allow, true)]), c1)
  {
    StoppingRun(Both, before);
    var all := before + Stopping(2);
    var s := Run(Both, all);
    assert s.execs[0] == s.execs[..2][0] && s.execs[1] == s.execs[..2][1];
    StopCancelsTheNewest(Both, all, 2);
    RunOne(Both, all, PoseResolved(2, Allow, true));
    DecidedThere(s, c1);
  }

  lemma DecidedThere(s: System, c1: Command)
    requires |s.execs| == 3 && GoalActive(s, 0) && At(s, 1, AwaitingBackend) && s.execs[1].command == c1
    requires s.execs[1].goal == NotAccepted && AboutToStop(s, 2) && s.execs[2].command == Halt
    requires s.handle == Some(0) && s.writes == [Accept(0)] && s.cancelQueue == [] && s.goalsCancelled == {}
    requires StopDecided(Both, s, 2).cancelled == {1}
    ensures StopDecidedThere(StopDecided(Both, s, 2), c1)
  {}

  lemma BothAreTold(u: System, c1: Command)
    requires StopDecidedThere(u, c1)
    ensures var t := Next(Both, Next(Both, Next(Both, u, MotionStopped(2)), CancelRead), GoalCancelled(2));
            StopSucceeded(t, 2) && t.cancelled == {1} && t.goalsCancelled == {0}
  {
    var u1 := Next(Both, u, MotionStopped(2));
    assert At(u1, 2, AwaitingGoalCancel) && u1.cancelQueue == [2] && u1.handle == Some(0) && u1.cancelled == {1};
    var u2 := Next(Both, u1, CancelRead);
    assert u2.cancelQueue == [] && u2.goalsCancelled == {0} && At(u2, 2, AwaitingGoalCancel);
  }

  const ThreeSteps := [MotionStopped(2), CancelRead, GoalCancelled(2)]

  lemma {:induction false} ThreeStepsRun(all: seq<Action>)
    ensures var u := Run(Both, all + [PoseResolved(2, Allow, true)]);
            Run(Both, StopRun(all, ThreeSteps, 2))
                == Next(Both, Next(Both, Next(Both, u, MotionStopped(2)), CancelRead), GoalCancelled(2))
  {
    var l1 := all + [PoseResolved(2, Allow, true)];
    RunOne(Both, l1, MotionStopped(2));
    RunOne(Both, l1 + [MotionStopped(2)], CancelRead);
    RunOne(Both, l1 + [MotionStopped(2)] + [CancelRead], GoalCancelled(2));
    assert StopRun(all, ThreeSteps, 2) == l1 + [MotionStopped(2)] + [CancelRead] + [GoalCancelled(2)];
  }

  /** The stop decided in `s` has told both commands in `t`. */
  ghost predicate TellsBoth(s: System, t: System) {
    && AboutToStop(s, 2) && StopSucceeded(t, 2) && t.cancelled == {1} && t.goalsCancelled == {0}
    && Pending(s, "r1", 0) && Pending(s, "r1", 1) && KeepsPromise(s, t, "r1")
  }

  lemma BothAreToldFrom(s: System, u: System, t: System)
    requires |s.execs| == 3 && AboutToStop(s, 2) && s.execs[2].command == Halt
    requires Running(s, 0) && s.execs[0].command == Driving("nav", NavigateOp)
    requires Running(s, 1) && s.execs[1].command == Driving("move", MoveOp)
    requires StopDecidedThere(u, Driving("move", MoveOp))
    requires t == Next(Both, Next(Both, Next(Both, u, MotionStopped(2)), CancelRead), GoalCancelled(2))
    ensures TellsBoth(s, t)
  {
    BothAreTold(u, Driving("move", MoveOp));
  }

  /** Here one stop reaches both commands, the move by its token and the navigate by its goal, although
      two of them run: only both effects together give the exact condition. */
  lemma {:induction false} BothEffectsCount()
    ensures var all := NavigateThenMove + Stopping(2);
            TellsBoth(Run(Both, all), Run(Both, StopRun(all, ThreeSteps, 2)))
  {
    var all, c1 := NavigateThenMove + Stopping(2), Driving("move", MoveOp);
    NavigateThenRun(c1);
    StopInThere(NavigateThenMove, c1);
    ThreeStepsRun(all);
    var s, first := Run(Both, all), Run(Both, NavigateThenMove);
    assert s.execs[0] == s.execs[..2][0] == first.execs[0] && s.execs[1] == s.execs[..2][1] == first.execs[1];
    BothAreToldFrom(s, Run(Both, all + [PoseResolved(2, Allow, true)]), Run(Both, StopRun(all, ThreeSteps, 2)));
  }

  /** Two navigates; the stop of execution 2 is decided while only the first one's goal is accepted. */
  const TwoNavigates :=
    Launching(Driving("nav", NavigateOp), 0) + [GoalAccepted(0)] + Launching(Driving("nav2", NavigateOp), 1)
    + Stopping(2) + [PoseResolved(2, Allow, true)]

  const Racing := [MotionStopped(2), GoalAccepted(1)]

  /** From `s` the race goes over `u` to `t`: the first goal is the only active one at the test, it is the
      one held, and the callable cancels another. */
  ghost predicate Race(s: System, u: System, t: System) {
    && CancelUnderway(s, u, t, 2) && s.handle == Some(0) && (forall g: nat :: GoalActive(s, g) <==> g == 0)
    && GoalActive(t, 0) && !CancelAllReachesAll(Both, s, t) && !Told(Next(Both, t, CancelRead), 0)
  }

  /** The states the race goes through. */
  ghost predicate Racers(s: System, u: System, t: System) {
    && (forall g: nat :: GoalActive(s, g) <==> g == 0) && s.handle == Some(0) && s.cancelQueue == []
    && u.cancelQueue == [2] && t.cancelQueue == [2] && t.handle == Some(1) && GoalActive(t, 0)
    && t.goalsCancelled == {} && t.cancelled == {1}
  }

  lemma RaceSteps(s: System)
    requires StopDecidedThere(s, Driving("nav2", NavigateOp))
    ensures var u := Next(Both, s, MotionStopped(2)); Racers(s, u, Next(Both, u, GoalAccepted(1)))
  {
    var u := Next(Both, s, MotionStopped(2));
    assert u.cancelQueue == [2] && Navigating(Both, u, 1, NotAccepted) && GoalActive(u, 0);
    assert GoalActive(Next(Both, u, GoalAccepted(1)), 0);
  }

  lemma RaceIsLost(s: System, u: System, t: System)
    requires Racers(s, u, t)
    ensures Race(s, u, t)
  {
    assert GoalActive(s, 0) && Next(Both, t, CancelRead).goalsCancelled == {1};
  }

  lemma {:induction false} RaceRuns(before: seq<Action>)
    ensures var u := Next(Both, Run(Both, before), MotionStopped(2));
            Run(Both, before + Racing[..1]) == u && Run(Both, before + Racing) == Next(Both, u, GoalAccepted(1))
  {
    RunOne(Both, before, MotionStopped(2));
    RunOne(Both, before + [MotionStopped(2)], GoalAccepted(1));
    assert before + Racing == before + [MotionStopped(2)] + [GoalAccepted(1)];
    assert Racing[..1] == [MotionStopped(2)];
  }

  /** The race: `cancel_all` sees the first goal and enqueues, the second goal is accepted, the callable
      reads the second goal. The first is the only active goal at the test, it was stored last, and it is
      never cancelled. */
  lemma {:induction false} CancelAllCanMissAGoal()
    ensures Race(Run(Both, TwoNavigates), Run(Both, TwoNavigates + Racing[..1]), Run(Both, TwoNavigates + Racing))
  {
    var c1 := Driving("nav2", NavigateOp);
    NavigateThenRun(c1);
    StopInThere(Launching(Driving("nav", NavigateOp), 0) + [GoalAccepted(0)] + Launching(c1, 1), c1);
    var s := Run(Both, TwoNavigates);
    RaceSteps(s);
    RaceRuns(TwoNavigates);
    var u := Next(Both, s, MotionStopped(2));
    RaceIsLost(s, u, Next(Both, u, GoalAccepted(1)));
  }
}
