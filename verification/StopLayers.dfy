/**
 A stop against a running move through all layers at once: the execution manager (`ExecutionProtocol`),
 the loop of the `/cmd_vel` controller (`CmdVel`), and the bridge to the executor thread (`RosBridge`),
 with the two tasks that cross it. `After` is one atomic step of any of them; the manager's other
 executions and the bridge's other callers go on in between.

 Every such run is a run of `StopSafety`, so what that module proves of the queue of jobs is true of the
 callables the executor thread runs. The premises that module starts from are proved here: the stop
 does cancel the move's token (`StopReach`), the loop that sees it does publish zero and return
 (`CmdVel.Step`), and the thread does run the callables in the order of the calls (`RosBridge`).
 */
module StopLayers {
  import opened RealMath
  import opened Geometry
  import opened Core
  import opened SafetyPolicy
  import opened GoalHandle
  import opened CmdVel
  import MotionSafety
  import P = ExecutionProtocol
  import E = ExecutionSafety
  import R = StopReach
  import B = RosBridge
  import S = StopSafety

  /** The executions `move` and `stop` belong to `robot`. */
  datatype Setup = Setup(
    w: P.Wiring, robot: P.RobotId, move: nat, stop: nat, publisher: bool,
    m: Math, limits: Constraints, settings: Settings, target: MoveTarget, deadline: real) {
    predicate Proper() { move != stop && m.pi > 0.0 && target.WellFormed() }
  }

  /** The locals of `move` once it has its start pose; `ticks` are the passes it has made. */
  datatype Loop = Loop(mission: Mission, start: Pose, ticks: seq<Tick>, state: LoopState)

  /** `jobs[t]` is what the callable of call `t` does, `fromMove[t]` whether the move made the call,
      `stopAt` the number of calls when the stop began, and `answer` what `move` returns once it has come
      to its return: whether it succeeded. */
  datatype Layers = Layers(
    manager: P.System, bridge: B.Bridge, jobs: seq<S.Job>, fromMove: seq<bool>, publisher: bool,
    loop: Option<Loop>, move: S.Task, stop: S.Task, stopAt: nat, answer: Option<bool>)

  /** One step of one of them. `outcome`: what the callable enqueued by the step will do when it is run. */
  datatype Turn =
    | ManagerActs(action: P.Action)
    | MoveDispatched                             // gate and planner let the move through
    | MoveStarts(odometry: Odometry, outcome: B.Outcome)
    | MovePasses(tick: Tick, outcome: B.Outcome) // one pass through the loop body
    | MoveResumes(outcome: B.Outcome)            // what the move awaits has come
    | StopDecided(outcome: B.Outcome)            // `_handle_stop`, up to its await in the backend's stop()
    | StopResumes(outcome: B.Outcome)
    | OthersCall(outcome: B.Outcome)             // another user of the bridge
    | BridgeStep(step: B.Step)                   // the thread, a completion, a caller giving up, shutdown

  // ----- one step

  function Calls(c: Layers, job: S.Job, byMove: bool, outcome: B.Outcome): Layers {
    c.(bridge := B.Next(c.bridge, B.Call(outcome)), jobs := c.jobs + [job], fromMove := c.fromMove + [byMove])
  }

  /** `_publish_twist` up to its first await. */
  function Publishes(c: Layers, twist: Twist, leaving: bool, byMove: bool, outcome: B.Outcome): (Layers, S.Task) {
    if c.publisher then (Calls(c, S.Publish(twist), byMove, outcome), S.Publishing(leaving, |c.bridge.calls|))
    else (Calls(c, S.CreatePublisher, byMove, outcome), S.Creating(twist, leaving, |c.bridge.calls|))
  }

  /** The future the caller awaits has its result (an exception ends the caller instead). */
  predicate Answered(b: B.Bridge, ticket: nat) {
    ticket < |b.futures| && b.futures[ticket].Resolved? && b.futures[ticket].outcome.Returned?
  }

  function Resumed(c: Layers, task: S.Task, byMove: bool, outcome: B.Outcome): (Layers, S.Task) {
    match task
    case Creating(twist, leaving, ticket) =>
      if Answered(c.bridge, ticket) then
        (Calls(c.(publisher := true), S.Publish(twist), byMove, outcome), S.Publishing(leaving, |c.bridge.calls|))
      else (c, task)
    case Publishing(leaving, ticket) =>
      if Answered(c.bridge, ticket) then (c, if leaving then S.Finished else S.Sleeping) else (c, task)
    case Sleeping => (c, S.Ready)
    case _ => (c, task)
  }

  predicate IsAwaiting(task: S.Task, ticket: nat) {
    (task.Creating? || task.Publishing?) && task.ticket == ticket
  }

  /** The action would dispatch another move, or another driving command of the robot. */
  predicate DispatchesAnother(u: Setup, s: P.System, a: P.Action) {
    && a.PoseResolved? && a.decision == Allow && a.offered && a.e < |s.execs| && a.e != u.move
    && (s.execs[a.e].command.op == P.MoveOp || (s.execs[a.e].command.Drives() && s.execs[a.e].command.robot == u.robot))
  }

  /** What the manager does besides the steps named in `Turn`: all but those, and all but dispatching a
      second move. The adapter's calls return to it when they are over, with what they return. */
  predicate Permitted(u: Setup, c: Layers, a: P.Action) {
    && !(a.PoseResolved? && (a.e == u.move || a.e == u.stop)) && !DispatchesAnother(u, c.manager, a)
    && (a.BackendReturned? && a.e == u.move ==> c.move == S.Finished && c.answer == Some(a.succeeded))
    && (a.MotionStopped? && a.e == u.stop ==> c.stop == S.Finished)
  }

  /** The action ends the execution while its adapter call is under way. */
  predicate EndsMidway(s: P.System, a: P.Action, e: nat) {
    && (a == P.BackstopFired(e) || a == P.Raised(e) || a == P.TaskCancelled(e))
    && (P.At(s, e, P.AwaitingBackend) || P.At(s, e, P.AwaitingMotionStop))
  }

  function Fate(task: S.Task, s: P.System, a: P.Action, e: nat): S.Task {
    if EndsMidway(s, a, e) && task != S.Ready && task != S.Finished then S.Killed else task
  }

  function Acts(u: Setup, c: Layers, a: P.Action, next: P.System): Layers {
    c.(manager := next, move := Fate(c.move, c.manager, a, u.move), stop := Fate(c.stop, c.manager, a, u.stop))
  }

  /** The move's command is about to be dispatched, and no stop has begun. */
  predicate MoveAwaitsGate(u: Setup, c: Layers) {
    && P.At(c.manager, u.move, P.AwaitingPose) && c.move == S.Ready && c.stop == S.Ready
    && var command := c.manager.execs[u.move].command;
       command.op == P.MoveOp && !command.isRead && command.robot == u.robot
  }

  predicate StopAwaitsGate(u: Setup, c: Layers) {
    && u.w.hasMotion && c.stop == S.Ready && P.At(c.manager, u.stop, P.AwaitingPose)
    && c.manager.execs[u.stop].command.op == P.StopOp && c.manager.execs[u.stop].command.robot == u.robot
  }

  predicate MoveIsReady(u: Setup, c: Layers) {
    P.At(c.manager, u.move, P.AwaitingBackend) && c.move == S.Ready
  }

  function Dispatch(u: Setup, c: Layers): Layers {
    c.(manager := P.Next(u.w, c.manager, P.PoseResolved(u.move, Allow, true)))
  }

  function BeginStop(u: Setup, c: Layers, outcome: B.Outcome): Layers {
    var decided := c.(manager := R.StopDecided(u.w, c.manager, u.stop), stopAt := |c.jobs|);
    var (t, task) := Publishes(decided, ZeroTwist, true, false, outcome);
    t.(stop := task)
  }

  /** `move` up to its loop: the start pose, or zero and SENSOR_STALE. */
  function Start(u: Setup, c: Layers, odometry: Odometry, outcome: B.Outcome): Layers {
    if !u.Proper() then c
    else if odometry.Usable() then
      var start := odometry.pose.value;
      var x := MissionFor(u.m, u.limits, u.settings, u.target, start, u.deadline);
      c.(loop := Some(Loop(x, start, [], InitialState(x.plan, start))))
    else
      var (t, task) := Publishes(c.(answer := Some(false)), ZeroTwist, true, true, outcome);
      t.(move := task)
  }

  /** One pass of the loop, `CmdVel.Step` deciding. */
  function Pass(c: Layers, l: Loop, tick: Tick, outcome: B.Outcome): Layers {
    var ticks := l.ticks + [tick];
    match Step(l.mission, l.state, tick)
    case Exit(result) =>
      var done := c.(loop := Some(l.(ticks := ticks)), answer := Some(result.succeeded));
      var (t, task) := Publishes(done, ZeroTwist, true, true, outcome);
      t.(move := task)
    case SwitchPhase(next) =>
      c.(loop := Some(l.(ticks := ticks, state := next)), move := S.Sleeping)
    case Drive(next, twist) =>
      var (t, task) := Publishes(c.(loop := Some(l.(ticks := ticks, state := next))), twist, false, true, outcome);
      t.(move := task)
  }

  /** One step; a step that is not possible in this state changes nothing. */
  function After(u: Setup, c: Layers, turn: Turn): Layers {
    match turn
    case ManagerActs(a) =>
      if Permitted(u, c, a) then Acts(u, c, a, P.Next(u.w, c.manager, a)) else c
    case MoveDispatched => if MoveAwaitsGate(u, c) then Dispatch(u, c) else c
    case MoveStarts(odometry, outcome) =>
      if MoveIsReady(u, c) && c.loop.None? then Start(u, c, odometry, outcome) else c
    case MovePasses(tick, outcome) =>
      // the token the pass reads is the one the manager created for this execution
      if MoveIsReady(u, c) && c.loop.Some? && tick.cancelled == (u.move in c.manager.cancelled)
      then Pass(c, c.loop.value, tick, outcome) else c
    case MoveResumes(outcome) =>
      var (t, task) := Resumed(c, c.move, true, outcome);
      t.(move := task)
    case StopDecided(outcome) => if StopAwaitsGate(u, c) then BeginStop(u, c, outcome) else c
    case StopResumes(outcome) =>
      var (t, task) := Resumed(c, c.stop, false, outcome);
      t.(stop := task)
    case OthersCall(outcome) => Calls(c, S.Other, false, outcome)
    case BridgeStep(step) =>
      if step.Call? || (step.Abandon? && (IsAwaiting(c.move, step.ticket) || IsAwaiting(c.stop, step.ticket))) then c
      else c.(bridge := B.Next(c.bridge, step))
  }

  /** What the scenario starts from: any state the manager can be in, no move under way and no other
      command driving the robot. */
  ghost predicate Quiet(u: Setup, s: P.System) {
    forall f: nat | P.At(s, f, P.AwaitingBackend) ::
      f != u.move && s.execs[f].command.op != P.MoveOp && s.execs[f].command.robot != u.robot
  }

  ghost predicate Started(u: Setup, history: seq<P.Action>) {
    u.Proper() && Quiet(u, P.Run(u.w, history))
  }

  function Initial(u: Setup, history: seq<P.Action>): Layers {
    Layers(P.Run(u.w, history), B.Fresh, [], [], u.publisher, None, S.Ready, S.Ready, 0, None)
  }

  function Run(u: Setup, history: seq<P.Action>, turns: seq<Turn>): Layers
    decreases |turns|
  {
    if |turns| == 0 then Initial(u, history)
    else After(u, Run(u, history, turns[..|turns| - 1]), turns[|turns| - 1])
  }

  // ----- what ties the layers together

  /** Before the stop begins a running move is its robot's newest command; afterwards its token is
      cancelled. */
  ghost predicate Reached(u: Setup, c: Layers) {
    P.At(c.manager, u.move, P.AwaitingBackend) ==>
      if c.stop == S.Ready then
        R.NewestRunning(c.manager, u.robot, u.move)
      else u.move in c.manager.cancelled
  }

  /** Every publish of the stop is its last. */
  predicate StopLeaves(task: S.Task) {
    task != S.Sleeping && (task.Creating? || task.Publishing? ==> task.leaving)
  }

  ghost predicate Tied(u: Setup, c: Layers) {
    && P.Inv(u.w, c.manager) && B.Inv(c.bridge)
    && |c.bridge.calls| == |c.jobs| && StopLeaves(c.stop) && Reached(u, c)
  }

  lemma OtherDecisions(w: P.Wiring, s: P.System, e: nat, decision: Decision, offered: bool, f: nat)
    requires P.At(s, e, P.AwaitingPose) && e != f
    ensures var t := P.Decide(w, s, e, decision, offered);
            && (P.At(t, f, P.AwaitingBackend) ==> P.At(s, f, P.AwaitingBackend))
            && (P.At(s, f, P.AwaitingBackend) ==> P.At(t, f, P.AwaitingBackend))
            && (t.registrations == s.registrations
                || (decision == Allow && offered && s.execs[e].command.op in {P.MoveOp, P.NavigateOp}
                    && t.registrations == s.registrations + [P.Registration(s.execs[e].command.robot, e)]))
  {}

  lemma AnswersRegisterNothing(w: P.Wiring, s: P.System, a: P.Action, f: nat)
    requires P.IsAnswer(a)
    ensures var t := P.Next(w, s, a);
            t.registrations == s.registrations && (P.At(t, f, P.AwaitingBackend) ==> P.At(s, f, P.AwaitingBackend))
  {}

  /** No other action dispatches `f` or registers anything. */
  lemma OnlyDecisionsRegister(w: P.Wiring, s: P.System, a: P.Action, f: nat)
    requires !a.PoseResolved?
    ensures var t := P.Next(w, s, a);
            t.registrations == s.registrations && (P.At(t, f, P.AwaitingBackend) ==> P.At(s, f, P.AwaitingBackend))
  {
    if P.IsAnswer(a) { AnswersRegisterNothing(w, s, a, f); }
  }

  /** What the manager's other actions leave alone. */
  lemma ManagerKeepsReach(u: Setup, c: Layers, a: P.Action)
    requires Tied(u, c) && Permitted(u, c, a)
    ensures var t := P.Next(u.w, c.manager, a);
            && (P.At(t, u.move, P.AwaitingBackend) ==> P.At(c.manager, u.move, P.AwaitingBackend))
            && c.manager.cancelled <= t.cancelled
            && P.NewestFor(t.registrations, u.robot) == P.NewestFor(c.manager.registrations, u.robot)
  {
    E.NextIsLater(u.w, c.manager, a);
    if a.PoseResolved? {
      if P.At(c.manager, a.e, P.AwaitingPose) {
        OtherDecisions(u.w, c.manager, a.e, a.decision, a.offered, u.move);
        var command := c.manager.execs[a.e].command;
        assert P.OnPath(u.w, c.manager.execs[a.e]);
        P.NewestAfter(c.manager.registrations, P.Registration(command.robot, a.e), u.robot);
      }
    } else {
      OnlyDecisionsRegister(u.w, c.manager, a, u.move);
    }
  }

  lemma ManagerActsKeeps(u: Setup, c: Layers, a: P.Action)
    requires u.Proper() && Tied(u, c) && Permitted(u, c, a)
    ensures Tied(u, After(u, c, ManagerActs(a)))
  {
    P.NextKeeps(u.w, c.manager, a);
    ManagerKeepsReach(u, c, a);
  }

  lemma DispatchKeeps(u: Setup, c: Layers)
    requires Tied(u, c) && MoveAwaitsGate(u, c)
    ensures Tied(u, Dispatch(u, c))
  {
    P.NextKeeps(u.w, c.manager, P.PoseResolved(u.move, Allow, true));
    P.NewestAfter(c.manager.registrations, P.Registration(u.robot, u.move), u.robot);
  }

  /** The stop finds the move in the manager's maps and cancels its token. */
  lemma StopReachesMove(u: Setup, c: Layers)
    requires u.Proper() && Tied(u, c) && StopAwaitsGate(u, c)
    ensures var t := R.StopDecided(u.w, c.manager, u.stop);
            P.Inv(u.w, t) && (P.At(t, u.move, P.AwaitingBackend) ==> u.move in t.cancelled)
  {
    P.NextKeeps(u.w, c.manager, P.PoseResolved(u.stop, Allow, true));
    OtherDecisions(u.w, c.manager, u.stop, Allow, true, u.move);
    R.NewestIsSignalled(u.w, c.manager, u.stop);
  }

  lemma BeginStopKeeps(u: Setup, c: Layers, outcome: B.Outcome)
    requires u.Proper() && Tied(u, c) && StopAwaitsGate(u, c)
    ensures Tied(u, BeginStop(u, c, outcome))
  {
    StopReachesMove(u, c);
    B.NextKeeps(c.bridge, B.Call(outcome));
  }

  /** Steps of the two tasks and of the bridge, the manager looking on. */
  lemma CallKeeps(u: Setup, c: Layers, d: Layers, outcome: B.Outcome)
    requires Tied(u, c) && d.manager == c.manager && StopLeaves(d.stop) && (d.stop == S.Ready <==> c.stop == S.Ready)
    requires (d.bridge == c.bridge && |d.jobs| == |c.jobs|)
             || (d.bridge == B.Next(c.bridge, B.Call(outcome)) && |d.jobs| == |c.jobs| + 1)
    ensures Tied(u, d)
  {
    B.NextKeeps(c.bridge, B.Call(outcome));
  }

  lemma StopResumesKeeps(u: Setup, c: Layers, outcome: B.Outcome)
    requires u.Proper() && Tied(u, c)
    ensures Tied(u, After(u, c, StopResumes(outcome)))
  {
    CallKeeps(u, c, After(u, c, StopResumes(outcome)), outcome);
  }

  lemma PassCallsOnce(c: Layers, l: Loop, tick: Tick, outcome: B.Outcome)
    ensures var d := Pass(c, l, tick, outcome);
            && d.manager == c.manager && d.stop == c.stop && d.stopAt == c.stopAt
            && (if Step(l.mission, l.state, tick).SwitchPhase? then d.bridge == c.bridge && |d.jobs| == |c.jobs|
                else d.bridge == B.Next(c.bridge, B.Call(outcome)) && |d.jobs| == |c.jobs| + 1)
  {}

  lemma PassKeeps(u: Setup, c: Layers, l: Loop, tick: Tick, outcome: B.Outcome)
    requires Tied(u, c)
    ensures Tied(u, Pass(c, l, tick, outcome))
  {
    PassCallsOnce(c, l, tick, outcome);
    CallKeeps(u, c, Pass(c, l, tick, outcome), outcome);
  }

  lemma MoveTurnsKeep(u: Setup, c: Layers, turn: Turn)
    requires u.Proper() && Tied(u, c) && (turn.MoveStarts? || turn.MoveResumes?)
    ensures Tied(u, After(u, c, turn))
  {
    CallKeeps(u, c, After(u, c, turn), turn.outcome);
  }

  lemma TiedAfter(u: Setup, c: Layers, turn: Turn)
    requires u.Proper() && Tied(u, c)
    ensures Tied(u, After(u, c, turn))
  {
    match turn {
      case ManagerActs(a) => if Permitted(u, c, a) { ManagerActsKeeps(u, c, a); }
      case MoveDispatched => if MoveAwaitsGate(u, c) { DispatchKeeps(u, c); }
      case StopDecided(outcome) => if StopAwaitsGate(u, c) { BeginStopKeeps(u, c, outcome); }
      case StopResumes(outcome) => StopResumesKeeps(u, c, outcome);
      case OthersCall(outcome) => CallKeeps(u, c, After(u, c, turn), outcome);
      case BridgeStep(step) => B.NextKeeps(c.bridge, step);
      case MovePasses(tick, outcome) => if c.loop.Some? { PassKeeps(u, c, c.loop.value, tick, outcome); }
      case _ => MoveTurnsKeep(u, c, turn);
    }
  }

  lemma {:induction false} ReachableTied(u: Setup, history: seq<P.Action>, turns: seq<Turn>)
    requires Started(u, history)
    ensures Tied(u, Run(u, history, turns))
  {
    if |turns| == 0 {
      P.ReachableInv(u.w, history);
      B.FreshInv();
    } else {
      ReachableTied(u, history, turns[..|turns| - 1]);
      TiedAfter(u, Run(u, history, turns[..|turns| - 1]), turns[|turns| - 1]);
    }
  }

  // ----- the layers refine the queue model

  /** What `StopSafety` sees of the layers. */
  function Seen(c: Layers): S.System {
    S.System(c.publisher, c.stop != S.Ready, c.stopAt, c.stop, c.move, c.jobs, c.fromMove, |c.bridge.executed|)
  }

  /** An answered call has been executed. */
  lemma AnsweredIsRun(b: B.Bridge, ticket: nat)
    requires B.Inv(b) && Answered(b, ticket)
    ensures ticket < |b.executed|
  {
    B.TicketsInPlace(b);
    assert B.FutureHonest(b, ticket);
  }

  function PassAsStep(l: Loop, tick: Tick): S.Step {
    match Step(l.mission, l.state, tick)
    case Exit(_) => S.MoveTick(ZeroTwist, true)
    case SwitchPhase(_) => S.MoveIdles
    case Drive(_, twist) => S.MoveTick(twist, false)
  }

  /** The step of the queue model a turn is; none when that model does not see it. */
  function AsStep(u: Setup, c: Layers, turn: Turn): Option<S.Step> {
    var d := After(u, c, turn);
    match turn
    case ManagerActs(_) =>
      if d.move != c.move then Some(S.MoveDies) else if d.stop != c.stop then Some(S.StopDies) else None
    case MoveDispatched => None
    case MoveStarts(_, _) => if d.move != c.move then Some(S.MoveTick(ZeroTwist, true)) else None
    case MovePasses(tick, _) =>
      if d.move != c.move then Some(PassAsStep(c.loop.value, tick)) else None
    case MoveResumes(_) => if d.move != c.move then Some(S.MoveResumes) else None
    case StopDecided(_) => if d.stop != c.stop then Some(S.StopBegins) else None
    case StopResumes(_) => if d.stop != c.stop then Some(S.StopResumes) else None
    case OthersCall(_) => Some(S.OthersCall)
    case BridgeStep(_) => if |d.bridge.executed| > |c.bridge.executed| then Some(S.ExecutorRuns) else None
  }

  ghost predicate Simulates(u: Setup, c: Layers, turn: Turn) {
    var step := AsStep(u, c, turn);
    Seen(After(u, c, turn)) == if step.Some? then S.Next(Seen(c), step.value) else Seen(c)
  }

  lemma ActsSimulate(u: Setup, c: Layers, a: P.Action, next: P.System)
    requires u.Proper()
    ensures var d := Acts(u, c, a, next);
            Seen(d) == if d.move != c.move then S.Next(Seen(c), S.MoveDies)
                       else if d.stop != c.stop then S.Next(Seen(c), S.StopDies)
                       else Seen(c)
  {}

  lemma ManagerSimulates(u: Setup, c: Layers, a: P.Action)
    requires u.Proper() && Tied(u, c)
    ensures Simulates(u, c, ManagerActs(a))
  {
    ActsSimulate(u, c, a, P.Next(u.w, c.manager, a));
  }

  /** The loop sees the token first: a pass that goes on has read one that is not cancelled. */
  lemma PassIsStep(c: Layers, l: Loop, tick: Tick, outcome: B.Outcome)
    requires c.move == S.Ready && |c.bridge.calls| == |c.jobs| && (!tick.cancelled ==> c.stop == S.Ready)
    ensures var d := Pass(c, l, tick, outcome); d.move != c.move && Seen(d) == S.Next(Seen(c), PassAsStep(l, tick))
  {}

  lemma PassSimulates(u: Setup, c: Layers, tick: Tick, outcome: B.Outcome)
    requires u.Proper() && Tied(u, c)
    ensures Simulates(u, c, MovePasses(tick, outcome))
  {
    if MoveIsReady(u, c) && c.loop.Some? && tick.cancelled == (u.move in c.manager.cancelled) {
      PassIsStep(c, c.loop.value, tick, outcome);
    }
  }

  lemma MoveResumesSimulates(u: Setup, c: Layers, outcome: B.Outcome)
    requires u.Proper() && Tied(u, c)
    ensures Simulates(u, c, MoveResumes(outcome))
  {
    if (c.move.Creating? || c.move.Publishing?) && Answered(c.bridge, c.move.ticket) {
      AnsweredIsRun(c.bridge, c.move.ticket);
    }
  }

  lemma StopResumesSimulates(u: Setup, c: Layers, outcome: B.Outcome)
    requires u.Proper() && Tied(u, c)
    ensures Simulates(u, c, StopResumes(outcome))
  {
    if (c.stop.Creating? || c.stop.Publishing?) && Answered(c.bridge, c.stop.ticket) {
      AnsweredIsRun(c.bridge, c.stop.ticket);
    }
  }

  lemma MoveStartsSimulates(u: Setup, c: Layers, odometry: Odometry, outcome: B.Outcome)
    requires u.Proper() && Tied(u, c)
    ensures Simulates(u, c, MoveStarts(odometry, outcome))
  {}

  lemma BeginSimulates(u: Setup, c: Layers, turn: Turn)
    requires u.Proper() && Tied(u, c) && (turn.StopDecided? || turn.OthersCall? || turn.MoveDispatched?)
    ensures Simulates(u, c, turn)
  {}

  lemma BridgeRunsOne(b: B.Bridge, step: B.Step)
    requires B.Inv(b) && !step.Call?
    ensures var c := B.Next(b, step);
            |c.calls| == |b.calls|
            && (|c.executed| == |b.executed| || (|c.executed| == |b.executed| + 1 && |b.executed| < |b.calls|))
  {
    B.TicketsInPlace(b);
    assert |b.executed + b.queue| == |b.calls|;
  }

  lemma OneMoreExecuted(c: Layers, next: B.Bridge)
    requires |c.bridge.calls| == |c.jobs|
    requires |next.executed| == |c.bridge.executed|
             || (|next.executed| == |c.bridge.executed| + 1 && |c.bridge.executed| < |c.bridge.calls|)
    ensures Seen(c.(bridge := next))
            == if |next.executed| > |c.bridge.executed| then S.Next(Seen(c), S.ExecutorRuns) else Seen(c)
  {}

  lemma BridgeSimulates(u: Setup, c: Layers, step: B.Step)
    requires u.Proper() && Tied(u, c)
    ensures Simulates(u, c, BridgeStep(step))
  {
    var next := B.Next(c.bridge, step);
    if !step.Call? {
      BridgeRunsOne(c.bridge, step);
      OneMoreExecuted(c, next);
    }
    var d := After(u, c, BridgeStep(step));
    assert d == c || d == c.(bridge := next);
  }

  lemma TurnSimulates(u: Setup, c: Layers, turn: Turn)
    requires u.Proper() && Tied(u, c)
    ensures Simulates(u, c, turn)
  {
    match turn {
      case ManagerActs(a) => ManagerSimulates(u, c, a);
      case MovePasses(tick, outcome) => PassSimulates(u, c, tick, outcome);
      case MoveStarts(odometry, outcome) => MoveStartsSimulates(u, c, odometry, outcome);
      case MoveResumes(outcome) => MoveResumesSimulates(u, c, outcome);
      case StopResumes(outcome) => StopResumesSimulates(u, c, outcome);
      case BridgeStep(step) => BridgeSimulates(u, c, step);
      case _ => BeginSimulates(u, c, turn);
    }
  }

  lemma {:induction false} OneMoreTurn(u: Setup, history: seq<P.Action>, turns: seq<Turn>, turn: Turn)
    ensures Run(u, history, turns + [turn]) == After(u, Run(u, history, turns), turn)
  {
    assert (turns + [turn])[..|turns|] == turns;
  }

  /** One more turn is one more step, or none. */
  lemma TurnRefines(u: Setup, c: Layers, turn: Turn, steps: seq<S.Step>) returns (more: seq<S.Step>)
    requires u.Proper() && Tied(u, c) && Seen(c) == S.Run(u.publisher, steps)
    ensures Seen(After(u, c, turn)) == S.Run(u.publisher, steps + more)
    ensures more == if AsStep(u, c, turn).Some? then [AsStep(u, c, turn).value] else []
  {
    TurnSimulates(u, c, turn);
    var step := AsStep(u, c, turn);
    if step.Some? {
      S.OneMore(u.publisher, steps, step.value);
      more := [step.value];
    } else {
      more := [];
      assert steps + more == steps;
    }
  }

  /** Every run of the layers is a run of the queue model. */
  lemma {:induction false} Refines(u: Setup, history: seq<P.Action>, turns: seq<Turn>) returns (steps: seq<S.Step>)
    requires Started(u, history)
    ensures Seen(Run(u, history, turns)) == S.Run(u.publisher, steps)
  {
    if |turns| == 0 {
      steps := [];
    } else {
      var init, turn := turns[..|turns| - 1], turns[|turns| - 1];
      var most := Refines(u, history, init);
      ReachableTied(u, history, init);
      var more := TurnRefines(u, Run(u, history, init), turn, most);
      steps := most + more;
    }
  }

  // ----- the move is CmdVel's loop

  /** The move has returned or is about to, or was killed. */
  predicate Gone(task: S.Task) {
    task == S.Finished || task == S.Killed || ((task.Creating? || task.Publishing?) && task.leaving)
  }

  /** What the run of the loop has returned, if it has. */
  function AnswerOf(run: LoopRun): Option<bool> {
    if run.result.Some? then Some(run.result.value.succeeded) else None
  }

  ghost predicate IsRun(u: Setup, l: Loop, move: S.Task, answer: Option<bool>)
    requires u.Proper()
  {
    && l.mission == MissionFor(u.m, u.limits, u.settings, u.target, l.start, u.deadline)
    && RunLoop(l.mission, l.start, l.ticks).state == l.state
    && answer == AnswerOf(RunLoop(l.mission, l.start, l.ticks))
    && (answer.Some? ==> Gone(move))
  }

  ghost predicate OnLoop(u: Setup, c: Layers)
    requires u.Proper()
  {
    if c.loop.Some? then IsRun(u, c.loop.value, c.move, c.answer)
    else c.answer.Some? ==> c.answer == Some(false) && Gone(c.move)
  }

  lemma {:induction false} OneMorePass(x: Mission, start: Pose, ticks: seq<Tick>, tick: Tick)
    requires RunLoop(x, start, ticks).result.None?
    ensures var run := RunLoop(x, start, ticks);
            RunLoop(x, start, ticks + [tick]) == Apply(run, |ticks|, Step(x, run.state, tick))
  {
    assert (ticks + [tick])[..|ticks|] == ticks;
  }

  lemma PassApplies(c: Layers, l: Loop, tick: Tick, outcome: B.Outcome, run: LoopRun)
    requires c.loop == Some(l) && run.state == l.state && run.result.None?
    ensures var d, next := Pass(c, l, tick, outcome), Apply(run, |l.ticks|, Step(l.mission, l.state, tick));
            && d.loop == Some(l.(ticks := l.ticks + [tick], state := next.state))
            && d.answer == (if next.result.Some? then AnswerOf(next) else c.answer)
            && (next.result.Some? ==> Gone(d.move))
  {}

  lemma {:induction false} PassIsOnLoop(u: Setup, c: Layers, l: Loop, tick: Tick, outcome: B.Outcome)
    requires u.Proper() && c.loop == Some(l) && IsRun(u, l, c.move, c.answer) && c.move == S.Ready
    ensures OnLoop(u, Pass(c, l, tick, outcome))
  {
    OneMorePass(l.mission, l.start, l.ticks, tick);
    PassApplies(c, l, tick, outcome, RunLoop(l.mission, l.start, l.ticks));
  }

  /** A turn that is not a pass leaves the loop alone, or is its start, and a move that is gone stays
      so. */
  lemma {:induction false} OthersKeepLoop(u: Setup, c: Layers, turn: Turn)
    requires u.Proper() && OnLoop(u, c) && !turn.MovePasses?
    ensures OnLoop(u, After(u, c, turn))
  {
    var d := After(u, c, turn);
    assert Gone(c.move) ==> Gone(d.move);
    assert (d.loop == c.loop && d.answer == c.answer) || (c.loop.None? && turn.MoveStarts?);
  }

  /** The passes the move has made are a run of the source's loop for its mission, still without a
      result for as long as the move goes on: all that is proved of `CmdVel.RunLoop` holds of it. */
  lemma {:induction false} MoveIsItsLoop(u: Setup, history: seq<P.Action>, turns: seq<Turn>)
    requires Started(u, history)
    ensures OnLoop(u, Run(u, history, turns))
  {
    if |turns| > 0 {
      var c, turn := Run(u, history, turns[..|turns| - 1]), turns[|turns| - 1];
      MoveIsItsLoop(u, history, turns[..|turns| - 1]);
      if turn.MovePasses? {
        if MoveIsReady(u, c) && c.loop.Some? { PassIsOnLoop(u, c, c.loop.value, turn.tick, turn.outcome); }
      } else {
        OthersKeepLoop(u, c, turn);
      }
    }
  }

  // ----- what the manager reports of the move

  predicate InBackendOrDone(s: P.System, e: nat) {
    e < |s.execs| && (s.execs[e].pc == P.AwaitingBackend || s.execs[e].pc.Done?)
  }

  /** An execution that is in its backend's `move` or past it, and has succeeded only with the adapter's word. */
  ghost predicate HonestMove(c: Layers, e: nat) {
    && InBackendOrDone(c.manager, e) && c.manager.execs[e].command.Drives()
    && (c.manager.execs[e].pc == P.Done(Some(P.StatusSucceeded)) ==> c.answer == Some(true))
  }

  lemma StaysWhenAnswered(w: P.Wiring, s: P.System, a: P.Action, e: nat)
    requires P.At(s, e, P.AwaitingBackend) && P.IsAnswer(a)
    ensures InBackendOrDone(P.Next(w, s, a), e)
  {}

  lemma StaysWhenDecided(w: P.Wiring, s: P.System, f: nat, decision: Decision, offered: bool, e: nat)
    requires P.At(s, e, P.AwaitingBackend) && P.At(s, f, P.AwaitingPose)
    ensures InBackendOrDone(P.Decide(w, s, f, decision, offered), e)
  {}

  lemma StaysWhenStopping(w: P.Wiring, s: P.System, f: nat, e: nat)
    requires P.At(s, e, P.AwaitingBackend) && P.At(s, f, P.AwaitingMotionStop)
    ensures InBackendOrDone(P.AfterMotionStop(w, s, f, []), e)
  {}

  lemma StaysOtherwise(w: P.Wiring, s: P.System, a: P.Action, e: nat)
    requires P.At(s, e, P.AwaitingBackend) && !P.IsAnswer(a) && !a.PoseResolved? && !a.MotionStopped?
    ensures InBackendOrDone(P.Next(w, s, a), e)
  {}

  lemma StaysInBackend(w: P.Wiring, s: P.System, a: P.Action, e: nat)
    requires P.At(s, e, P.AwaitingBackend)
    ensures InBackendOrDone(P.Next(w, s, a), e)
  {
    match a {
      case PoseResolved(f, decision, offered) =>
        if P.At(s, f, P.AwaitingPose) { StaysWhenDecided(w, s, f, decision, offered, e); }
      case MotionStopped(f) => if P.At(s, f, P.AwaitingMotionStop) { StaysWhenStopping(w, s, f, e); }
      case _ => if P.IsAnswer(a) { StaysWhenAnswered(w, s, a, e); } else { StaysOtherwise(w, s, a, e); }
    }
  }

  lemma ManagerIsHonest(u: Setup, c: Layers, a: P.Action)
    requires P.Inv(u.w, c.manager) && HonestMove(c, u.move)
    requires a.BackendReturned? && a.e == u.move ==> c.answer == Some(a.succeeded)
    ensures HonestMove(c.(manager := P.Next(u.w, c.manager, a)), u.move)
  {
    var t := P.Next(u.w, c.manager, a);
    E.NextIsLater(u.w, c.manager, a);
    if c.manager.execs[u.move].pc == P.AwaitingBackend {
      StaysInBackend(u.w, c.manager, a, u.move);
      if E.NewSuccess(c.manager, t, u.move) { E.OnlyAnswersSucceed(u.w, c.manager, a, u.move); }
    }
  }

  ghost predicate Honest(u: Setup, c: Layers) { c.loop.Some? ==> HonestMove(c, u.move) }

  lemma ReadyIsHonest(u: Setup, c: Layers, d: Layers)
    requires P.Inv(u.w, c.manager) && MoveIsReady(u, c) && d.manager == c.manager
    ensures HonestMove(d, u.move)
  {
    assert P.OnPath(u.w, c.manager.execs[u.move]);
  }

  lemma PassIsHonest(u: Setup, c: Layers, tick: Tick, outcome: B.Outcome)
    requires u.Proper() && Tied(u, c) && Honest(u, c)
    ensures Honest(u, After(u, c, MovePasses(tick, outcome)))
  {
    if MoveIsReady(u, c) && c.loop.Some? {
      PassCallsOnce(c, c.loop.value, tick, outcome);
      ReadyIsHonest(u, c, Pass(c, c.loop.value, tick, outcome));
    }
  }

  lemma StartIsHonest(u: Setup, c: Layers, odometry: Odometry, outcome: B.Outcome)
    requires u.Proper() && Tied(u, c) && Honest(u, c)
    ensures Honest(u, After(u, c, MoveStarts(odometry, outcome)))
  {
    if MoveIsReady(u, c) && c.loop.None? { ReadyIsHonest(u, c, Start(u, c, odometry, outcome)); }
  }

  /** The rest of the two tasks, and the bridge: the manager looks on, and the answer stays. */
  lemma TasksAreHonest(u: Setup, c: Layers, turn: Turn)
    requires u.Proper() && Tied(u, c) && Honest(u, c)
    requires turn.MoveResumes? || turn.StopResumes? || turn.OthersCall? || turn.BridgeStep?
    ensures Honest(u, After(u, c, turn))
  {}

  lemma HonestAfter(u: Setup, c: Layers, turn: Turn)
    requires u.Proper() && Tied(u, c) && Honest(u, c)
    ensures Honest(u, After(u, c, turn))
  {
    match turn {
      case ManagerActs(a) =>
        if Permitted(u, c, a) && c.loop.Some? { ManagerIsHonest(u, c, a); }
      case MoveDispatched =>
        if MoveAwaitsGate(u, c) && c.loop.Some? { ManagerIsHonest(u, c, P.PoseResolved(u.move, Allow, true)); }
      case StopDecided(outcome) =>
        if StopAwaitsGate(u, c) && c.loop.Some? { ManagerIsHonest(u, c, P.PoseResolved(u.stop, Allow, true)); }
      case MovePasses(tick, outcome) => PassIsHonest(u, c, tick, outcome);
      case MoveStarts(odometry, outcome) => StartIsHonest(u, c, odometry, outcome);
      case _ => TasksAreHonest(u, c, turn);
    }
  }

  lemma {:induction false} ReachableHonest(u: Setup, history: seq<P.Action>, turns: seq<Turn>)
    requires Started(u, history)
    ensures Honest(u, Run(u, history, turns))
  {
    if |turns| > 0 {
      var init := turns[..|turns| - 1];
      ReachableHonest(u, history, init);
      ReachableTied(u, history, init);
      HonestAfter(u, Run(u, history, init), turns[|turns| - 1]);
    }
  }

  /** The manager says "succeeded" of a move only when the loop has returned and reached its target. */
  lemma {:induction false} SuccessIsTheLoops(u: Setup, history: seq<P.Action>, turns: seq<Turn>)
    requires Started(u, history)
    requires var c := Run(u, history, turns);
             c.loop.Some? && P.At(c.manager, u.move, P.Done(Some(P.StatusSucceeded)))
    ensures var l := Run(u, history, turns).loop.value; var run := RunLoop(l.mission, l.start, l.ticks);
            run.result.Some? && run.result.value.succeeded
  {
    ReachableHonest(u, history, turns);
    MoveIsItsLoop(u, history, turns);
  }

  /** Then the robot has arrived: a rotation within the angle tolerance of its heading, a translation at most the
      position tolerance short of the distance asked for, from where its drive began. */
  lemma {:induction false} SuccessMeansArrived(u: Setup, history: seq<P.Action>, turns: seq<Turn>)
    requires Started(u, history) && u.m.Sound()
    requires var c := Run(u, history, turns);
             c.loop.Some? && P.At(c.manager, u.move, P.Done(Some(P.StatusSucceeded)))
    ensures var l := Run(u, history, turns).loop.value;
            var run := RunLoop(l.mission, l.start, l.ticks);
            && run.result.Some? && run.result.value.finalPose.Some?
            && var pose := run.result.value.finalPose.value;
               if run.state.phase == Turning then
                 u.target.direction.IsRotation() && Abs(l.mission.headingError(pose.yaw)) <= u.settings.angleTolerance
               else l.mission.plan.distance - Distance(u.m, run.state.phaseStart, pose) <= u.settings.positionTolerance
  {
    SuccessIsTheLoops(u, history, turns);
    MoveIsItsLoop(u, history, turns);
    var l := Run(u, history, turns).loop.value;
    MotionSafety.ResultsAreHonest(l.mission, l.start, l.ticks);
  }

  /** When the backend's answer reaches the manager, success and failure of the execution are those of the loop;
      without a start pose it has failed. */
  lemma {:induction false} AnswerIsTheLoops(u: Setup, history: seq<P.Action>, turns: seq<Turn>, ok: bool)
    requires Started(u, history)
    requires var c := Run(u, history, turns);
             Permitted(u, c, P.BackendReturned(u.move, ok)) && P.At(c.manager, u.move, P.AwaitingBackend)
             && c.manager.execs[u.move].goal != Accepted
    ensures var c := Run(u, history, turns);
            var s := Run(u, history, turns + [ManagerActs(P.BackendReturned(u.move, ok))]).manager;
            var l := c.loop;
            u.move < |s.execs|
            && if l.Some? && RunLoop(l.value.mission, l.value.start, l.value.ticks).result.Some?
                  && RunLoop(l.value.mission, l.value.start, l.value.ticks).result.value.succeeded
               then E.EndsIn(s.execs[u.move], P.StatusSucceeded, P.Succeeded)
               else E.EndsIn(s.execs[u.move], P.StatusFailed, P.Failed)
  {
    var c, a := Run(u, history, turns), P.BackendReturned(u.move, ok);
    MoveIsItsLoop(u, history, turns);
    OneMoreTurn(u, history, turns, ManagerActs(a));
    E.AnswersReport(u.w, c.manager, a, u.move);
  }

  // ----- the promises, of the layers

  /** What the callables run so far have done, in the order they were run. */
  function Executed(jobs: seq<S.Job>, tickets: seq<B.Ticket>): seq<S.Job>
    decreases |tickets|
  {
    if |tickets| == 0 then []
    else
      var rest, last := Executed(jobs, tickets[..|tickets| - 1]), tickets[|tickets| - 1];
      if last < |jobs| then rest + [jobs[last]] else rest
  }

  lemma {:induction false} ExecutedIsPrefix(jobs: seq<S.Job>, tickets: seq<B.Ticket>)
    requires |tickets| <= |jobs| && forall i: nat | i < |tickets| :: tickets[i] == i
    ensures Executed(jobs, tickets) == jobs[..|tickets|]
    decreases |tickets|
  {
    if |tickets| > 0 {
      ExecutedIsPrefix(jobs, tickets[..|tickets| - 1]);
    }
  }

  lemma {:induction false} FewerDrives(jobs: seq<S.Job>, n: nat, from: nat)
    requires n <= |jobs|
    ensures S.DrivesSince(jobs[..n], from) <= S.DrivesSince(jobs, from)
    decreases |jobs|
  {
    if n == |jobs| {
      assert jobs[..n] == jobs;
    } else {
      assert jobs[..|jobs| - 1][..n] == jobs[..n];
      FewerDrives(jobs[..|jobs| - 1], n, from);
      if |jobs| <= from { assert S.DrivesSince(jobs[..n], from) == 0; }
    }
  }

  lemma ExecutedInOrder(u: Setup, c: Layers)
    requires Tied(u, c)
    ensures |c.bridge.executed| <= |c.jobs| && Executed(c.jobs, c.bridge.executed) == c.jobs[..|c.bridge.executed|]
  {
    B.TicketsInPlace(c.bridge);
    ExecutedIsPrefix(c.jobs, c.bridge.executed);
  }

  /** From the moment the stop begins its token is set if the move still runs, and the executor thread runs
      at most one more control twist of all those enqueued from then on. */
  lemma {:induction false} AtMostOneMoreTwist(u: Setup, history: seq<P.Action>, turns: seq<Turn>)
    requires Started(u, history) && Run(u, history, turns).stop != S.Ready
    ensures var c := Run(u, history, turns);
            && (P.At(c.manager, u.move, P.AwaitingBackend) ==> u.move in c.manager.cancelled)
            && S.DrivesSince(c.jobs, c.stopAt) <= 1
            && S.DrivesSince(Executed(c.jobs, c.bridge.executed), c.stopAt) <= 1
  {
    var c := Run(u, history, turns);
    ReachableTied(u, history, turns);
    var steps := Refines(u, history, turns);
    S.AtMostOneMoreTwist(u.publisher, steps);
    ExecutedInOrder(u, c);
    FewerDrives(c.jobs, |c.bridge.executed|, c.stopAt);
  }

  /** Once the move has returned and the queue is empty, the last twist the executor thread has sent is
      zero, whether the stop has begun, has finished, or not. */
  lemma {:induction false} RobotIsLeftStanding(u: Setup, history: seq<P.Action>, turns: seq<Turn>)
    requires Started(u, history)
    requires var c := Run(u, history, turns); c.move == S.Finished && c.bridge.queue == []
    ensures var c := Run(u, history, turns); S.LeavesStanding(Executed(c.jobs, c.bridge.executed))
  {
    var c := Run(u, history, turns);
    ReachableTied(u, history, turns);
    ExecutedInOrder(u, c);
    assert c.bridge.executed + [] == c.bridge.executed;
    var steps := Refines(u, history, turns);
    S.RobotIsLeftStanding(u.publisher, steps);
  }

  /** The queue's invariant holds, and since the stop began no control twist was enqueued nor is one in hand. */
  ghost predicate QuietNow(c: Layers) { S.Inv(Seen(c)) && S.Quiet(Seen(c)) }

  lemma QuietTurn(u: Setup, c: Layers, turn: Turn)
    requires u.Proper() && Tied(u, c) && QuietNow(c)
    ensures QuietNow(After(u, c, turn))
  {
    TurnSimulates(u, c, turn);
    var step := AsStep(u, c, turn);
    if step.Some? {
      S.NextKeeps(Seen(c), step.value);
      S.QuietStays(Seen(c), step.value);
    }
  }

  lemma StopIsQuiet(u: Setup, c: Layers, turn: Turn)
    requires u.Proper() && Tied(u, c) && S.Inv(Seen(c))
    requires turn.StopDecided? && StopAwaitsGate(u, c) && !S.Holding(c.move)
    ensures QuietNow(After(u, c, turn))
  {
    TurnSimulates(u, c, turn);
    S.NextKeeps(Seen(c), S.StopBegins);
    S.QuietBegins(Seen(c));
  }

  lemma {:induction false} SeenInv(u: Setup, history: seq<P.Action>, turns: seq<Turn>)
    requires Started(u, history)
    ensures S.Inv(Seen(Run(u, history, turns)))
  {
    var steps := Refines(u, history, turns);
    S.ReachableInv(u.publisher, steps);
  }

  /** A stop, turn `k`, that finds the move without a twist in hand is followed by no control twist at all. */
  lemma {:induction false} NothingMoreUnlessHolding(u: Setup, history: seq<P.Action>, turns: seq<Turn>, k: nat)
    requires Started(u, history) && k < |turns| && turns[k].StopDecided?
    requires var c := Run(u, history, turns[..k]); StopAwaitsGate(u, c) && !S.Holding(c.move)
    ensures QuietNow(Run(u, history, turns))
    decreases |turns|
  {
    var init, last := turns[..|turns| - 1], turns[|turns| - 1];
    ReachableTied(u, history, init);
    if k == |turns| - 1 {
      SeenInv(u, history, init);
      StopIsQuiet(u, Run(u, history, init), last);
    } else {
      assert init[..k] == turns[..k];
      NothingMoreUnlessHolding(u, history, init, k);
      QuietTurn(u, Run(u, history, init), last);
    }
  }

  // ----- the scenario happens

  const Waiting := [
    P.Submit(R.Driving("move", P.MoveOp)), P.Begin(0, true), P.Submit(R.Halt), P.Begin(1, true)]

  lemma {:induction false} WaitingRun(w: P.Wiring)
    ensures var s := P.Run(w, Waiting);
            && |s.execs| == 2 && P.At(s, 0, P.AwaitingPose) && P.At(s, 1, P.AwaitingPose)
            && s.execs[0].command == R.Driving("move", P.MoveOp) && s.execs[1].command == R.Halt
  {
    var a, b, c := Waiting[..1], Waiting[..2], Waiting[..3];
    R.RunOne(w, [], Waiting[0]);
    assert [] + [Waiting[0]] == a;
    R.RunOne(w, a, Waiting[1]);
    assert a + [Waiting[1]] == b;
    assert "halt"[0] == 'h' && "move"[0] == 'm';
    R.RunOne(w, b, Waiting[2]);
    assert b + [Waiting[2]] == c;
    R.RunOne(w, c, Waiting[3]);
    assert c + [Waiting[3]] == Waiting;
  }

  lemma DispatchRuns(u: Setup, c: Layers)
    requires MoveAwaitsGate(u, c) && Tied(u, c) && u.Proper() && u.w.hasMotion
             && P.At(c.manager, u.stop, P.AwaitingPose)
    requires c.manager.execs[u.stop].command.op == P.StopOp && c.manager.execs[u.stop].command.robot == u.robot
    ensures StopAwaitsGate(u, Dispatch(u, c)) && P.At(Dispatch(u, c).manager, u.move, P.AwaitingBackend)
  {}

  lemma StopIsSeen(u: Setup, c: Layers, outcome: B.Outcome)
    requires u.Proper() && Tied(u, c) && StopAwaitsGate(u, c) && P.At(c.manager, u.move, P.AwaitingBackend)
    ensures var d := BeginStop(u, c, outcome);
            d.stop != S.Ready && P.At(d.manager, u.move, P.AwaitingBackend) && u.move in d.manager.cancelled
  {
    StopReachesMove(u, c);
    OtherDecisions(u.w, c.manager, u.stop, Allow, true, u.move);
  }

  lemma {:induction false} StopFollows(u: Setup, history: seq<P.Action>, before: seq<Turn>, outcome: B.Outcome)
    requires Started(u, history)
    requires var c := Run(u, history, before); StopAwaitsGate(u, c) && P.At(c.manager, u.move, P.AwaitingBackend)
    ensures var c := Run(u, history, before + [StopDecided(outcome)]);
            c.stop != S.Ready && P.At(c.manager, u.move, P.AwaitingBackend) && u.move in c.manager.cancelled
  {
    ReachableTied(u, history, before);
    StopIsSeen(u, Run(u, history, before), outcome);
    OneMoreTurn(u, history, before, StopDecided(outcome));
  }

  lemma {:induction false} MoveFollows(u: Setup)
    requires u.Proper() && u.w.hasMotion && u.robot == "r1" && u.move == 0 && u.stop == 1
    ensures Started(u, Waiting)
    ensures var c := Run(u, Waiting, [MoveDispatched]);
            StopAwaitsGate(u, c) && P.At(c.manager, u.move, P.AwaitingBackend)
  {
    WaitingRun(u.w);
    assert [MoveDispatched][..0] == [];
    ReachableTied(u, Waiting, []);
    DispatchRuns(u, Initial(u, Waiting));
  }

  /** A move dispatched, and a stop of its robot decided right after: the premise of the promises above is
      met with the move still running and its token set. */
  lemma {:induction false} StopMeetsMove(u: Setup, outcome: B.Outcome)
    requires u.Proper() && u.w.hasMotion && u.robot == "r1" && u.move == 0 && u.stop == 1
    ensures Started(u, Waiting)
    ensures var c := Run(u, Waiting, [MoveDispatched] + [StopDecided(outcome)]);
            c.stop != S.Ready && P.At(c.manager, u.move, P.AwaitingBackend) && u.move in c.manager.cancelled
  {
    MoveFollows(u);
    StopFollows(u, Waiting, [MoveDispatched], outcome);
  }
}
