/**
 The execution manager as an interleaved protocol (src/ros_mcp/execution/manager.py).

 Every `submit` that is not answered by a running execution starts one task. The code a task runs
 between two suspension points is one atomic action, and actions of all tasks interleave freely:
 `Next` performs one action, `Run` any finite sequence of them from the empty manager. Whatever is
 outside (the pose provider, the safety gate's answer, the planner's answer, the adapters' results,
 exceptions, task cancellation) is an argument of the action, so it is arbitrary.

 An execution is known by its number; the command object it executes, the cancellation token it
 creates and the Nav2 goal it gets accepted carry the same number (the command factory makes a new
 object for every call).

 The navigation plugin's share of the protocol is its one shared field, `_active_goal_handle`: a
 running `navigate` stores its accepted goal there and stores None when it leaves its loop, and a
 stop's `cancel_all` tests the field, enqueues a callable for the executor thread, and that callable
 reads the field again when it is run (nav2_plugin.py:233, 257, 321-327).
 */
module ExecutionProtocol {
  import opened RealMath
  import opened Core
  import opened SafetyPolicy
  import opened GoalHandle

  type CommandId = string
  type RobotId = string

  datatype Operation = MoveOp | NavigateOp | StopOp | OtherOp

  datatype Command = Command(id: CommandId, robot: RobotId, op: Operation, isRead: bool) {
    predicate Drives() { !isRead && (op == MoveOp || op == NavigateOp) }
  }

  /** The backends the manager was built with. */
  datatype Wiring = Wiring(hasMotion: bool, hasNavigation: bool)

  /** The states `manager.py` writes; MONITORING, TIMEOUT, SAFETY_STOP and CANCELLED it never does. */
  datatype State =
    | InSafetyCheck | InPlanning | Executing
    | Succeeded | Failed | SafetyRefused | ApprovalAwaited | BackendUnavailable

  datatype Status = StatusSucceeded | StatusFailed | StatusAwaitingApproval

  /** What one execution did, in order. */
  datatype Mark =
    | Entered(state: State)
    | Decided(decision: Decision)     // the answer of SafetyPolicyEngine.check
    | Offered(available: bool)        // select_backend answered a backend
    | Dispatched(op: Operation)       // move() or navigate() was called
    | MotionStopCalled                // motion backend's stop()
    | GoalCancelCalled                // navigation backend's cancel_all()

  /** Where an execution is suspended. `Done(None)` is a task that was itself cancelled. */
  datatype Pc =
    | Created | AwaitingHandler | AwaitingPose | AwaitingBackend | AwaitingMotionStop | AwaitingGoalCancel
    | Done(status: Option<Status>)

  /** `owned` until the submitter that started the execution has removed its in-flight entry. */
  datatype Exec = Exec(command: Command, pc: Pc, trail: seq<Mark>, owned: bool, goal: GoalPhase)

  datatype Registration = Registration(robot: RobotId, e: nat)

  /** `handle` is the plugin's field and `writes` the log of its changes; `cancelQueue` holds the stops
      whose cancel callable has yet to be run, in order, and `goalsCancelled` the goals Nav2 was asked
      to cancel. */
  datatype System = System(
    execs: seq<Exec>, inFlight: map<CommandId, nat>, tokens: map<CommandId, nat>, active: map<RobotId, nat>,
    cancelled: set<nat>, registrations: seq<Registration>,
    handle: Option<GoalId>, writes: seq<HandleWrite>, cancelQueue: seq<nat>, goalsCancelled: set<GoalId>)

  datatype Action =
    | Submit(command: Command)
    | Begin(e: nat, hasHandler: bool)
    | ReadHandled(e: nat, succeeded: bool)
    | PoseResolved(e: nat, decision: Decision, offered: bool)
    | PlannerRaised(e: nat)           // select_backend raises after the gate's ALLOW
    | GoalAccepted(e: nat)            // Nav2 accepts the goal of a navigate
    | GoalDropped(e: nat)             // the navigate leaves its polling loop
    | BackendReturned(e: nat, succeeded: bool)
    | BackstopFired(e: nat)
    | MotionStopped(e: nat)
    | CancelRead                      // the executor thread runs the next cancel callable
    | GoalCancelled(e: nat)           // ... and the stop that enqueued it goes on
    | Raised(e: nat)
    | TaskCancelled(e: nat)
    | Released(e: nat)
    | CancelRequested(id: CommandId)

  const Empty := System([], map[], map[], map[], {}, [], None, [], [], {})

  function StatusOf(succeeded: bool): Status { if succeeded then StatusSucceeded else StatusFailed }

  function StateOf(succeeded: bool): State { if succeeded then Succeeded else Failed }

  // ----- the updates the actions are made of

  function Suspend(s: System, e: nat, pc: Pc, marks: seq<Mark>): System
    requires e < |s.execs|
  {
    s.(execs := s.execs[e := s.execs[e].(pc := pc, trail := s.execs[e].trail + marks)])
  }

  /** Lines 187-189: a token, and the robot's newest active command. */
  function Register(s: System, e: nat): System
    requires e < |s.execs|
  {
    var c := s.execs[e].command;
    s.(tokens := s.tokens[c.id := e], active := s.active[c.robot := e],
       registrations := s.registrations + [Registration(c.robot, e)])
  }

  /** The `finally` clause: the token by key, the active entry only when it is this very command. */
  function CleanUp(s: System, e: nat): System
    requires e < |s.execs|
  {
    var c := s.execs[e].command;
    s.(tokens := s.tokens - {c.id},
       active := if c.robot in s.active && s.active[c.robot] == e then s.active - {c.robot} else s.active)
  }

  function CleanUpIfRegistered(s: System, e: nat): System
    requires e < |s.execs|
  {
    if s.execs[e].pc == AwaitingBackend then CleanUp(s, e) else s
  }

  function CancelToken(s: System, id: CommandId): System {
    if id in s.tokens then s.(cancelled := s.cancelled + {s.tokens[id]}) else s
  }

  /** `_handle_stop` up to its first suspension: signal the robot's active command, if it is another. */
  function SignalActive(s: System, e: nat): System
    requires e < |s.execs|
  {
    var c := s.execs[e].command;
    if c.robot in s.active && s.active[c.robot] < |s.execs| && s.execs[s.active[c.robot]].command.id != c.id
    then CancelToken(s, s.execs[s.active[c.robot]].command.id)
    else s
  }

  function AfterMotionStop(w: Wiring, s: System, e: nat, before: seq<Mark>): System
    requires e < |s.execs|
  {
    if !w.hasNavigation then Suspend(s, e, Done(Some(StatusSucceeded)), before + [Entered(Succeeded)])
    else if s.handle.None? then
      Suspend(s, e, Done(Some(StatusSucceeded)), before + [GoalCancelCalled, Entered(Succeeded)])
    else
      Suspend(s.(cancelQueue := s.cancelQueue + [e]), e, AwaitingGoalCancel, before + [GoalCancelCalled])
  }

  /** The plugin stores its goal, or None. */
  function WriteHandle(s: System, x: HandleWrite, phase: GoalPhase): System
    requires x.goal < |s.execs|
  {
    var writes := s.writes + [x];
    s.(execs := s.execs[x.goal := s.execs[x.goal].(goal := phase)], handle := HandleAfter(writes), writes := writes)
  }

  /** The callable `cancel_all` enqueued: it cancels whatever goal the field holds now. */
  function ReadHandle(s: System): System
    requires |s.cancelQueue| > 0
  {
    s.(cancelQueue := s.cancelQueue[1..],
       goalsCancelled := if s.handle.Some? then s.goalsCancelled + {s.handle.value} else s.goalsCancelled)
  }

  function HandleStop(w: Wiring, s: System, e: nat, before: seq<Mark>): System
    requires e < |s.execs|
  {
    var signalled := SignalActive(s, e);
    if w.hasMotion then Suspend(signalled, e, AwaitingMotionStop, before + [MotionStopCalled])
    else AfterMotionStop(w, signalled, e, before)
  }

  /** From the pose to the next suspension. `select_backend` answers None for every operation but
      move, stop and navigate. */
  function Decide(w: Wiring, s: System, e: nat, decision: Decision, offered: bool): System
    requires e < |s.execs|
  {
    var c := s.execs[e].command;
    match decision
    case Deny(_) => Suspend(s, e, Done(Some(StatusFailed)), [Decided(decision), Entered(SafetyRefused)])
    case RequireApproval =>
      Suspend(s, e, Done(Some(StatusAwaitingApproval)), [Decided(decision), Entered(ApprovalAwaited)])
    case Allow =>
      if c.op == StopOp then
        HandleStop(w, s, e, [Decided(Allow), Entered(InPlanning)])
      else if !offered || c.op == OtherOp then
        Suspend(s, e, Done(Some(StatusFailed)),
                [Decided(Allow), Entered(InPlanning), Offered(false), Entered(BackendUnavailable)])
      else
        Suspend(Register(s, e), e, AwaitingBackend,
                [Decided(Allow), Entered(InPlanning), Offered(true), Entered(Executing), Dispatched(c.op)])
  }

  predicate At(s: System, e: nat, pc: Pc) { e < |s.execs| && s.execs[e].pc == pc }

  predicate Running(s: System, e: nat) { e < |s.execs| && !s.execs[e].pc.Done? }

  /** The execution is inside the backend's `navigate`, its goal this far. */
  predicate Navigating(w: Wiring, s: System, e: nat, phase: GoalPhase) {
    At(s, e, AwaitingBackend) && s.execs[e].command.op == NavigateOp && w.hasNavigation && s.execs[e].goal == phase
  }

  /** One action; an action that is not possible in this state changes nothing. */
  function Next(w: Wiring, s: System, a: Action): System {
    match a
    case Submit(c) =>
      if c.id in s.inFlight then s
      else s.(execs := s.execs + [Exec(c, Created, [], true, NotAccepted)], inFlight := s.inFlight[c.id := |s.execs|])
    case Begin(e, hasHandler) =>
      if !At(s, e, Created) then s
      else if !s.execs[e].command.isRead then Suspend(s, e, AwaitingPose, [Entered(InSafetyCheck)])
      else if hasHandler then Suspend(s, e, AwaitingHandler, [Entered(Executing)])
      else Suspend(s, e, Done(Some(StatusFailed)), [Entered(Executing), Entered(Failed)])
    case ReadHandled(e, succeeded) =>
      if !At(s, e, AwaitingHandler) then s
      else Suspend(s, e, Done(Some(StatusOf(succeeded))), [Entered(StateOf(succeeded))])
    case PoseResolved(e, decision, offered) =>
      if !At(s, e, AwaitingPose) then s else Decide(w, s, e, decision, offered)
    case PlannerRaised(e) =>
      if !At(s, e, AwaitingPose) || s.execs[e].command.op == StopOp then s
      else Suspend(s, e, Done(Some(StatusFailed)), [Decided(Allow), Entered(InPlanning), Entered(Failed)])
    case GoalAccepted(e) =>
      if !Navigating(w, s, e, NotAccepted) then s else WriteHandle(s, Accept(e), Accepted)
    case GoalDropped(e) =>
      if !Navigating(w, s, e, Accepted) then s else WriteHandle(s, Drop(e), Dropped)
    case BackendReturned(e, succeeded) =>
      // a `navigate` that returns with an accepted goal has left its loop
      if !At(s, e, AwaitingBackend) || s.execs[e].goal == Accepted then s
      else Suspend(CleanUp(s, e), e, Done(Some(StatusOf(succeeded))), [Entered(StateOf(succeeded))])
    case BackstopFired(e) =>
      if !At(s, e, AwaitingBackend) then s
      else Suspend(CleanUp(s, e), e, Done(Some(StatusFailed)), [Entered(Failed)])
    case MotionStopped(e) =>
      if !At(s, e, AwaitingMotionStop) then s else AfterMotionStop(w, s, e, [])
    case CancelRead => if |s.cancelQueue| == 0 then s else ReadHandle(s)
    case GoalCancelled(e) =>
      if !At(s, e, AwaitingGoalCancel) || e in s.cancelQueue then s
      else Suspend(s, e, Done(Some(StatusSucceeded)), [Entered(Succeeded)])
    case Raised(e) =>
      if !Running(s, e) then s
      else Suspend(CleanUpIfRegistered(s, e), e, Done(Some(StatusFailed)), [Entered(Failed)])
    case TaskCancelled(e) =>
      if !Running(s, e) then s else Suspend(CleanUpIfRegistered(s, e), e, Done(None), [])
    case Released(e) =>
      if e < |s.execs| && s.execs[e].pc.Done? && s.execs[e].owned then
        s.(execs := s.execs[e := s.execs[e].(owned := false)], inFlight := s.inFlight - {s.execs[e].command.id})
      else s
    case CancelRequested(id) => CancelToken(s, id)
  }

  function Run(w: Wiring, actions: seq<Action>): System
    decreases |actions|
  {
    if |actions| == 0 then Empty else Next(w, Run(w, actions[..|actions| - 1]), actions[|actions| - 1])
  }

  // ----- the invariant: maps and executions

  ghost predicate InFlightExact(s: System) {
    && (forall id | id in s.inFlight ::
          s.inFlight[id] < |s.execs| && s.execs[s.inFlight[id]].command.id == id && s.execs[s.inFlight[id]].owned)
    && (forall e: nat | e < |s.execs| && s.execs[e].owned ::
          s.execs[e].command.id in s.inFlight && s.inFlight[s.execs[e].command.id] == e)
    && (forall e: nat | Running(s, e) :: s.execs[e].owned)
  }

  ghost predicate TokensExact(s: System) {
    && (forall id | id in s.tokens :: At(s, s.tokens[id], AwaitingBackend) && s.execs[s.tokens[id]].command.id == id)
    && (forall e: nat | At(s, e, AwaitingBackend) ::
          s.execs[e].command.id in s.tokens && s.tokens[s.execs[e].command.id] == e)
  }

  /** The execution registered last for a robot. */
  function NewestFor(registrations: seq<Registration>, robot: RobotId): Option<nat>
    decreases |registrations|
  {
    if |registrations| == 0 then None
    else
      var last := registrations[|registrations| - 1];
      if last.robot == robot then Some(last.e) else NewestFor(registrations[..|registrations| - 1], robot)
  }

  /** The newest execution of the robot, when it is still registered. */
  ghost predicate ActiveFor(s: System, robot: RobotId) {
    var newest := NewestFor(s.registrations, robot);
    if newest.Some? && At(s, newest.value, AwaitingBackend)
    then robot in s.active && s.active[robot] == newest.value
    else robot !in s.active
  }

  ghost predicate Recorded(s: System, i: nat)
    requires i < |s.registrations|
  {
    var r := s.registrations[i];
    r.e < |s.execs| && s.execs[r.e].command.robot == r.robot && s.execs[r.e].command.Drives()
  }

  ghost predicate ActiveExact(s: System) {
    && (forall robot: RobotId :: ActiveFor(s, robot))
    && (forall i: nat | i < |s.registrations| :: Recorded(s, i))
    && (forall e: nat | At(s, e, AwaitingBackend) :: Registration(s.execs[e].command.robot, e) in s.registrations)
  }

  ghost predicate CancelledExact(s: System) {
    forall e: nat | e in s.cancelled :: e < |s.execs| && Registration(s.execs[e].command.robot, e) in s.registrations
  }

  // ----- the invariant: what each execution did

  function Walk(w: Wiring, c: Command, pc: Pc): seq<Mark> {
    match pc
    case Created => []
    case AwaitingHandler => [Entered(Executing)]
    case AwaitingPose => [Entered(InSafetyCheck)]
    case AwaitingBackend =>
      [Entered(InSafetyCheck), Decided(Allow), Entered(InPlanning), Offered(true), Entered(Executing), Dispatched(c.op)]
    case AwaitingMotionStop => [Entered(InSafetyCheck), Decided(Allow), Entered(InPlanning), MotionStopCalled]
    case AwaitingGoalCancel =>
      if w.hasMotion then
        [Entered(InSafetyCheck), Decided(Allow), Entered(InPlanning), MotionStopCalled, GoalCancelCalled]
      else [Entered(InSafetyCheck), Decided(Allow), Entered(InPlanning), GoalCancelCalled]
    case Done(_) => []
  }

  /** Which commands get to which suspension points. */
  predicate Reaches(w: Wiring, c: Command, pc: Pc) {
    match pc
    case Created => true
    case AwaitingHandler => c.isRead
    case AwaitingPose => !c.isRead
    case AwaitingBackend => c.Drives()
    case AwaitingMotionStop => !c.isRead && c.op == StopOp && w.hasMotion
    case AwaitingGoalCancel => !c.isRead && c.op == StopOp && w.hasNavigation
    case Done(_) => false
  }

  /** An execution that ended out of suspension point `from`. */
  predicate EndedFrom(w: Wiring, c: Command, from: Pc, trail: seq<Mark>, status: Option<Status>) {
    && Reaches(w, c, from)
    && match status
       case None => trail == Walk(w, c, from)
       case Some(StatusFailed) => trail == Walk(w, c, from) + [Entered(Failed)]
       case Some(StatusAwaitingApproval) => false
       case Some(StatusSucceeded) =>
         trail == Walk(w, c, from) + [Entered(Succeeded)] && from != Created && from != AwaitingPose
         && (from == AwaitingMotionStop ==> !w.hasNavigation)
  }

  predicate EndedEarly(w: Wiring, c: Command, trail: seq<Mark>, status: Option<Status>) {
    if c.isRead then status == Some(StatusFailed) && trail == [Entered(Executing), Entered(Failed)]
    else
      || (|trail| == 3 && trail[1].Decided? && trail[1].decision != Allow
          && status == Some(if trail[1].decision.Deny? then StatusFailed else StatusAwaitingApproval)
          && trail == [Entered(InSafetyCheck), trail[1],
                       Entered(if trail[1].decision.Deny? then SafetyRefused else ApprovalAwaited)])
      || (status == Some(StatusFailed) && c.op != StopOp
          && (trail == [Entered(InSafetyCheck), Decided(Allow), Entered(InPlanning), Offered(false),
                        Entered(BackendUnavailable)]
              || trail == [Entered(InSafetyCheck), Decided(Allow), Entered(InPlanning), Entered(Failed)]))
      || (status == Some(StatusSucceeded) && c.op == StopOp && !w.hasMotion && !w.hasNavigation
          && trail == [Entered(InSafetyCheck), Decided(Allow), Entered(InPlanning), Entered(Succeeded)])
  }

  predicate Ended(w: Wiring, c: Command, trail: seq<Mark>, status: Option<Status>) {
    || EndedEarly(w, c, trail, status)
    || EndedFrom(w, c, Created, trail, status) || EndedFrom(w, c, AwaitingHandler, trail, status)
    || EndedFrom(w, c, AwaitingPose, trail, status) || EndedFrom(w, c, AwaitingBackend, trail, status)
    || EndedFrom(w, c, AwaitingMotionStop, trail, status) || EndedFrom(w, c, AwaitingGoalCancel, trail, status)
  }

  predicate OnPath(w: Wiring, x: Exec) {
    if x.pc.Done? then Ended(w, x.command, x.trail, x.pc.status)
    else Reaches(w, x.command, x.pc) && x.trail == Walk(w, x.command, x.pc)
  }

  // ----- each update keeps its part

  ghost predicate Inv(w: Wiring, s: System) {
    && InFlightExact(s) && TokensExact(s) && ActiveExact(s) && CancelledExact(s)
    && (forall e: nat | e < |s.execs| :: OnPath(w, s.execs[e]))
  }

  /** `t` has the executions of `s` and perhaps more, with the same commands. */
  ghost predicate Continues(s: System, t: System) {
    |s.execs| <= |t.execs| && forall e: nat | e < |s.execs| :: t.execs[e].command == s.execs[e].command
  }

  /** The registered executions and the maps about them are untouched. */
  ghost predicate SameRegistered(s: System, t: System) {
    && t.tokens == s.tokens && t.active == s.active && t.registrations == s.registrations
    && forall e: nat :: At(t, e, AwaitingBackend) == At(s, e, AwaitingBackend)
  }

  /** The invariant says nothing of the plugin's field. */
  ghost predicate SameButGoals(s: System, t: System) {
    && |t.execs| == |s.execs| && t.inFlight == s.inFlight && t.tokens == s.tokens && t.active == s.active
    && t.cancelled == s.cancelled && t.registrations == s.registrations
    && forall e: nat | e < |s.execs| :: t.execs[e] == s.execs[e].(goal := t.execs[e].goal)
  }

  lemma GoalsDoNotMatter(w: Wiring, s: System, t: System)
    requires Inv(w, s) && SameButGoals(s, t)
    ensures Inv(w, t)
  {
    SameRegisteredKeeps(s, t);
    forall e: nat | e < |t.execs| ensures OnPath(w, t.execs[e]) { assert OnPath(w, s.execs[e]); }
  }

  lemma SameRegisteredKeeps(s: System, t: System)
    requires Continues(s, t) && SameRegistered(s, t)
    requires TokensExact(s) && ActiveExact(s)
    ensures TokensExact(t) && ActiveExact(t)
  {
    forall robot: RobotId ensures ActiveFor(t, robot) { assert ActiveFor(s, robot); }
    forall i: nat | i < |t.registrations| ensures Recorded(t, i) { assert Recorded(s, i); }
  }

  lemma SuspendKeepsInFlight(s: System, t: System, e: nat, pc: Pc, marks: seq<Mark>)
    requires Running(s, e) && InFlightExact(s)
    requires t.inFlight == s.inFlight && t.execs == Suspend(s, e, pc, marks).execs
    ensures InFlightExact(t) && Continues(s, t)
  {}

  lemma SubmitKeepsInFlight(s: System, c: Command)
    requires c.id !in s.inFlight && InFlightExact(s)
    ensures var t := s.(execs := s.execs + [Exec(c, Created, [], true, NotAccepted)],
                        inFlight := s.inFlight[c.id := |s.execs|]);
            InFlightExact(t) && Continues(s, t) && SameRegistered(s, t)
  {}

  lemma ReleaseKeepsInFlight(s: System, e: nat)
    requires e < |s.execs| && s.execs[e].pc.Done? && s.execs[e].owned && InFlightExact(s)
    ensures var t := s.(execs := s.execs[e := s.execs[e].(owned := false)],
                        inFlight := s.inFlight - {s.execs[e].command.id});
            InFlightExact(t) && Continues(s, t) && SameRegistered(s, t)
  {}

  /** Two executions that are both unreleased have different ids. */
  lemma OwnedIdsDiffer(s: System, e: nat, i: nat)
    requires InFlightExact(s) && e < |s.execs| && i < |s.execs| && s.execs[e].owned && s.execs[i].owned && i != e
    ensures s.execs[i].command.id != s.execs[e].command.id
  {}

  lemma RegisterKeepsTokens(s: System, e: nat, marks: seq<Mark>)
    requires At(s, e, AwaitingPose) && InFlightExact(s) && TokensExact(s)
    ensures TokensExact(Suspend(Register(s, e), e, AwaitingBackend, marks))
  {
    var t := Suspend(Register(s, e), e, AwaitingBackend, marks);
    forall i: nat | At(t, i, AwaitingBackend)
      ensures t.execs[i].command.id in t.tokens && t.tokens[t.execs[i].command.id] == i
    {
      if i != e { OwnedIdsDiffer(s, e, i); }
    }
  }

  lemma NewestAfter(registrations: seq<Registration>, r: Registration, robot: RobotId)
    ensures NewestFor(registrations + [r], robot)
            == if r.robot == robot then Some(r.e) else NewestFor(registrations, robot)
  {
    assert (registrations + [r])[..|registrations|] == registrations;
  }

  lemma RegisterKeepsActive(s: System, e: nat, marks: seq<Mark>)
    requires At(s, e, AwaitingPose) && s.execs[e].command.Drives() && ActiveExact(s)
    ensures ActiveExact(Suspend(Register(s, e), e, AwaitingBackend, marks))
  {
    var t := Suspend(Register(s, e), e, AwaitingBackend, marks);
    var r := Registration(s.execs[e].command.robot, e);
    assert s.registrations[..|s.registrations|] == s.registrations;
    forall robot: RobotId ensures ActiveFor(t, robot) {
      assert ActiveFor(s, robot);
      NewestAfter(s.registrations, r, robot);
      if robot != r.robot && NewestFor(s.registrations, robot).Some? {
        NewestIsRecorded(s, |s.registrations|, robot);
      }
    }
    forall i: nat | i < |t.registrations| ensures Recorded(t, i) {
      if i < |s.registrations| { assert Recorded(s, i); }
    }
  }

  lemma {:induction false} NewestIsRecorded(s: System, n: nat, robot: RobotId)
    requires n <= |s.registrations| && NewestFor(s.registrations[..n], robot).Some?
    requires forall i: nat | i < |s.registrations| :: Recorded(s, i)
    ensures NewestFor(s.registrations[..n], robot).value < |s.execs|
    ensures s.execs[NewestFor(s.registrations[..n], robot).value].command.robot == robot
  {
    if n > 0 {
      assert Recorded(s, n - 1);
      assert s.registrations[..n][..n - 1] == s.registrations[..n - 1];
      if s.registrations[n - 1].robot != robot { NewestIsRecorded(s, n - 1, robot); }
    }
  }

  lemma CleanUpKeepsTokens(s: System, e: nat, status: Option<Status>, marks: seq<Mark>)
    requires At(s, e, AwaitingBackend) && InFlightExact(s) && TokensExact(s)
    ensures TokensExact(Suspend(CleanUp(s, e), e, Done(status), marks))
  {
    var t := Suspend(CleanUp(s, e), e, Done(status), marks);
    forall i: nat | At(t, i, AwaitingBackend)
      ensures t.execs[i].command.id in t.tokens && t.tokens[t.execs[i].command.id] == i
    {
      OwnedIdsDiffer(s, e, i);
    }
  }

  lemma CleanUpKeepsActive(s: System, e: nat, status: Option<Status>, marks: seq<Mark>)
    requires At(s, e, AwaitingBackend) && ActiveExact(s)
    ensures ActiveExact(Suspend(CleanUp(s, e), e, Done(status), marks))
  {
    var t := Suspend(CleanUp(s, e), e, Done(status), marks);
    assert s.registrations[..|s.registrations|] == s.registrations;
    forall robot: RobotId ensures ActiveFor(t, robot) {
      assert ActiveFor(s, robot);
      if NewestFor(s.registrations, robot).Some? { NewestIsRecorded(s, |s.registrations|, robot); }
    }
    forall i: nat | i < |t.registrations| ensures Recorded(t, i) { assert Recorded(s, i); }
  }

  // ----- each action keeps the invariant

  lemma CancelTokenKeepsCancelled(s: System, id: CommandId)
    requires TokensExact(s) && CancelledExact(s)
    requires forall e: nat | At(s, e, AwaitingBackend) :: Registration(s.execs[e].command.robot, e) in s.registrations
    ensures CancelledExact(CancelToken(s, id))
  {
    if id in s.tokens { assert At(s, s.tokens[id], AwaitingBackend); }
  }

  lemma CancelTokenKeeps(w: Wiring, s: System, id: CommandId)
    requires Inv(w, s)
    ensures Inv(w, CancelToken(s, id))
  {
    SameRegisteredKeeps(s, CancelToken(s, id));
    CancelTokenKeepsCancelled(s, id);
  }

  /** An execution not holding a registration moves on to another suspension or to its end. */
  lemma SuspendKeeps(w: Wiring, s: System, e: nat, pc: Pc, marks: seq<Mark>)
    requires Inv(w, s) && Running(s, e) && s.execs[e].pc != AwaitingBackend && pc != AwaitingBackend
    requires OnPath(w, s.execs[e].(pc := pc, trail := s.execs[e].trail + marks))
    ensures Inv(w, Suspend(s, e, pc, marks))
  {
    var t := Suspend(s, e, pc, marks);
    SuspendKeepsInFlight(s, t, e, pc, marks);
    SameRegisteredKeeps(s, t);
  }

  lemma RegisterKeeps(w: Wiring, s: System, e: nat, marks: seq<Mark>)
    requires Inv(w, s) && At(s, e, AwaitingPose) && s.execs[e].command.Drives()
    requires OnPath(w, s.execs[e].(pc := AwaitingBackend, trail := s.execs[e].trail + marks))
    ensures Inv(w, Suspend(Register(s, e), e, AwaitingBackend, marks))
  {
    var t := Suspend(Register(s, e), e, AwaitingBackend, marks);
    SuspendKeepsInFlight(s, t, e, AwaitingBackend, marks);
    RegisterKeepsTokens(s, e, marks);
    RegisterKeepsActive(s, e, marks);
  }

  lemma CleanUpKeeps(w: Wiring, s: System, e: nat, status: Option<Status>, marks: seq<Mark>)
    requires Inv(w, s) && At(s, e, AwaitingBackend)
    requires OnPath(w, s.execs[e].(pc := Done(status), trail := s.execs[e].trail + marks))
    ensures Inv(w, Suspend(CleanUp(s, e), e, Done(status), marks))
  {
    var t := Suspend(CleanUp(s, e), e, Done(status), marks);
    SuspendKeepsInFlight(s, t, e, Done(status), marks);
    CleanUpKeepsTokens(s, e, status, marks);
    CleanUpKeepsActive(s, e, status, marks);
  }

  /** The end of a suspended execution by an answer, an exception or task cancellation. */
  lemma EndKeeps(w: Wiring, s: System, e: nat, status: Option<Status>, marks: seq<Mark>)
    requires Inv(w, s) && Running(s, e)
    requires EndedFrom(w, s.execs[e].command, s.execs[e].pc, s.execs[e].trail + marks, status)
    ensures Inv(w, Suspend(CleanUpIfRegistered(s, e), e, Done(status), marks))
  {
    assert OnPath(w, s.execs[e]);
    if s.execs[e].pc == AwaitingBackend {
      CleanUpKeeps(w, s, e, status, marks);
    } else {
      SuspendKeeps(w, s, e, Done(status), marks);
    }
  }

  lemma AfterMotionStopKeeps(w: Wiring, s: System, e: nat, before: seq<Mark>)
    requires Inv(w, s) && Running(s, e) && !s.execs[e].command.isRead && s.execs[e].command.op == StopOp
    requires if w.hasMotion then s.execs[e].pc == AwaitingMotionStop && before == []
             else s.execs[e].pc == AwaitingPose && before == [Decided(Allow), Entered(InPlanning)]
    ensures Inv(w, AfterMotionStop(w, s, e, before))
  {
    var x := s.execs[e];
    assert OnPath(w, x);
    if !w.hasNavigation {
      var all := x.trail + (before + [Entered(Succeeded)]);
      if w.hasMotion {
        assert all == Walk(w, x.command, AwaitingMotionStop) + [Entered(Succeeded)];
        assert EndedFrom(w, x.command, AwaitingMotionStop, all, Some(StatusSucceeded));
      } else {
        assert EndedEarly(w, x.command, all, Some(StatusSucceeded));
      }
      SuspendKeeps(w, s, e, Done(Some(StatusSucceeded)), before + [Entered(Succeeded)]);
    } else if s.handle.None? {
      var marks := before + [GoalCancelCalled, Entered(Succeeded)];
      assert x.trail + marks == Walk(w, x.command, AwaitingGoalCancel) + [Entered(Succeeded)];
      assert EndedFrom(w, x.command, AwaitingGoalCancel, x.trail + marks, Some(StatusSucceeded));
      SuspendKeeps(w, s, e, Done(Some(StatusSucceeded)), marks);
    } else {
      assert x.trail + (before + [GoalCancelCalled]) == Walk(w, x.command, AwaitingGoalCancel);
      SuspendKeeps(w, s, e, AwaitingGoalCancel, before + [GoalCancelCalled]);
      GoalsDoNotMatter(w, Suspend(s, e, AwaitingGoalCancel, before + [GoalCancelCalled]),
                       AfterMotionStop(w, s, e, before));
    }
  }

  lemma SignalActiveKeeps(w: Wiring, s: System, e: nat)
    requires Inv(w, s) && e < |s.execs|
    ensures Inv(w, SignalActive(s, e)) && SignalActive(s, e).execs == s.execs
  {
    var c := s.execs[e].command;
    if c.robot in s.active && s.active[c.robot] < |s.execs| {
      CancelTokenKeeps(w, s, s.execs[s.active[c.robot]].command.id);
    }
  }

  lemma DecideKeeps(w: Wiring, s: System, e: nat, decision: Decision, offered: bool)
    requires Inv(w, s) && At(s, e, AwaitingPose)
    ensures Inv(w, Decide(w, s, e, decision, offered))
  {
    var x := s.execs[e];
    assert OnPath(w, x);
    if decision != Allow {
      var marks := [Decided(decision), Entered(if decision.Deny? then SafetyRefused else ApprovalAwaited)];
      var status := Some(if decision.Deny? then StatusFailed else StatusAwaitingApproval);
      assert EndedEarly(w, x.command, x.trail + marks, status);
      SuspendKeeps(w, s, e, Done(status), marks);
    } else if x.command.op == StopOp {
      SignalActiveKeeps(w, s, e);
      var before := [Decided(Allow), Entered(InPlanning)];
      if w.hasMotion {
        assert x.trail + (before + [MotionStopCalled]) == Walk(w, x.command, AwaitingMotionStop);
        SuspendKeeps(w, SignalActive(s, e), e, AwaitingMotionStop, before + [MotionStopCalled]);
      } else {
        AfterMotionStopKeeps(w, SignalActive(s, e), e, before);
      }
    } else if !offered || x.command.op == OtherOp {
      var marks := [Decided(Allow), Entered(InPlanning), Offered(false), Entered(BackendUnavailable)];
      assert EndedEarly(w, x.command, x.trail + marks, Some(StatusFailed));
      SuspendKeeps(w, s, e, Done(Some(StatusFailed)), marks);
    } else {
      var marks := [Decided(Allow), Entered(InPlanning), Offered(true), Entered(Executing), Dispatched(x.command.op)];
      assert x.trail + marks == Walk(w, x.command, AwaitingBackend);
      RegisterKeeps(w, s, e, marks);
    }
  }

  lemma BeginKeeps(w: Wiring, s: System, e: nat, hasHandler: bool)
    requires Inv(w, s) && At(s, e, Created)
    ensures Inv(w, Next(w, s, Begin(e, hasHandler)))
  {
    var x := s.execs[e];
    assert OnPath(w, x);
    if !x.command.isRead {
      SuspendKeeps(w, s, e, AwaitingPose, [Entered(InSafetyCheck)]);
    } else if hasHandler {
      SuspendKeeps(w, s, e, AwaitingHandler, [Entered(Executing)]);
    } else {
      assert EndedEarly(w, x.command, x.trail + [Entered(Executing), Entered(Failed)], Some(StatusFailed));
      SuspendKeeps(w, s, e, Done(Some(StatusFailed)), [Entered(Executing), Entered(Failed)]);
    }
  }

  lemma AnswerKeeps(w: Wiring, s: System, e: nat, succeeded: bool)
    requires Inv(w, s) && Running(s, e)
    requires succeeded ==> s.execs[e].pc in {AwaitingHandler, AwaitingBackend, AwaitingGoalCancel}
    ensures Inv(w, Suspend(CleanUpIfRegistered(s, e), e, Done(Some(StatusOf(succeeded))),
                           [Entered(StateOf(succeeded))]))
  {
    assert OnPath(w, s.execs[e]);
    EndKeeps(w, s, e, Some(StatusOf(succeeded)), [Entered(StateOf(succeeded))]);
  }

  lemma TaskCancelledKeeps(w: Wiring, s: System, e: nat)
    requires Inv(w, s) && Running(s, e)
    ensures Inv(w, Suspend(CleanUpIfRegistered(s, e), e, Done(None), []))
  {
    assert OnPath(w, s.execs[e]);
    assert s.execs[e].trail + [] == s.execs[e].trail;
    EndKeeps(w, s, e, None, []);
  }

  /** Actions by which a running execution ends. */
  predicate IsAnswer(a: Action) {
    a.ReadHandled? || a.BackendReturned? || a.BackstopFired? || a.GoalCancelled? || a.Raised? || a.TaskCancelled?
  }

  /** The answer `ok` ends the execution `e`. */
  predicate EndsWith(s: System, a: Action, e: nat, ok: bool) {
    || (a == ReadHandled(e, ok) && At(s, e, AwaitingHandler))
    || (a == BackendReturned(e, ok) && At(s, e, AwaitingBackend) && s.execs[e].goal != Accepted)
    || (a == GoalCancelled(e) && ok && At(s, e, AwaitingGoalCancel) && e !in s.cancelQueue)
    || (a == BackstopFired(e) && !ok && At(s, e, AwaitingBackend))
    || (a == Raised(e) && !ok && Running(s, e))
  }

  lemma EndIs(w: Wiring, s: System, a: Action, e: nat, ok: bool)
    requires EndsWith(s, a, e, ok)
    ensures Next(w, s, a) == Suspend(CleanUpIfRegistered(s, e), e, Done(Some(StatusOf(ok))), [Entered(StateOf(ok))])
  {}

  lemma EndingKeeps(w: Wiring, s: System, a: Action, e: nat, ok: bool)
    requires Inv(w, s) && EndsWith(s, a, e, ok)
    ensures Inv(w, Next(w, s, a))
  {
    EndIs(w, s, a, e, ok);
    AnswerKeeps(w, s, e, ok);
  }

  /** The action is not possible in this state. */
  lemma NoEnd(w: Wiring, s: System, a: Action)
    requires IsAnswer(a) && !a.TaskCancelled? && !EndsWith(s, a, a.e, true) && !EndsWith(s, a, a.e, false)
    ensures Next(w, s, a) == s
  {}

  lemma AnswersKeep(w: Wiring, s: System, a: Action)
    requires Inv(w, s) && IsAnswer(a)
    ensures Inv(w, Next(w, s, a))
  {
    if a.TaskCancelled? {
      if Running(s, a.e) { TaskCancelledKeeps(w, s, a.e); }
    } else if EndsWith(s, a, a.e, true) {
      EndingKeeps(w, s, a, a.e, true);
    } else if EndsWith(s, a, a.e, false) {
      EndingKeeps(w, s, a, a.e, false);
    } else {
      NoEnd(w, s, a);
    }
  }

  lemma MotionStoppedKeeps(w: Wiring, s: System, e: nat)
    requires Inv(w, s) && At(s, e, AwaitingMotionStop)
    ensures Inv(w, AfterMotionStop(w, s, e, []))
  {
    assert OnPath(w, s.execs[e]);
    AfterMotionStopKeeps(w, s, e, []);
  }

  lemma SubmitKeeps(w: Wiring, s: System, c: Command)
    requires Inv(w, s) && c.id !in s.inFlight
    ensures Inv(w, Next(w, s, Submit(c)))
  {
    SubmitKeepsInFlight(s, c);
    SameRegisteredKeeps(s, Next(w, s, Submit(c)));
  }

  lemma ReleasedKeeps(w: Wiring, s: System, e: nat)
    requires Inv(w, s) && e < |s.execs| && s.execs[e].pc.Done? && s.execs[e].owned
    ensures Inv(w, Next(w, s, Released(e)))
  {
    ReleaseKeepsInFlight(s, e);
    SameRegisteredKeeps(s, Next(w, s, Released(e)));
  }

  lemma PlannerRaisedKeeps(w: Wiring, s: System, e: nat)
    requires Inv(w, s) && At(s, e, AwaitingPose) && s.execs[e].command.op != StopOp
    ensures Inv(w, Next(w, s, PlannerRaised(e)))
  {
    var x, marks := s.execs[e], [Decided(Allow), Entered(InPlanning), Entered(Failed)];
    assert OnPath(w, x);
    assert EndedEarly(w, x.command, x.trail + marks, Some(StatusFailed));
    SuspendKeeps(w, s, e, Done(Some(StatusFailed)), marks);
  }

  predicate IsGoalAction(a: Action) { a.GoalAccepted? || a.GoalDropped? || a.CancelRead? }

  lemma GoalActionsKeep(w: Wiring, s: System, a: Action)
    requires Inv(w, s) && IsGoalAction(a)
    ensures Inv(w, Next(w, s, a))
  {
    OnlyGoalsChange(w, s, a);
    GoalsDoNotMatter(w, s, Next(w, s, a));
  }

  lemma OnlyGoalsChange(w: Wiring, s: System, a: Action)
    requires IsGoalAction(a)
    ensures SameButGoals(s, Next(w, s, a))
  {}

  lemma NextKeeps(w: Wiring, s: System, a: Action)
    requires Inv(w, s)
    ensures Inv(w, Next(w, s, a))
  {
    match a {
      case Submit(c) => if c.id !in s.inFlight { SubmitKeeps(w, s, c); }
      case Begin(e, hasHandler) => if At(s, e, Created) { BeginKeeps(w, s, e, hasHandler); }
      case PoseResolved(e, decision, offered) => if At(s, e, AwaitingPose) { DecideKeeps(w, s, e, decision, offered); }
      case MotionStopped(e) => if At(s, e, AwaitingMotionStop) { MotionStoppedKeeps(w, s, e); }
      case Released(e) => if e < |s.execs| && s.execs[e].pc.Done? && s.execs[e].owned { ReleasedKeeps(w, s, e); }
      case CancelRequested(id) => CancelTokenKeeps(w, s, id);
      case PlannerRaised(e) =>
        if At(s, e, AwaitingPose) && s.execs[e].command.op != StopOp { PlannerRaisedKeeps(w, s, e); }
      case _ => if IsAnswer(a) { AnswersKeep(w, s, a); } else { GoalActionsKeep(w, s, a); }
    }
  }

  /** The invariant holds after every run. */
  lemma {:induction false} ReachableInv(w: Wiring, actions: seq<Action>)
    ensures Inv(w, Run(w, actions))
  {
    if |actions| > 0 {
      ReachableInv(w, actions[..|actions| - 1]);
      NextKeeps(w, Run(w, actions[..|actions| - 1]), actions[|actions| - 1]);
    }
  }
}
