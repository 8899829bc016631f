/**
 The execution manager with its real gate and planner: where `ExecutionProtocol` takes the decision and the
 offer of an execution as given, here they are `SafetyPolicy.Check` and
 `CapabilityRegistry.SelectBackend`, asked in the stretch in which the source asks them
 (src/ros_mcp/execution/manager.py:146-185), over one rate-limit table for all executions.
 */
module GatedExecution {
  import opened RealMath
  import opened Geometry
  import opened Core
  import opened RateLimit
  import opened GoalHandle
  import opened SafetyPolicy
  import opened ExecutionProtocol
  import E = ExecutionSafety
  import opened Capabilities
  import C = CapabilityRegistry

  /** What gate and planner are shown for one execution: the configuration and registry of that moment
      included. */
  datatype Ask = Ask(
    safety: SafetyConfig, call: Call, request: Request, pose: Option<Pose>, entries: seq<Entry>)

  /** A question and the rate-limit table it was asked over. */
  datatype Asked = Asked(e: nat, ask: Ask, table: map<Session, seq<real>>)

  datatype Gated = Gated(manager: System, table: map<Session, seq<real>>, asked: seq<Asked>)

  datatype Step =
    | Decides(e: nat, ask: Ask, raises: bool)   // `raises`: select_backend raises
    | Acts(action: Action)                      // any other action of the manager

  predicate Fits(op: Operation, request: Request) {
    match op
    case MoveOp => request.MoveRequest?
    case NavigateOp => request.NavigateRequest?
    case StopOp => request == StopRequest
    case OtherOp => request == OtherRequest
  }

  function Answer(m: Math, asked: Asked): Decision {
    Check(m, asked.ask.safety, asked.table, asked.ask.call, asked.ask.request, asked.ask.pose).0
  }

  function Offers(w: Wiring, op: Operation, ask: Ask): bool { C.SelectBackend(w, op, ask.entries).Some? }

  /** The manager's action when gate and planner have answered. */
  function Resolution(w: Wiring, m: Math, op: Operation, asked: Asked, raises: bool): Action {
    if Answer(m, asked) == Allow && raises && op != StopOp then PlannerRaised(asked.e)
    else PoseResolved(asked.e, Answer(m, asked), Offers(w, op, asked.ask))
  }

  function After(w: Wiring, m: Math, g: Gated, step: Step): Gated {
    match step
    case Decides(e, ask, raises) =>
      if !At(g.manager, e, AwaitingPose) || !Fits(g.manager.execs[e].command.op, ask.request) then g
      else
        var asked := Asked(e, ask, g.table);
        Gated(Next(w, g.manager, Resolution(w, m, g.manager.execs[e].command.op, asked, raises)),
              Check(m, ask.safety, g.table, ask.call, ask.request, ask.pose).1, g.asked + [asked])
    case Acts(a) =>
      if a.PoseResolved? || a.PlannerRaised? then g else g.(manager := Next(w, g.manager, a))
  }

  function Run(w: Wiring, m: Math, steps: seq<Step>): Gated
    decreases |steps|
  {
    if |steps| == 0 then Gated(Empty, map[], [])
    else After(w, m, Run(w, m, steps[..|steps| - 1]), steps[|steps| - 1])
  }

  // ----- every decision in a trail was given by the gate

  predicate IsVerdict(mark: Mark) { mark.Decided? || mark.Offered? || mark.Dispatched? }

  /** `asked` is the question this execution was let through or refused by. */
  ghost predicate Explains(w: Wiring, m: Math, asked: Asked, e: nat, x: Exec) {
    && asked.e == e && Fits(x.command.op, asked.ask.request)
    && (forall i: nat | i < |x.trail| && x.trail[i].Decided? :: x.trail[i].decision == Answer(m, asked))
    && (forall i: nat | i < |x.trail| && x.trail[i] == Offered(true) :: Offers(w, x.command.op, asked.ask))
  }

  ghost predicate Explained(w: Wiring, m: Math, g: Gated, e: nat, x: Exec) {
    if exists i: nat :: i < |x.trail| && IsVerdict(x.trail[i])
    then exists k: nat :: k < |g.asked| && Explains(w, m, g.asked[k], e, x)
    else true
  }

  ghost predicate GateInv(w: Wiring, m: Math, g: Gated) {
    && Inv(w, g.manager)
    && forall e: nat | e < |g.manager.execs| :: Explained(w, m, g, e, g.manager.execs[e])
  }

  /** `y` has the trail of `x` and perhaps more, no verdict among it. */
  ghost predicate NoNewVerdict(x: Exec, y: Exec) {
    && y.command == x.command && x.trail <= y.trail
    && forall i: nat | |x.trail| <= i < |y.trail| :: !IsVerdict(y.trail[i])
  }

  ghost predicate NoVerdicts(s: System, t: System) {
    && |s.execs| <= |t.execs|
    && (forall e: nat | e < |s.execs| :: NoNewVerdict(s.execs[e], t.execs[e]))
    && (forall e: nat | |s.execs| <= e < |t.execs| :: t.execs[e].trail == [])
  }

  lemma SuspendGivesNoVerdict(s: System, u: System, e: nat, pc: Pc, marks: seq<Mark>)
    requires e < |s.execs| && u.execs == s.execs && forall i: nat | i < |marks| :: !IsVerdict(marks[i])
    ensures NoVerdicts(s, Suspend(u, e, pc, marks))
  {}

  lemma AnswersGiveNoVerdict(w: Wiring, s: System, a: Action)
    requires IsAnswer(a)
    ensures NoVerdicts(s, Next(w, s, a))
  {
    match a {
      case ReadHandled(e, ok) =>
        if At(s, e, AwaitingHandler) {
          SuspendGivesNoVerdict(s, s, e, Done(Some(StatusOf(ok))), [Entered(StateOf(ok))]);
        }
      case BackendReturned(e, ok) =>
        if At(s, e, AwaitingBackend) && s.execs[e].goal != Accepted {
          SuspendGivesNoVerdict(s, CleanUp(s, e), e, Done(Some(StatusOf(ok))), [Entered(StateOf(ok))]);
        }
      case GoalCancelled(e) =>
        if At(s, e, AwaitingGoalCancel) && e !in s.cancelQueue {
          SuspendGivesNoVerdict(s, s, e, Done(Some(StatusSucceeded)), [Entered(Succeeded)]);
        }
      case _ => BreaksGiveNoVerdict(w, s, a);
    }
  }

  lemma BreaksGiveNoVerdict(w: Wiring, s: System, a: Action)
    requires a.BackstopFired? || a.Raised? || a.TaskCancelled?
    ensures NoVerdicts(s, Next(w, s, a))
  {
    match a {
      case BackstopFired(e) =>
        if At(s, e, AwaitingBackend) {
          SuspendGivesNoVerdict(s, CleanUp(s, e), e, Done(Some(StatusFailed)), [Entered(Failed)]);
        }
      case Raised(e) =>
        if Running(s, e) {
          SuspendGivesNoVerdict(s, CleanUpIfRegistered(s, e), e, Done(Some(StatusFailed)), [Entered(Failed)]);
        }
      case TaskCancelled(e) =>
        if Running(s, e) { SuspendGivesNoVerdict(s, CleanUpIfRegistered(s, e), e, Done(None), []); }
    }
  }

  lemma MotionStoppedGivesNoVerdict(w: Wiring, s: System, e: nat)
    requires At(s, e, AwaitingMotionStop)
    ensures NoVerdicts(s, AfterMotionStop(w, s, e, []))
  {
    if !w.hasNavigation {
      SuspendGivesNoVerdict(s, s, e, Done(Some(StatusSucceeded)), [] + [Entered(Succeeded)]);
    } else if s.handle.None? {
      SuspendGivesNoVerdict(s, s, e, Done(Some(StatusSucceeded)), [] + [GoalCancelCalled, Entered(Succeeded)]);
    } else {
      SuspendGivesNoVerdict(s, s.(cancelQueue := s.cancelQueue + [e]), e, AwaitingGoalCancel, [] + [GoalCancelCalled]);
    }
  }

  lemma BeginGivesNoVerdict(w: Wiring, s: System, e: nat, hasHandler: bool)
    requires At(s, e, Created)
    ensures NoVerdicts(s, Next(w, s, Begin(e, hasHandler)))
  {
    if !s.execs[e].command.isRead {
      SuspendGivesNoVerdict(s, s, e, AwaitingPose, [Entered(InSafetyCheck)]);
    } else if hasHandler {
      SuspendGivesNoVerdict(s, s, e, AwaitingHandler, [Entered(Executing)]);
    } else {
      SuspendGivesNoVerdict(s, s, e, Done(Some(StatusFailed)), [Entered(Executing), Entered(Failed)]);
    }
  }

  lemma TrailsStay(w: Wiring, s: System, a: Action)
    requires !IsAnswer(a) && !a.PoseResolved? && !a.PlannerRaised? && !a.MotionStopped? && !a.Begin?
    ensures NoVerdicts(s, Next(w, s, a))
  {}

  lemma OthersGiveNoVerdict(w: Wiring, s: System, a: Action)
    requires !a.PoseResolved? && !a.PlannerRaised?
    ensures NoVerdicts(s, Next(w, s, a))
  {
    match a {
      case MotionStopped(e) => if At(s, e, AwaitingMotionStop) { MotionStoppedGivesNoVerdict(w, s, e); }
      case Begin(e, hasHandler) => if At(s, e, Created) { BeginGivesNoVerdict(w, s, e, hasHandler); }
      case _ => if IsAnswer(a) { AnswersGiveNoVerdict(w, s, a); } else { TrailsStay(w, s, a); }
    }
  }

  lemma StillExplained(w: Wiring, m: Math, g: Gated, h: Gated, e: nat, x: Exec, y: Exec)
    requires Explained(w, m, g, e, x) && NoNewVerdict(x, y) && g.asked <= h.asked
    ensures Explained(w, m, h, e, y)
  {
    if i: nat :| i < |y.trail| && IsVerdict(y.trail[i]) {
      assert i < |x.trail| && IsVerdict(x.trail[i]);
      var k: nat :| k < |g.asked| && Explains(w, m, g.asked[k], e, x);
      assert h.asked[k] == g.asked[k];
      assert Explains(w, m, h.asked[k], e, y);
    }
  }

  lemma ActsKeeps(w: Wiring, m: Math, g: Gated, a: Action)
    requires GateInv(w, m, g) && !a.PoseResolved? && !a.PlannerRaised?
    ensures GateInv(w, m, After(w, m, g, Acts(a)))
  {
    var h := After(w, m, g, Acts(a));
    NextKeeps(w, g.manager, a);
    OthersGiveNoVerdict(w, g.manager, a);
    forall e: nat | e < |h.manager.execs| ensures Explained(w, m, h, e, h.manager.execs[e]) {
      if e < |g.manager.execs| { StillExplained(w, m, g, h, e, g.manager.execs[e], h.manager.execs[e]); }
    }
  }

  /** The execution after the pose: one execution changed, with the verdicts it was given. */
  ghost predicate Written(s: System, t: System, e: nat, decision: Decision, offered: bool)
    requires e < |s.execs|
  {
    && |t.execs| == |s.execs| && (forall f: nat | f < |s.execs| && f != e :: t.execs[f] == s.execs[f])
    && t.execs[e].command == s.execs[e].command
    && (forall i: nat | i < |t.execs[e].trail| && t.execs[e].trail[i].Decided? ::
        t.execs[e].trail[i] == Decided(decision))
    && (forall i: nat | i < |t.execs[e].trail| && t.execs[e].trail[i] == Offered(true) :: offered)
  }

  lemma SuspendWrites(s: System, u: System, e: nat, pc: Pc, marks: seq<Mark>, decision: Decision, offered: bool)
    requires At(s, e, AwaitingPose) && s.execs[e].trail == [Entered(InSafetyCheck)] && u.execs == s.execs
    requires forall i: nat | i < |marks| && marks[i].Decided? :: marks[i] == Decided(decision)
    requires forall i: nat | i < |marks| && marks[i] == Offered(true) :: offered
    ensures Written(s, Suspend(u, e, pc, marks), e, decision, offered)
  {}

  lemma StopWrites(w: Wiring, s: System, e: nat, offered: bool)
    requires At(s, e, AwaitingPose) && s.execs[e].trail == [Entered(InSafetyCheck)]
    ensures Written(s, HandleStop(w, s, e, [Decided(Allow), Entered(InPlanning)]), e, Allow, offered)
  {
    var u, before := SignalActive(s, e), [Decided(Allow), Entered(InPlanning)];
    if w.hasMotion {
      SuspendWrites(s, u, e, AwaitingMotionStop, before + [MotionStopCalled], Allow, offered);
    } else if !w.hasNavigation {
      SuspendWrites(s, u, e, Done(Some(StatusSucceeded)), before + [Entered(Succeeded)], Allow, offered);
    } else if u.handle.None? {
      SuspendWrites(s, u, e, Done(Some(StatusSucceeded)), before + [GoalCancelCalled, Entered(Succeeded)], Allow,
                    offered);
    } else {
      SuspendWrites(s, u.(cancelQueue := u.cancelQueue + [e]), e, AwaitingGoalCancel, before + [GoalCancelCalled],
                    Allow, offered);
    }
  }

  lemma DecisionIsWritten(w: Wiring, s: System, e: nat, decision: Decision, offered: bool)
    requires At(s, e, AwaitingPose) && s.execs[e].trail == [Entered(InSafetyCheck)]
    ensures Written(s, ExecutionProtocol.Decide(w, s, e, decision, offered), e, decision, offered)
  {
    var op := s.execs[e].command.op;
    if decision != Allow {
      var pc := Done(Some(if decision.Deny? then StatusFailed else StatusAwaitingApproval));
      var state := Entered(if decision.Deny? then SafetyRefused else ApprovalAwaited);
      SuspendWrites(s, s, e, pc, [Decided(decision), state], decision, offered);
    } else if op == StopOp {
      StopWrites(w, s, e, offered);
    } else if !offered || op == OtherOp {
      var marks := [Decided(Allow), Entered(InPlanning), Offered(false), Entered(BackendUnavailable)];
      SuspendWrites(s, s, e, Done(Some(StatusFailed)), marks, Allow, offered);
    } else {
      var marks := [Decided(Allow), Entered(InPlanning), Offered(true), Entered(Executing), Dispatched(op)];
      SuspendWrites(s, Register(s, e), e, AwaitingBackend, marks, Allow, offered);
    }
  }

  /** The stretch after the pose writes what gate and planner answered. */
  lemma ResolutionIsWritten(w: Wiring, m: Math, s: System, asked: Asked, raises: bool)
    requires Inv(w, s) && At(s, asked.e, AwaitingPose)
    ensures var op := s.execs[asked.e].command.op;
            Written(s, Next(w, s, Resolution(w, m, op, asked, raises)), asked.e, Answer(m, asked),
                    Offers(w, op, asked.ask))
  {
    var e, op := asked.e, s.execs[asked.e].command.op;
    assert OnPath(w, s.execs[e]);
    if Answer(m, asked) == Allow && raises && op != StopOp {
      var marks := [Decided(Allow), Entered(InPlanning), Entered(Failed)];
      SuspendWrites(s, s, e, Done(Some(StatusFailed)), marks, Allow, Offers(w, op, asked.ask));
    } else {
      DecisionIsWritten(w, s, e, Answer(m, asked), Offers(w, op, asked.ask));
    }
  }

  lemma DecidesKeeps(w: Wiring, m: Math, g: Gated, e: nat, ask: Ask, raises: bool)
    requires GateInv(w, m, g) && At(g.manager, e, AwaitingPose) && Fits(g.manager.execs[e].command.op, ask.request)
    ensures GateInv(w, m, After(w, m, g, Decides(e, ask, raises)))
  {
    var h := After(w, m, g, Decides(e, ask, raises));
    var asked := Asked(e, ask, g.table);
    var a := Resolution(w, m, g.manager.execs[e].command.op, asked, raises);
    NextKeeps(w, g.manager, a);
    ResolutionIsWritten(w, m, g.manager, asked, raises);
    assert h.asked[|g.asked|] == asked;
    forall f: nat | f < |h.manager.execs| ensures Explained(w, m, h, f, h.manager.execs[f]) {
      if f == e {
        assert Explains(w, m, asked, e, h.manager.execs[e]);
      } else {
        StillExplained(w, m, g, h, f, g.manager.execs[f], h.manager.execs[f]);
      }
    }
  }

  lemma {:induction false} ReachableGateInv(w: Wiring, m: Math, steps: seq<Step>)
    ensures GateInv(w, m, Run(w, m, steps))
  {
    if |steps| > 0 {
      var g, step := Run(w, m, steps[..|steps| - 1]), steps[|steps| - 1];
      ReachableGateInv(w, m, steps[..|steps| - 1]);
      match step {
        case Acts(a) => if !a.PoseResolved? && !a.PlannerRaised? { ActsKeeps(w, m, g, a); }
        case Decides(e, ask, raises) =>
          if At(g.manager, e, AwaitingPose) && Fits(g.manager.execs[e].command.op, ask.request) {
            DecidesKeeps(w, m, g, e, ask, raises);
          }
      }
    }
  }

  // ----- the promises

  /** Neither is the distance over its limit nor does the policy want a human for it. */
  predicate ShortEnough(safety: SafetyConfig, distance: real, limit: real) {
    distance <= limit && !(safety.approval == PolicyBased && distance > safety.approvalAbove)
  }

  /** No human is always wanted, no distance is too long, and as far as the pose is known the request ends
      inside an enabled fence: a translation that far away from the pose, a rotation at the pose, a
      navigation, whose pose must be known, at its goal. */
  ghost predicate Cleared(m: Math, safety: SafetyConfig, request: Request, pose: Option<Pose>) {
    var f := safety.fence;
    && safety.approval != AlwaysHuman
    && (request.MoveRequest? ==>
          var target := request.target;
          if target.direction.IsRotation() || target.distance.None? then
            f.enabled && pose.Some? ==> Inside(f, pose.value)
          else
            && ShortEnough(safety, target.distance.value, safety.limits.maxMoveDistance)
            && (f.enabled && pose.Some? ==>
                  forall x: real, y: real ::
                    IsAway(m, target.direction.along, target.distance.value, pose.value, x, y)
                    ==> Inside(f, Pose(x, y, 0.0))))
    && (request.NavigateRequest? ==>
          && pose.Some? && (f.enabled ==> Inside(f, Pose(request.goal.x, request.goal.y, 0.0)))
          && ShortEnough(safety, m.hypot(request.goal.x - pose.value.x, request.goal.y - pose.value.y),
                         safety.limits.maxNavigationDistance))
  }

  /** What the gate lets through in rate is cleared. */
  lemma AllowedIsCleared(m: Math, ask: Ask, table: map<Session, seq<real>>)
    requires Check(m, ask.safety, table, ask.call, ask.request, ask.pose).0 == Allow && ask.request != StopRequest
    ensures InRate(ask.safety, table, ask.call) && Cleared(m, ask.safety, ask.request, ask.pose)
  {
    match ask.request {
      case NavigateRequest(goal) => NavigationInNumbers(m, ask.safety, table, ask.call, goal, ask.pose);
      case OtherRequest => OtherInNumbers(m, ask.safety, table, ask.call, ask.pose);
      case MoveRequest(target) =>
        if target.direction.IsRotation() || target.distance.None? {
          RotationInNumbers(m, ask.safety, table, ask.call, target, ask.pose);
        } else {
          AllowedTranslationIsCleared(m, ask, table, target);
        }
    }
  }

  lemma AllowedTranslationIsCleared(m: Math, ask: Ask, table: map<Session, seq<real>>, target: MoveTarget)
    requires ask.request == MoveRequest(target) && target.direction.Translate? && target.distance.Some?
    requires Check(m, ask.safety, table, ask.call, ask.request, ask.pose).0 == Allow
    ensures InRate(ask.safety, table, ask.call) && Cleared(m, ask.safety, ask.request, ask.pose)
  {
    if ask.pose.None? {
      TranslationInNumbers(m, ask.safety, table, ask.call, target, ask.pose, 0.0, 0.0);
    } else {
      var (x, y) := ProjectTranslation(m, target.direction.along, target.distance.value, ask.pose.value);
      PredictionIsAway(m, target.direction.along, target.distance.value, ask.pose.value);
      TranslationInNumbers(m, ask.safety, table, ask.call, target, ask.pose, x, y);
    }
  }

  /** This question is why the execution could call a backend: the gate allowed it, for a move or a navigation
      because the session was within its rate and the request cleared; and the planner offered a backend
      for what was dispatched. */
  ghost predicate Warrants(w: Wiring, m: Math, asked: Asked, e: nat, x: Exec) {
    var ask := asked.ask;
    && asked.e == e && Fits(x.command.op, ask.request) && Answer(m, asked) == Allow
    && (ask.request != StopRequest ==>
          && InRate(ask.safety, asked.table, ask.call) && Cleared(m, ask.safety, ask.request, ask.pose))
    && (Dispatched(x.command.op) in x.trail ==> Offers(w, x.command.op, ask))
  }

  /** The Non-Bypass Rule with this gate and this planner: behind every backend call, in every run, is a
      question of the same execution that the gate allowed and the planner answered. */
  lemma {:induction false} GateIsNeverBypassed(w: Wiring, m: Math, steps: seq<Step>, e: nat, i: nat)
    requires var s := Run(w, m, steps).manager;
             e < |s.execs| && i < |s.execs[e].trail| && E.IsBackendCall(s.execs[e].trail[i])
    ensures var g := Run(w, m, steps);
            exists k: nat :: k < |g.asked| && Warrants(w, m, g.asked[k], e, g.manager.execs[e])
  {
    ReachableGateInv(w, m, steps);
    var g := Run(w, m, steps);
    var x := g.manager.execs[e];
    assert OnPath(w, x) && Explained(w, m, g, e, x);
    E.PathIsSafe(w, x);
    var j: nat :| j < i && x.trail[j] == Decided(Allow);
    assert IsVerdict(x.trail[j]);
    var k: nat :| k < |g.asked| && Explains(w, m, g.asked[k], e, x);
    GateWarrants(w, m, g.asked[k], e, x, j);
  }

  lemma GateWarrants(w: Wiring, m: Math, asked: Asked, e: nat, x: Exec, j: nat)
    requires Explains(w, m, asked, e, x) && E.NeverBypasses(x.command, x.trail)
    requires j < |x.trail| && x.trail[j] == Decided(Allow)
    ensures Warrants(w, m, asked, e, x)
  {
    if asked.ask.request != StopRequest { AllowedIsCleared(m, asked.ask, asked.table); }
    if Dispatched(x.command.op) in x.trail {
      var d: nat :| d < |x.trail| && x.trail[d] == Dispatched(x.command.op);
      assert E.Before(x.trail, Offered(true), d);
    }
  }

  /** No `robot.stop` is ever refused or sent to approval, whatever the configuration, the calls before and
      the rate. */
  lemma {:induction false} StopIsNeverRefused(w: Wiring, m: Math, steps: seq<Step>, e: nat, i: nat)
    requires var s := Run(w, m, steps).manager;
             e < |s.execs| && s.execs[e].command.op == StopOp && i < |s.execs[e].trail|
    ensures var mark := Run(w, m, steps).manager.execs[e].trail[i];
            (mark.Decided? ==> mark.decision == Allow) && mark != Entered(SafetyRefused)
            && mark != Entered(ApprovalAwaited)
  {
    ReachableGateInv(w, m, steps);
    var g := Run(w, m, steps);
    var x := g.manager.execs[e];
    assert OnPath(w, x) && Explained(w, m, g, e, x);
    if exists j: nat :: j < |x.trail| && IsVerdict(x.trail[j]) {
      var k: nat :| k < |g.asked| && Explains(w, m, g.asked[k], e, x);
      var ask := g.asked[k].ask;
      GateExactly(m, ask.safety, g.asked[k].table, ask.call, ask.request, ask.pose);
    }
    if x.trail[i] == Entered(SafetyRefused) || x.trail[i] == Entered(ApprovalAwaited) {
      RefusalsAreDecided(w, x, i);
    }
  }

  /** A state of refusal is written only after a decision that refuses. */
  lemma RefusalsAreDecided(w: Wiring, x: Exec, i: nat)
    requires OnPath(w, x) && i < |x.trail|
             && (x.trail[i] == Entered(SafetyRefused) || x.trail[i] == Entered(ApprovalAwaited))
    ensures exists j: nat :: j < |x.trail| && x.trail[j].Decided? && x.trail[j].decision != Allow
  {
    if x.pc.Done? && !EndedEarly(w, x.command, x.trail, x.pc.status) {
      var from := E.EndedSomewhere(w, x.command, x.trail, x.pc.status);
    }
  }
}
