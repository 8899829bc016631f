/**
 The Nav2 goal protocol (src/ros_mcp/adapters/navigation/nav2_plugin.py): pre-checks, send, accept,
 poll, cancel, result, against an arbitrary server, token and clock, and among other tasks that use
 the same plugin at every await.

 `NavigateRun` says what one `navigate` does for given answers of its environment; the method
 `Navigate` is the source's, and its contract holds whatever other tasks write to the plugin's fields
 while it awaits. Its own writes to the shared handle are the protocol's GoalAccepted and GoalDropped.
 */
module Nav2 {
  import opened RealMath
  import opened Geometry
  import opened Core
  import opened GoalHandle

  datatype GoalStatus = GoalSucceeded | GoalCanceled | GoalOther

  datatype Feedback = Feedback(distanceRemaining: real, recoveries: nat)

  datatype FailReason = GoalRejected | WasCancelled | ControllerFailure | PlannerFailure

  datatype NavResult = NavResult(
    succeeded: bool, error: Option<ErrorCode>, failReason: Option<FailReason>,
    finalPose: Option<Pose>, distanceRemaining: Option<real>)

  /** What one pass of the polling loop sees: at its test, and in its body. */
  datatype Poll = Poll(done: bool, cancelled: bool, expired: bool)

  /** Everything outside: the answers of the TF tree, the action server, the token and the clock.
      `polls` may end before the loop does; `resultInTime`: the result arrives in the bounded wait after
      a cancel. A cancel request that raises is only logged by the source, so whether it does is not
      asked. */
  datatype World = World(
    frameKnown: bool, serverReady: bool, localized: bool, transformOk: bool, accepted: bool, goal: GoalId,
    polls: seq<Poll>, resultInTime: bool, status: GoalStatus, feedback: Option<Feedback>, pose: Option<Pose>)

  datatype Event =
    | ClientCreated | ServerAsked | TransformAsked | GoalSent | GoalAnswered(accepted: bool)
    | Slept | CancelAttempted(goal: GoalId) | ResultAwaited(arrived: bool) | FinalPoseAsked

  /** How the polling loop was left: why a cancel was chosen (the deadline, or the token), and whether
      the result is there. */
  datatype LoopEnd =
    | StillPolling(events: seq<Event>)
    | Leave(events: seq<Event>, expired: Option<bool>, done: bool)

  /** A whole `navigate`: what it does, its own writes to the handle, and its result; none while it is
      still polling. */
  datatype NavRun = NavRun(events: seq<Event>, writes: seq<HandleWrite>, result: Option<NavResult>)

  function After(events: seq<Event>, end: LoopEnd): LoopEnd {
    match end
    case StillPolling(more) => StillPolling(events + more)
    case Leave(more, expired, done) => Leave(events + more, expired, done)
  }

  /** The polling loop from pass `k` on. */
  function PollFrom(w: World, k: nat): LoopEnd
    requires k <= |w.polls|
    decreases |w.polls| - k
  {
    if k == |w.polls| then StillPolling([])
    else if w.polls[k].done then Leave([], None, true)
    else if w.polls[k].cancelled || w.polls[k].expired then
      Leave([CancelAttempted(w.goal), ResultAwaited(w.resultInTime)], Some(!w.polls[k].cancelled), w.resultInTime)
    else After([Slept], PollFrom(w, k + 1))
  }

  function Fail(w: World, error: ErrorCode, reason: Option<FailReason>): NavResult {
    NavResult(false, Some(error), reason, w.pose,
              if w.feedback.Some? then Some(w.feedback.value.distanceRemaining) else None)
  }

  /** What follows the loop, in the source's order. */
  function Conclude(w: World, expired: Option<bool>, done: bool): NavResult {
    if expired == Some(false) then Fail(w, Cancelled, Some(WasCancelled))
    else if expired == Some(true) then Fail(w, ActionTimeout, Some(WasCancelled))
    else if !done then Fail(w, InternalError, None)
    else match w.status
      case GoalSucceeded => NavResult(true, None, None, w.pose, Some(0.0))
      case GoalCanceled => Fail(w, Cancelled, Some(WasCancelled))
      case GoalOther =>
        Fail(w, NavigationFailed,
             Some(if w.feedback.Some? && w.feedback.value.recoveries > 0 then ControllerFailure else PlannerFailure))
  }

  function Refused(error: ErrorCode, reason: Option<FailReason>): Option<NavResult> {
    Some(NavResult(false, Some(error), reason, None, None))
  }

  function Opening(hasClient: bool): seq<Event> {
    if hasClient then [] else [ClientCreated]
  }

  /** From the acceptance on. */
  function Polled(w: World, sent: seq<Event>, end: LoopEnd): NavRun {
    match end
    case StillPolling(events) => NavRun(sent + events, [Accept(w.goal)], None)
    case Leave(events, expired, done) =>
      NavRun(sent + events + [FinalPoseAsked], [Accept(w.goal), Drop(w.goal)], Some(Conclude(w, expired, done)))
  }

  /** Up to the goal's answer: what happens, and the refusal of the first check that fails. */
  function SendRun(w: World, hasClient: bool): (seq<Event>, Option<NavResult>) {
    if !w.frameKnown then ([], Refused(InvalidFrame, None))
    else
      var asked := Opening(hasClient) + [ServerAsked];
      if !w.serverReady || !w.localized then (asked, Refused(CapabilityUnavailable, None))
      else if !w.transformOk then (asked + [TransformAsked], Refused(CapabilityUnavailable, None))
      else
        (asked + [TransformAsked] + [GoalSent] + [GoalAnswered(w.accepted)],
         if w.accepted then None else Refused(NavigationFailed, Some(GoalRejected)))
  }

  /** A whole `navigate`. */
  function NavigateRun(w: World, hasClient: bool): NavRun {
    var (sent, refusal) := SendRun(w, hasClient);
    if refusal.Some? then NavRun(sent, [], refusal) else Polled(w, sent, PollFrom(w, 0))
  }

  /** Without the writes of one goal. */
  function Others(writes: seq<HandleWrite>, me: GoalId): seq<HandleWrite> {
    if |writes| == 0 then []
    else if writes[0].goal == me then Others(writes[1..], me)
    else [writes[0]] + Others(writes[1..], me)
  }

  lemma {:induction false} OthersAreForeign(writes: seq<HandleWrite>, me: GoalId)
    ensures forall i | 0 <= i < |Others(writes, me)| :: Others(writes, me)[i].goal != me
    decreases |writes|
  {
    if |writes| > 0 { OthersAreForeign(writes[1..], me); }
  }

  class Nav2Plugin {
    /** The fields all tasks share; `writes` is the history of the handle. */
    var actionClient: Option<nat>
    var activeGoalHandle: Option<GoalId>
    var writes: seq<HandleWrite>

    ghost predicate Valid()
      reads this
    {
      activeGoalHandle == HandleAfter(writes)
    }

    /** Since then `me` has written `mine`, and others whatever they liked. */
    twostate predicate Wrote(me: GoalId, mine: seq<HandleWrite>)
      reads this
    {
      Valid() && old(writes) <= writes && OwnWrites(writes, me) == OwnWrites(old(writes), me) + mine
    }

    constructor ()
      ensures Valid() && actionClient == None && writes == []
    {
      actionClient, activeGoalHandle, writes := None, None, [];
    }

    /** Any await: other tasks run, storing and dropping goals of their own and creating clients. */
    method Await(me: GoalId)
      requires Valid()
      modifies this
      ensures Wrote(me, []) && (old(actionClient).Some? ==> actionClient.Some?)
    {
      var others: seq<HandleWrite> := *;
      var foreign := Others(others, me);
      OthersAreForeign(others, me);
      ForeignWrites(writes, foreign, me);
      writes := writes + foreign;
      activeGoalHandle := HandleAfter(writes);
      var client: nat := *;
      var created: bool := *;
      if created { actionClient := Some(client); }
    }

    /** `_ensure_action_client`: the test and the store are an await apart, so two tasks that overlap here
        each create a client. */
    method EnsureActionClient(me: GoalId) returns (events: seq<Event>)
      requires Valid()
      modifies this
      ensures Wrote(me, []) && actionClient.Some? && events == Opening(old(actionClient).Some?)
    {
      events := [];
      if actionClient.None? {
        events := events + [ClientCreated];
        Await(me);
        var client: nat := *;
        actionClient := Some(client);
      }
    }

    method Store(x: HandleWrite)
      requires Valid()
      modifies this`activeGoalHandle, this`writes
      ensures Valid() && writes == old(writes) + [x]
    {
      writes := writes + [x];
      activeGoalHandle := if x.Accept? then Some(x.goal) else None;
    }

    /** From the acceptance to the end of the loop: store the handle, poll until the result or a reason to
        cancel; the cancel, the bounded wait and the `break` are inside the loop. Left for no reason,
        the loop has the result. `left` is false when `w.polls` ends first. */
    method PollLoop(w: World) returns (events: seq<Event>, left: bool, expired: Option<bool>, done: bool)
      requires Valid()
      modifies this
      ensures PollFrom(w, 0) == if left then Leave(events, expired, done) else StillPolling(events)
      ensures left && expired == None ==> done
      ensures Wrote(w.goal, [Accept(w.goal)])
    {
      OwnWritesAppend(writes, Accept(w.goal), w.goal);
      Store(Accept(w.goal));
      events, expired, done := [], None, false;   // expired: the outcome "cancelled" (false) or "timeout" (true)
      var i := 0;
      while i < |w.polls| && !w.polls[i].done
        invariant i <= |w.polls| && expired == None && Wrote(w.goal, [Accept(w.goal)])
        invariant CancelAttempted(w.goal) !in events
        invariant After(events, PollFrom(w, i)) == PollFrom(w, 0)
      {
        if w.polls[i].cancelled {
          expired := Some(false);
        } else if w.polls[i].expired {
          expired := Some(true);
        }
        if expired.Some? {
          events := events + [CancelAttempted(w.goal)];
          Await(w.goal);
          events := events + [ResultAwaited(w.resultInTime)];
          Await(w.goal);
          done := w.resultInTime;
          break;
        }
        AfterAfter(events, [Slept], PollFrom(w, i + 1));
        events := events + [Slept];
        Await(w.goal);
        i := i + 1;
      }
      left := i < |w.polls|;
      if left && expired == None {
        done := w.polls[i].done;
      }
    }

    /** From the end of the loop: clear the handle, ask for the final pose, conclude. */
    method Finish(w: World, expired: Option<bool>, done: bool) returns (result: NavResult)
      requires Valid()
      modifies this
      ensures result == Conclude(w, expired, done) && Wrote(w.goal, [Drop(w.goal)])
    {
      OwnWritesAppend(writes, Drop(w.goal), w.goal);
      Store(Drop(w.goal));
      Await(w.goal);
      if expired == Some(false) {
        return Fail(w, Cancelled, Some(WasCancelled));
      }
      if expired == Some(true) {
        return Fail(w, ActionTimeout, Some(WasCancelled));
      }
      if !done {
        return Fail(w, InternalError, None);
      }
      if w.status == GoalSucceeded {
        return NavResult(true, None, None, w.pose, Some(0.0));
      }
      if w.status == GoalCanceled {
        return Fail(w, Cancelled, Some(WasCancelled));
      }
      var recovered := w.feedback.Some? && w.feedback.value.recoveries > 0;
      return Fail(w, NavigationFailed, Some(if recovered then ControllerFailure else PlannerFailure));
    }

    /** From the acceptance on. */
    method PollToEnd(w: World, sent: seq<Event>) returns (events: seq<Event>, result: Option<NavResult>)
      requires Valid()
      modifies this
      ensures var run := Polled(w, sent, PollFrom(w, 0));
              events == run.events && result == run.result && Wrote(w.goal, run.writes)
    {
      var left, expired, done;
      events, left, expired, done := PollLoop(w);
      events := sent + events;
      if !left {
        return events, None;
      }
      var final := Finish(w, expired, done);
      assert [Accept(w.goal)] + [Drop(w.goal)] == [Accept(w.goal), Drop(w.goal)];
      return events + [FinalPoseAsked], Some(final);
    }

    /** The pre-checks and the goal's answer, with the refusal if one says no. */
    method Send(w: World) returns (events: seq<Event>, refusal: Option<NavResult>)
      requires Valid()
      modifies this
      ensures (events, refusal) == SendRun(w, old(actionClient).Some?) && Wrote(w.goal, [])
    {
      events := [];
      if !w.frameKnown {
        return events, Refused(InvalidFrame, None);
      }
      events := EnsureActionClient(w.goal);
      events := events + [ServerAsked];
      Await(w.goal);
      if !w.serverReady {
        return events, Refused(CapabilityUnavailable, None);
      }
      if !w.localized {
        return events, Refused(CapabilityUnavailable, None);
      }
      events := events + [TransformAsked];
      Await(w.goal);
      if !w.transformOk {
        return events, Refused(CapabilityUnavailable, None);
      }
      events := events + [GoalSent];
      Await(w.goal);
      events := events + [GoalAnswered(w.accepted)];
      if !w.accepted {
        return events, Refused(NavigationFailed, Some(GoalRejected));
      }
      refusal := None;
    }

    /** `navigate`. */
    method Navigate(w: World) returns (events: seq<Event>, result: Option<NavResult>)
      requires Valid()
      modifies this
      ensures var run := NavigateRun(w, old(actionClient).Some?);
              events == run.events && result == run.result && Wrote(w.goal, run.writes)
    {
      events, result := Send(w);
      if result == None {
        events, result := PollToEnd(w, events);
      }
    }

    /** `cancel_all` with its callable: tested now, read when the executor thread gets to it. The goal
        cancelled is that of the last write before the reading. */
    method CancelAll(me: GoalId) returns (enqueued: bool, cancelled: Option<GoalId>)
      requires Valid()
      modifies this
      ensures Wrote(me, []) && enqueued == old(activeGoalHandle).Some?
      ensures cancelled == (if enqueued then HandleAfter(writes) else None)
    {
      if activeGoalHandle.None? {
        return false, None;
      }
      Await(me);
      return true, activeGoalHandle;
    }
  }

  lemma AfterAfter(a: seq<Event>, b: seq<Event>, end: LoopEnd)
    ensures After(a, After(b, end)) == After(a + b, end)
  {
    assert a + (b + end.events) == (a + b) + end.events;
  }

  // ----- the protocol's promises

  /** How often an event occurs. */
  function Count(events: seq<Event>, e: Event): nat
    decreases |events|
  {
    if |events| == 0 then 0 else Count(events[..|events| - 1], e) + (if events[|events| - 1] == e then 1 else 0)
  }

  lemma CountConcat(a: seq<Event>, b: seq<Event>, e: Event)
    ensures Count(a + b, e) == Count(a, e) + Count(b, e)
    decreases |b|
  {
    if |b| == 0 {
      assert a + b == a;
    } else {
      assert (a + b)[..|a + b| - 1] == a + b[..|b| - 1];
      CountConcat(a, b[..|b| - 1], e);
    }
  }

  lemma Absent(events: seq<Event>, e: Event)
    requires e !in events
    ensures Count(events, e) == 0
    decreases |events|
  {
    if |events| > 0 { Absent(events[..|events| - 1], e); }
  }

  predicate Ready(w: World) { w.frameKnown && w.serverReady && w.localized && w.transformOk }

  /** Pass `k` is the first in which the loop stops. */
  ghost predicate StopsAt(polls: seq<Poll>, k: nat) {
    && k < |polls| && (polls[k].done || polls[k].cancelled || polls[k].expired)
    && forall j: nat | j < k :: !polls[j].done && !polls[j].cancelled && !polls[j].expired
  }

  /** What the loop reports of the pass it stops in. */
  predicate EndsAs(end: LoopEnd, poll: Poll) {
    && end.Leave?
    && (end.expired == if poll.done then None else Some(!poll.cancelled))
    && (end.expired == None ==> end.done)
  }

  /** The loop without recursion: it still polls when no pass stops it, and otherwise the first pass that
      sees the result, a cancellation or the deadline decides, in this order of precedence; it cancels
      the goal once exactly when that pass does not see the result; and when it leaves for no reason
      the result is there. */
  lemma {:induction false} PollIsFirst(w: World, from: nat)
    requires from <= |w.polls|
    requires forall j: nat | j < from :: !w.polls[j].done && !w.polls[j].cancelled && !w.polls[j].expired
    ensures PollFrom(w, from).StillPolling? <==> forall k: nat :: !StopsAt(w.polls, k)
    ensures forall k: nat | StopsAt(w.polls, k) :: EndsAs(PollFrom(w, from), w.polls[k])
    ensures Count(PollFrom(w, from).events, CancelAttempted(w.goal))
            == if PollFrom(w, from).Leave? && PollFrom(w, from).expired.Some? then 1 else 0
    decreases |w.polls| - from
  {
    if from == |w.polls| {
    } else if w.polls[from].done || w.polls[from].cancelled || w.polls[from].expired {
      assert StopsAt(w.polls, from);
      assert forall k: nat :: StopsAt(w.polls, k) ==> k == from;
      var tail := [CancelAttempted(w.goal), ResultAwaited(w.resultInTime)];
      assert tail[..1] == [CancelAttempted(w.goal)] && [CancelAttempted(w.goal)][..0] == [];
    } else {
      PollIsFirst(w, from + 1);
      CountConcat([Slept], PollFrom(w, from + 1).events, CancelAttempted(w.goal));
      Absent([Slept], CancelAttempted(w.goal));
    }
  }

  /** A goal is sent exactly when every pre-check passed; a refusal names the check that failed and
      touches neither the server's goals nor the handle. */
  lemma NoGoalUnlessReady(w: World, hasClient: bool)
    ensures var run := NavigateRun(w, hasClient);
            && (GoalSent in run.events <==> Ready(w))
            && (run.writes == WritesOf(w.goal, NotAccepted) <==> !Ready(w) || !w.accepted)
            && (!Ready(w) ==>
                  && run.result.Some? && CancelAttempted(w.goal) !in run.events
                  && run.result.value.error == Some(if w.frameKnown then CapabilityUnavailable else InvalidFrame))
  {
    var run := NavigateRun(w, hasClient);
    if Ready(w) {
      assert run.events[|Opening(hasClient)| + 2] == GoalSent;
    }
  }

  function CountCancels(w: World, hasClient: bool): nat {
    Count(NavigateRun(w, hasClient).events, CancelAttempted(w.goal))
  }

  lemma {:induction false} CancelsAre(w: World, hasClient: bool)
    requires Ready(w) && w.accepted
    ensures CountCancels(w, hasClient) == Count(PollFrom(w, 0).events, CancelAttempted(w.goal))
  {
    var cancel, end := CancelAttempted(w.goal), PollFrom(w, 0);
    var sent := SendRun(w, hasClient).0;
    CountConcat(sent, end.events, cancel);
    Absent(sent, cancel);
    CountConcat(sent + end.events, [FinalPoseAsked], cancel);
    Absent([FinalPoseAsked], cancel);
  }

  /** No goal is orphaned: once accepted, a `navigate` that returns either saw Nav2's result first and sent
      no cancel, or attempted to cancel this goal exactly once; it stored the goal and then dropped the
      handle. One that has not returned has met no reason to, holds the goal stored, and sent no cancel. */
  lemma {:induction false} NoOrphanGoal(w: World, hasClient: bool)
    requires Ready(w) && w.accepted
    ensures var run := NavigateRun(w, hasClient);
            && (run.result.Some? <==> exists k: nat :: StopsAt(w.polls, k))
            && (run.result.None? ==> CountCancels(w, hasClient) == 0 && run.writes == WritesOf(w.goal, Accepted))
            && (forall k: nat | StopsAt(w.polls, k) ::
                  && CountCancels(w, hasClient) == (if w.polls[k].done then 0 else 1)
                  && run.writes == WritesOf(w.goal, Dropped))
  {
    CancelsAre(w, hasClient);
    PollIsFirst(w, 0);
  }

  /** Success is reported exactly when an accepted goal's result was seen before any cancellation or
      deadline and its status is SUCCEEDED. */
  lemma {:induction false} SuccessExactly(w: World, hasClient: bool)
    ensures var run := NavigateRun(w, hasClient);
            run.result.Some? && run.result.value.succeeded <==>
            && Ready(w) && w.accepted && w.status == GoalSucceeded
            && exists k: nat :: StopsAt(w.polls, k) && w.polls[k].done
  {
    PollIsFirst(w, 0);
  }

  /** Every result is honest about its cause, and the "never completed" branch (INTERNAL_ERROR) is never
      taken. */
  lemma {:induction false} FailuresAreHonest(w: World, hasClient: bool)
    requires NavigateRun(w, hasClient).result.Some?
    ensures var r := NavigateRun(w, hasClient).result.value;
            && r.error != Some(InternalError) && (r.succeeded <==> r.error == None)
            && (r.failReason == Some(GoalRejected) <==> Ready(w) && !w.accepted)
            && (r.error == Some(ActionTimeout) <==>
                  && Ready(w) && w.accepted
                  && exists k: nat :: StopsAt(w.polls, k) && !w.polls[k].done && !w.polls[k].cancelled)
            && (r.failReason == Some(ControllerFailure) ==> w.feedback.Some? && w.feedback.value.recoveries > 0)
            && (r.failReason == Some(PlannerFailure) ==> !(w.feedback.Some? && w.feedback.value.recoveries > 0))
            && (r.error == Some(Cancelled) || r.error == Some(ActionTimeout) <==> r.failReason == Some(WasCancelled))
  {
    PollIsFirst(w, 0);
  }

  /** What an accepted goal comes to, `poll` being the first pass that stops the loop: each answer exactly when
      its cause is there, with its reason, the pose asked for at the end and the distance left. */
  ghost predicate AnswersPass(w: World, poll: Poll, r: NavResult) {
    && (r.succeeded <==> poll.done && w.status == GoalSucceeded)
    && (r.error == None <==> poll.done && w.status == GoalSucceeded)
    && (r.error == Some(Cancelled) <==> if poll.done then w.status == GoalCanceled else poll.cancelled)
    && (r.error == Some(ActionTimeout) <==> !poll.done && !poll.cancelled)
    && (r.error == Some(NavigationFailed) <==> poll.done && w.status == GoalOther)
    && (r.failReason == None <==> poll.done && w.status == GoalSucceeded)
    && (r.failReason == Some(WasCancelled) <==> !poll.done || w.status == GoalCanceled)
    && (r.failReason == Some(ControllerFailure) <==>
          poll.done && w.status == GoalOther && w.feedback.Some? && w.feedback.value.recoveries > 0)
    && (r.failReason == Some(PlannerFailure) <==>
          poll.done && w.status == GoalOther && (w.feedback.None? || w.feedback.value.recoveries == 0))
    && r.finalPose == w.pose
    && (poll.done && w.status == GoalSucceeded ==> r.distanceRemaining == Some(0.0))
    && (!(poll.done && w.status == GoalSucceeded) ==>
          && (w.feedback.None? ==> r.distanceRemaining == None)
          && (w.feedback.Some? ==> r.distanceRemaining == Some(w.feedback.value.distanceRemaining)))
  }

  lemma {:induction false} AnswersExactly(w: World, hasClient: bool, k: nat)
    requires Ready(w) && w.accepted && StopsAt(w.polls, k)
    ensures NavigateRun(w, hasClient).result.Some?
    ensures AnswersPass(w, w.polls[k], NavigateRun(w, hasClient).result.value)
  {
    PollIsFirst(w, 0);
  }

  /** A navigation that comes to no accepted goal says which check, in the order they are made, or the server
      refused it, and reports neither pose nor distance. */
  lemma RefusalsExactly(w: World, hasClient: bool)
    requires !Ready(w) || !w.accepted
    ensures NavigateRun(w, hasClient).result.Some?
    ensures var r := NavigateRun(w, hasClient).result.value;
            && !r.succeeded && r.finalPose == None && r.distanceRemaining == None
            && (r.error == Some(InvalidFrame) <==> !w.frameKnown)
            && (r.error == Some(CapabilityUnavailable) <==>
                  w.frameKnown && (!w.serverReady || !w.localized || !w.transformOk))
            && (r.error == Some(NavigationFailed) <==> Ready(w))
            && (r.failReason == Some(GoalRejected) <==> Ready(w)) && (r.failReason == None <==> !Ready(w))
    ensures NavigateRun(w, hasClient).events
            == if !w.frameKnown then []
               else
                 (if hasClient then [] else [ClientCreated])
                 + if !w.serverReady || !w.localized then [ServerAsked]
                   else if !w.transformOk then [ServerAsked, TransformAsked]
                   else [ServerAsked, TransformAsked, GoalSent, GoalAnswered(false)]
  {}

  function Sleeps(n: nat): seq<Event> { if n == 0 then [] else [Slept] + Sleeps(n - 1) }

  lemma {:induction false} LoopDoes(w: World, from: nat, k: nat)
    requires from <= k && StopsAt(w.polls, k)
    ensures PollFrom(w, from).events
            == Sleeps(k - from)
               + (if w.polls[k].done then [] else [CancelAttempted(w.goal), ResultAwaited(w.resultInTime)])
    decreases k - from
  {
    if from < k { LoopDoes(w, from + 1, k); }
  }

  lemma Regroup(a: seq<Event>, b: seq<Event>, c: seq<Event>)
    ensures a + (b + c) == a + b + c
  {}

  lemma SentIs(w: World, hasClient: bool)
    requires Ready(w) && w.accepted
    ensures SendRun(w, hasClient).0
            == (if hasClient then [] else [ClientCreated]) + [ServerAsked, TransformAsked, GoalSent, GoalAnswered(true)]
    ensures NavigateRun(w, hasClient) == Polled(w, SendRun(w, hasClient).0, PollFrom(w, 0))
  {}

  /** Everything a `navigate` does, in order: the checks, the goal, a sleep for every pass before the one that
      stops the loop, the cancel and the bounded wait for the result when that pass does not see it, and
      the final pose. */
  lemma {:induction false} DoesExactly(w: World, hasClient: bool, k: nat)
    requires Ready(w) && w.accepted && StopsAt(w.polls, k)
    ensures NavigateRun(w, hasClient).events
            == (if hasClient then [] else [ClientCreated])
               + [ServerAsked, TransformAsked, GoalSent, GoalAnswered(true)] + Sleeps(k)
               + (if w.polls[k].done then [] else [CancelAttempted(w.goal), ResultAwaited(w.resultInTime)])
               + [FinalPoseAsked]
  {
    SentIs(w, hasClient);
    PollIsFirst(w, 0);
    LoopDoes(w, 0, k);
    Regroup(SendRun(w, hasClient).0, Sleeps(k),
            if w.polls[k].done then [] else [CancelAttempted(w.goal), ResultAwaited(w.resultInTime)]);
  }
}
