/**
 A stop against a running move at the executor thread's queue: what the two tasks enqueue
 (cmd_vel_plugin.py:137-158, 244-252) and the thread runs (executor_thread.py:51-69). The manager's
 part, the move's loop and the bridge appear only by what they do to this queue: the stop cancels the
 move's token as it begins, a pass of the loop enqueues a control twist, or a zero before it returns, and
 the thread takes the jobs in order. `StopLayers` proves that the manager, the loop and the bridge
 together do exactly this, so that everything proved here holds of them.

 One move and one stop, among any other users of the queue; every interleaving of their code between
 two suspension points and of the executor thread.
 */
module StopSafety {
  import opened CmdVel

  /** `Other`: anything that neither creates the publisher nor publishes a twist. */
  datatype Job = CreatePublisher | Publish(twist: Twist) | Other

  /** A task's place in `_publish_twist`. `leaving`: it returns once this twist is out.
      - Ready: at the top of its loop (the stop: not yet begun)
      - Creating: awaiting the publisher it asked for, `twist` to be published with it
      - Publishing: awaiting the publish it enqueued
      - Sleeping: between two ticks
      - Finished: returned.
      - Killed: ended in the middle, by an exception or by being cancelled as a task. */
  datatype Task =
    | Ready
    | Creating(twist: Twist, leaving: bool, ticket: nat)
    | Publishing(leaving: bool, ticket: nat)
    | Sleeping
    | Finished
    | Killed

  /** `jobs` is everything ever enqueued and `ran` how many of them the executor thread has run;
      `fromMove` says of each job whether the move enqueued it. `cancelledAt` is the number of jobs at
      the moment the token was cancelled. */
  datatype System = System(
    publisher: bool, cancelled: bool, cancelledAt: nat, stop: Task, move: Task,
    jobs: seq<Job>, fromMove: seq<bool>, ran: nat)

  datatype Step =
    | MoveTick(twist: Twist, leave: bool)   // one pass of the loop: a control twist, or zero and return
    | MoveIdles                             // a pass that publishes nothing (the phase switch)
    | MoveResumes                           // what the move awaits has been answered
    | StopBegins                            // _handle_stop: cancel the token, then stop()
    | StopResumes
    | MoveDies
    | StopDies
    | OthersCall                            // another task enqueues something
    | ExecutorRuns                          // the executor thread runs the next job

  function Start(publisher: bool): System {
    System(publisher, false, 0, Ready, Ready, [], [], 0)
  }

  function Enqueue(s: System, job: Job, byMove: bool): System {
    s.(jobs := s.jobs + [job], fromMove := s.fromMove + [byMove])
  }

  /** `_publish_twist` up to its first await. */
  function BeginPublish(s: System, twist: Twist, leaving: bool, byMove: bool): (System, Task) {
    if s.publisher then (Enqueue(s, Publish(twist), byMove), Publishing(leaving, |s.jobs|))
    else (Enqueue(s, CreatePublisher, byMove), Creating(twist, leaving, |s.jobs|))
  }

  /** The rest of it, when the awaited job has been run. */
  function Resume(s: System, task: Task, byMove: bool): (System, Task) {
    match task
    case Creating(twist, leaving, ticket) =>
      if ticket < s.ran
      then (Enqueue(s.(publisher := true), Publish(twist), byMove), Publishing(leaving, |s.jobs|))
      else (s, task)
    case Publishing(leaving, ticket) =>
      if ticket < s.ran then (s, if leaving then Finished else Sleeping) else (s, task)
    case Sleeping => (s, Ready)
    case _ => (s, task)
  }

  function Next(s: System, step: Step): System {
    match step
    case MoveTick(twist, leave) =>
      if s.move != Ready then s
      else
        // the token is tested first; every exit publishes zero
        var out := s.cancelled || leave;
        var (t, task) := BeginPublish(s, if out then ZeroTwist else twist, out, true);
        t.(move := task)
    case MoveIdles => if s.move == Ready && !s.cancelled then s.(move := Sleeping) else s
    case MoveResumes =>
      var (t, task) := Resume(s, s.move, true);
      t.(move := task)
    case StopBegins =>
      if s.stop != Ready then s
      else
        var (t, task) := BeginPublish(s.(cancelled := true, cancelledAt := |s.jobs|), ZeroTwist, true, false);
        t.(stop := task)
    case StopResumes =>
      var (t, task) := Resume(s, s.stop, false);
      t.(stop := task)
    case MoveDies => if s.move == Finished then s else s.(move := Killed)
    case StopDies => if s.stop == Ready then s else s.(stop := Killed)
    case OthersCall => Enqueue(s, Other, false)
    case ExecutorRuns => if s.ran < |s.jobs| then s.(ran := s.ran + 1) else s
  }

  function Run(publisher: bool, steps: seq<Step>): System
    decreases |steps|
  {
    if |steps| == 0 then Start(publisher) else Next(Run(publisher, steps[..|steps| - 1]), steps[|steps| - 1])
  }

  // ----- what the jobs look like

  predicate IsZero(job: Job) { job.Publish? ==> job.twist == ZeroTwist }

  /** The move is still to publish `twist`, chosen before it knew of the cancellation. */
  predicate Holding(task: Task) { task.Creating? && task.twist != ZeroTwist }

  /** The number of control twists enqueued since the cancellation. */
  function DrivesSince(jobs: seq<Job>, from: nat): nat
    decreases |jobs|
  {
    if |jobs| <= from then 0
    else DrivesSince(jobs[..|jobs| - 1], from) + (if IsZero(jobs[|jobs| - 1]) then 0 else 1)
  }

  /** The twists the robot is sent when these jobs are run. */
  function Sent(jobs: seq<Job>): seq<Twist>
    decreases |jobs|
  {
    if |jobs| == 0 then []
    else
      var rest, job := Sent(jobs[..|jobs| - 1]), jobs[|jobs| - 1];
      if job.Publish? then rest + [job.twist] else rest
  }

  /** The last twist sent is zero. */
  predicate LeavesStanding(jobs: seq<Job>) {
    |Sent(jobs)| > 0 && Sent(jobs)[|Sent(jobs)| - 1] == ZeroTwist
  }

  /** The move has returned, or is only waiting for its last publish to be run. */
  predicate Departing(task: Task) { task == Finished || (task.Publishing? && task.leaving) }

  ghost predicate Inv(s: System) {
    && |s.fromMove| == |s.jobs| && s.ran <= |s.jobs|
    && (forall i: nat | i < |s.jobs| && !IsZero(s.jobs[i]) :: s.fromMove[i])
    && s.stop != Sleeping
    && (s.stop.Creating? ==> s.stop.twist == ZeroTwist)
    && (s.stop.Creating? || s.stop.Publishing? ==> s.stop.leaving)
    && (s.stop == Ready <==> !s.cancelled)
    && (s.move.Creating? && s.move.leaving ==> s.move.twist == ZeroTwist)
    && (s.move.Creating? || s.move.Publishing? ==> s.move.ticket < |s.jobs|)
    && (s.stop.Creating? || s.stop.Publishing? ==> s.stop.ticket < |s.jobs|)
    && (Departing(s.move) ==> LeavesStanding(s.jobs))
    && (s.cancelled ==> s.cancelledAt <= |s.jobs|)
    && (s.cancelled ==> DrivesSince(s.jobs, s.cancelledAt) + (if Holding(s.move) then 1 else 0) <= 1)
  }

  lemma DrivesSinceAppend(jobs: seq<Job>, job: Job, from: nat)
    requires from <= |jobs|
    ensures DrivesSince(jobs + [job], from) == DrivesSince(jobs, from) + (if IsZero(job) then 0 else 1)
  {
    assert (jobs + [job])[..|jobs|] == jobs;
  }

  lemma SentAppend(jobs: seq<Job>, job: Job)
    ensures Sent(jobs + [job]) == if job.Publish? then Sent(jobs) + [job.twist] else Sent(jobs)
    ensures job == Publish(ZeroTwist) || (IsZero(job) && LeavesStanding(jobs)) ==> LeavesStanding(jobs + [job])
  {
    assert (jobs + [job])[..|jobs|] == jobs;
  }

  lemma NoDrivesYet(jobs: seq<Job>)
    ensures DrivesSince(jobs, |jobs|) == 0
  {}

  lemma MoveTickKeeps(s: System, twist: Twist, leave: bool)
    requires Inv(s) && s.move == Ready
    ensures Inv(Next(s, MoveTick(twist, leave)))
  {
    var t := Next(s, MoveTick(twist, leave));
    var job := t.jobs[|s.jobs|];
    assert t.jobs == s.jobs + [job];
    if s.cancelled { DrivesSinceAppend(s.jobs, job, s.cancelledAt); }
    SentAppend(s.jobs, job);
  }

  lemma MoveResumesKeeps(s: System)
    requires Inv(s)
    ensures Inv(Next(s, MoveResumes))
  {
    var t := Next(s, MoveResumes);
    if s.move.Creating? && s.move.ticket < s.ran {
      var job := Publish(s.move.twist);
      assert t.jobs == s.jobs + [job];
      if s.cancelled { DrivesSinceAppend(s.jobs, job, s.cancelledAt); }
      SentAppend(s.jobs, job);
    }
  }

  lemma StopBeginsKeeps(s: System)
    requires Inv(s) && s.stop == Ready
    ensures Inv(Next(s, StopBegins))
  {
    var t := Next(s, StopBegins);
    var job := t.jobs[|s.jobs|];
    assert t.jobs == s.jobs + [job];
    NoDrivesYet(s.jobs);
    DrivesSinceAppend(s.jobs, job, |s.jobs|);
    SentAppend(s.jobs, job);
  }

  lemma StopResumesKeeps(s: System)
    requires Inv(s)
    ensures Inv(Next(s, StopResumes))
  {
    var t := Next(s, StopResumes);
    if s.stop.Creating? && s.stop.ticket < s.ran {
      var job := Publish(s.stop.twist);
      assert t.jobs == s.jobs + [job];
      DrivesSinceAppend(s.jobs, job, s.cancelledAt);
      SentAppend(s.jobs, job);
    }
  }

  lemma OthersCallKeeps(s: System)
    requires Inv(s)
    ensures Inv(Next(s, OthersCall))
  {
    if s.cancelled { DrivesSinceAppend(s.jobs, Other, s.cancelledAt); }
    SentAppend(s.jobs, Other);
  }

  lemma NextKeeps(s: System, step: Step)
    requires Inv(s)
    ensures Inv(Next(s, step))
  {
    match step {
      case MoveTick(twist, leave) => if s.move == Ready { MoveTickKeeps(s, twist, leave); }
      case MoveResumes => MoveResumesKeeps(s);
      case StopBegins => if s.stop == Ready { StopBeginsKeeps(s); }
      case StopResumes => StopResumesKeeps(s);
      case OthersCall => OthersCallKeeps(s);
      case _ =>
    }
  }

  lemma {:induction false} ReachableInv(publisher: bool, steps: seq<Step>)
    ensures Inv(Run(publisher, steps))
  {
    if |steps| > 0 {
      ReachableInv(publisher, steps[..|steps| - 1]);
      NextKeeps(Run(publisher, steps[..|steps| - 1]), steps[|steps| - 1]);
    }
  }

  // ----- the promises of a stop

  /** From the moment the stop cancels the token at most one more control twist is enqueued in the
      whole rest of the run, and only if the move was then waiting for its first publisher with that
      twist in hand. */
  lemma AtMostOneMoreTwist(publisher: bool, steps: seq<Step>)
    requires Run(publisher, steps).cancelled
    ensures var s := Run(publisher, steps); DrivesSince(s.jobs, s.cancelledAt) <= 1
  {
    ReachableInv(publisher, steps);
  }

  /** Cancelled, nothing driven since, and no twist in hand. */
  ghost predicate Quiet(s: System) {
    s.cancelled && s.cancelledAt <= |s.jobs| && DrivesSince(s.jobs, s.cancelledAt) == 0 && !Holding(s.move)
  }

  lemma QuietBegins(s: System)
    requires s.stop == Ready && !Holding(s.move)
    ensures Quiet(Next(s, StopBegins))
  {
    NoDrivesYet(s.jobs);
    DrivesSinceAppend(s.jobs, Next(s, StopBegins).jobs[|s.jobs|], |s.jobs|);
  }

  lemma QuietStays(s: System, step: Step)
    requires Inv(s) && Quiet(s)
    ensures Quiet(Next(s, step))
  {
    var t := Next(s, step);
    if |t.jobs| > |s.jobs| {
      assert t.jobs == s.jobs + [t.jobs[|s.jobs|]];
      DrivesSinceAppend(s.jobs, t.jobs[|s.jobs|], s.cancelledAt);
    }
  }

  /** The exact case: the move holds no such twist when the stop begins, and none is enqueued ever. */
  lemma {:induction false} NoneUnlessHolding(publisher: bool, before: seq<Step>, after: seq<Step>)
    requires var s := Run(publisher, before); s.stop == Ready && !Holding(s.move)
    ensures Quiet(Run(publisher, before + [StopBegins] + after))
    decreases |after|
  {
    if |after| == 0 {
      OneMore(publisher, before, StopBegins);
      QuietBegins(Run(publisher, before));
      assert before + [StopBegins] + after == before + [StopBegins];
    } else {
      var init, last := after[..|after| - 1], after[|after| - 1];
      NoneUnlessHolding(publisher, before, init);
      ReachableInv(publisher, before + [StopBegins] + init);
      QuietStays(Run(publisher, before + [StopBegins] + init), last);
      OneMore(publisher, before + [StopBegins] + init, last);
      assert before + [StopBegins] + after == before + [StopBegins] + init + [last];
    }
  }

  function ExecutorSteps(n: nat): seq<Step> {
    if n == 0 then [] else ExecutorSteps(n - 1) + [ExecutorRuns]
  }

  /** The executor thread alone: it runs further jobs and changes nothing else. */
  lemma {:induction false} ExecutorAlone(publisher: bool, before: seq<Step>, n: nat)
    requires var s := Run(publisher, before); s.ran + n <= |s.jobs|
    ensures var s := Run(publisher, before); Run(publisher, before + ExecutorSteps(n)) == s.(ran := s.ran + n)
  {
    if n == 0 {
      assert before + ExecutorSteps(n) == before;
    } else {
      ExecutorAlone(publisher, before, n - 1);
      OneMore(publisher, before + ExecutorSteps(n - 1), ExecutorRuns);
      assert before + ExecutorSteps(n) == before + ExecutorSteps(n - 1) + [ExecutorRuns];
    }
  }

  lemma OneMore(publisher: bool, steps: seq<Step>, step: Step)
    ensures Run(publisher, steps + [step]) == Next(Run(publisher, steps), step)
  {
    assert (steps + [step])[..|steps|] == steps;
  }

  lemma HeldTwistGoes(s: System)
    requires Inv(s) && s.stop == Ready && Holding(s.move)
    ensures var begun := Next(s, StopBegins);
            && begun.ran <= |begun.jobs|
            && var t := Next(begun.(ran := |begun.jobs|), MoveResumes);
               t.cancelled && DrivesSince(t.jobs, t.cancelledAt) == 1
  {
    var begun := Next(s, StopBegins);
    NoDrivesYet(s.jobs);
    DrivesSinceAppend(s.jobs, begun.jobs[|s.jobs|], |s.jobs|);
    DrivesSinceAppend(begun.jobs, Publish(s.move.twist), |s.jobs|);
  }

  /** The one twist is real: whenever the move does hold a control twist as the stop begins, the run
      can go on so that the twist is published after the cancellation. */
  lemma HeldTwistEscapes(publisher: bool, before: seq<Step>) returns (after: seq<Step>)
    requires var s := Run(publisher, before); s.stop == Ready && Holding(s.move)
    ensures var t := Run(publisher, before + [StopBegins] + after);
            t.cancelled && DrivesSince(t.jobs, t.cancelledAt) == 1
  {
    ReachableInv(publisher, before);
    HeldTwistGoes(Run(publisher, before));
    OneMore(publisher, before, StopBegins);
    var begun := Run(publisher, before + [StopBegins]);
    var runs := ExecutorSteps(|begun.jobs| - begun.ran);
    ExecutorAlone(publisher, before + [StopBegins], |begun.jobs| - begun.ran);
    OneMore(publisher, before + [StopBegins] + runs, MoveResumes);
    after := runs + [MoveResumes];
    assert before + [StopBegins] + after == before + [StopBegins] + runs + [MoveResumes];
  }

  /** Once the move has returned and the queue is empty, the last twist the robot was sent is zero,
      whether the stop has begun, has finished, or not. */
  lemma RobotIsLeftStanding(publisher: bool, steps: seq<Step>)
    requires var s := Run(publisher, steps); s.move == Finished && s.ran == |s.jobs|
    ensures var s := Run(publisher, steps); LeavesStanding(s.jobs[..s.ran])
  {
    ReachableInv(publisher, steps);
    var s := Run(publisher, steps);
    assert s.jobs[..s.ran] == s.jobs;
  }

  // ----- and it does return

  /** How many of its own steps the move still takes after the cancellation. */
  function StepsLeft(s: System): nat {
    match s.move
    case Finished => 0
    case Killed => 0
    case Publishing(leaving, _) => if leaving then 1 else 6
    case Creating(_, leaving, _) => if leaving then 2 else 7
    case Ready => 4
    case Sleeping => 5
  }

  /** What the move is waiting for has been answered (sleeping and being ready wait for nothing). */
  predicate CanGoOn(s: System) {
    match s.move
    case Finished => false
    case Killed => false
    case Publishing(_, ticket) => ticket < s.ran
    case Creating(_, _, ticket) => ticket < s.ran
    case _ => true
  }

  /** After the cancellation every step of the move brings it nearer its return, whatever it would
      have liked to publish; the other tasks' steps do not set it back; and it never waits for
      anything but the executor thread. */
  lemma CancelledMoveReturns(s: System, step: Step)
    requires Inv(s) && s.cancelled
    ensures Next(s, step).cancelled && StepsLeft(Next(s, step)) <= StepsLeft(s)
    ensures CanGoOn(s) && (if s.move == Ready then step.MoveTick? else step.MoveResumes?) ==>
            StepsLeft(Next(s, step)) < StepsLeft(s)
    ensures s.move != Finished && s.move != Killed && s.ran == |s.jobs| ==> CanGoOn(s)
  {}
}
