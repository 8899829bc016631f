# Verified model of the robot command server

A Dafny 4.11 model of the safety-gated command server in `src/ros_mcp`, with proofs of what the server
keeps on every input, every run and every interleaving. `dafny verify dfyconfig.toml` checks all of it.

| layer | files |
|---|---|
| numbers, angles, poses | `RealMath`, `Geometry`, `Core` |
| the `/cmd_vel` control loop | `LaserScan`, `CmdVel` (the loop), `MotionSafety` (every sensor stream), `PhaseSwitch` (the acceleration promise), `DriveConvergence`, `TurnConvergence`, `TurnThenDrive` (closed loop with the ideal robot) |
| the safety gate | `RateLimit`, `SafetyPolicy` |
| the execution manager | `ExecutionProtocol` (its interleavings), `ExecutionSafety` (theorems), `StopReach` (whom a stop reaches), `ExecutionManager` (the class), `GatedExecution` (with the gate and the planner) |
| the two threads | `RosBridge`, `StopSafety` (a stop against a running move at the work queue), `StopLayers` (the same through manager, loop and bridge) |
| navigation | `GoalHandle` (the field all goals share), `Nav2` |
| capabilities | `Capabilities`, `CapabilityRegistry` (registry, polls, tool list, planner) |
| commands in, messages out | `SchemaCheck`, `Commands`, `NotANumber`, `Ulid`, `Codec` |

How the model is built:

- Floats are `real`. Where NaN or infinities decide a branch (scan ranges, JSON numbers, timeouts) they
  are constructors of their own. `sin`, `cos`, `hypot` and `atan2(sin, cos)` travel in a record, and a
  theorem that needs their laws asks for `Sound()`, the textbook identities.
- What the environment answers (odometry, scans, clocks, tokens, poses, the Nav2 server, the ROS graph)
  is an argument: any finite sequence of answers is allowed, so a theorem about a run holds for every
  prefix of every run.
- asyncio tasks and the executor thread are state machines. One action is the code between two real
  suspension points, actions interleave freely, and what the source changes in place is a class whose
  methods are proved to perform exactly those actions.
- Loops of the source are methods with loops, each proved equal to a specification function; the
  theorems are lemmas about that function.

Where the code and its documentation differ, or a promise holds only under a condition, the model follows the
code and proves when the promise holds:

- docs/07-motion-architecture.md:80 lists the exit order as cancellation, stale odometry or obstacle,
  timeout, target. The loop tests cancellation, timeout, stale odometry, obstacle, target.
- docs/07-motion-architecture.md:74-77 promises that a command never steps discontinuously. The phase
  switch resets the remembered angular command without publishing, so for left and right moves it can;
  `AngularPromiseExactly` gives the exact condition.
- docs/06-execution.md has MONITORING, TIMEOUT, SAFETY_STOP and CANCELLED. The manager never writes them;
  all four end as FAILED.
- `robot.stop` is described as cancelling any in-flight move or navigate command
  (src/ros_mcp/mcp/schemas.py:112-115). It cancels the token of the newest registered one and the Nav2 goal
  the plugin holds; `StopReach.StopCancelsAllExactly` says when that is all of them and `StopCanMissAMove`
  gives a run in which it is not. The goal is read when the executor thread gets to it, not when the stop
  tests it: `CancelAllReachesAllExactly` covers the writes in between, `CancelAllCanMissAGoal` is the race.
- The gate alone lets a move out of the fence when no pose was known (`FenceKeptExactly`, `FenceCanBeLeft`).
  The controller reads the same odometry (src/ros_mcp/robot_state.py:106-109) and then normally refuses;
  `UnseenStartLeavesFence` is the case in which a message arrives in between.
- A NaN `timeout_s` passes validation and the configured maximum (`TimeoutBoundedExactly`), a NaN distance
  the distance limit (`DistanceBoundedExactly`); such a move drives until it is interrupted.
- `robot.navigate` can be listed while the planner refuses it (`NavigateCanBeListedUnoffered`).

## Model

| member | source | states |
|---|---|---|
| Geometry.NormalizeAngle | src/ros_mcp/geometry.py:29-35 | both loops end, at the one value in (-pi, pi] a whole number of turns away |
| Geometry.NormalizeUnique | src/ros_mcp/geometry.py:29-35 | any value in (-pi, pi] a whole number of turns from the angle is the normalized one |
| Geometry.NormalizeIdempotent | src/ros_mcp/geometry.py:29-35 | wrapping twice is wrapping once |
| Geometry.NormalizeDifference | src/ros_mcp/geometry.py:38-40 | wrapping an operand first does not change the wrapped difference |
| Geometry.AngularDelta | src/ros_mcp/perception/detection_geometry.py:56-62 | perception's own wrap loop computes the same angular difference |
| Geometry.RotationMeaning | src/ros_mcp/adapters/motion/cmd_vel_plugin.py:215-222 | the first heading error of a rotation by t in [0, 2pi]: t up to half a turn, t - 2pi beyond; to the right mirrored, half a turn being +pi |
| Geometry.DistanceTriangle | src/ros_mcp/geometry.py:43-44 | the distance is non-negative and obeys the triangle inequality |
| Geometry.PredictionAgreesWithExecution | src/ros_mcp/geometry.py:47-69 | for all four directions the fence's predicted end is where the controller's signed drive along its chosen heading ends |
| Geometry.StraightAheadDistance | src/ros_mcp/adapters/motion/cmd_vel_plugin.py:223-235 | a signed drive along any heading covers exactly its length |
| LaserScan.AnalyzeLaserScan | src/ros_mcp/perception/laser_scan.py:43-101 | the one loop yields the fold's nearest, farthest, four sector readings and invalid count |
| LaserScan.FirstBestIsFirstBest | src/ros_mcp/perception/laser_scan.py:62-84 | a reading is the first among the best of the valid beams of its sectors, and absent only when there are none |
| LaserScan.CountsAddUp | src/ros_mcp/perception/laser_scan.py:64-73 | invalid, no-return and valid beams add up to all beams |
| LaserScan.SectorIgnoresWholeTurns | src/ros_mcp/perception/laser_scan.py:24-29 | atan2(sin, cos) is the same wrap as normalize_angle, so a sector depends on direction only |
| LaserScan.HalfTurnSwapsSectors | src/ros_mcp/perception/laser_scan.py:24-29 | the sectors are symmetric without gap or overlap: half a turn exchanges front with rear and left with right at every angle |
| LaserScan.SectorsArePlaces | src/ros_mcp/perception/laser_scan.py:15-29 | where the four sectors are: the wrapped direction in [-pi/6, pi/6) is front, [pi/6, 5pi/6) left, [-5pi/6, -pi/6) right, the rest rear |
| LaserScan.ReadingMeans | src/ros_mcp/perception/laser_scan.py:62-84 | on the raw scan: a sector's reading is the first nearest finite beam within the range limits whose direction lies in the sector, with its unwrapped angle; none only when there is no such beam |
| LaserScan.OverallMeans | src/ros_mcp/perception/laser_scan.py:62-80 | the overall nearest and farthest readings are the first extreme finite beams within the range limits |
| LaserScan.InvalidCounted | src/ros_mcp/perception/laser_scan.py:64-66 | the invalid count is the number of beams that are NaN or below the least range |
| LaserScan.SectorRangeSummarises | src/ros_mcp/perception/laser_scan.py:82-84 | the sector's range is below a distance exactly when some valid beam of the sector is |
| LaserScan.NearestIsLeastOfSectors | src/ros_mcp/perception/laser_scan.py:77-84 | the overall nearest reading is its sector's, and no sector has a nearer one |
| CmdVel.ReadObstacle | src/ros_mcp/adapters/motion/cmd_vel_plugin.py:170-180 | the obstacle check over the analysed scan |
| CmdVel.LoopBody | src/ros_mcp/adapters/motion/cmd_vel_plugin.py:244-359 | one pass of the loop, exits in the source's order, both clamps, phase switch |
| CmdVel.Move | src/ros_mcp/adapters/motion/cmd_vel_plugin.py:182-360 | the whole loop: its published twists and its result are those of the run specification |
| CmdVel.RunStaysFinished | src/ros_mcp/adapters/motion/cmd_vel_plugin.py:244-252 | once the loop has returned no later sample matters |
| MotionSafety.TwistsWithinLimits | src/ros_mcp/adapters/motion/cmd_vel_plugin.py:315-357 | every published twist respects both velocity limits, for any sensor stream |
| MotionSafety.ReturnsAfterZero | src/ros_mcp/adapters/motion/cmd_vel_plugin.py:244-346 | the log is control twists, then one zero twist exactly when the loop returns |
| MotionSafety.EveryCommandIsGuarded | src/ros_mcp/adapters/motion/cmd_vel_plugin.py:244-293 | in the tick of every control twist: not cancelled, not expired, odometry fresh, and for a driving twist every valid beam of the latest scan in the travel sector at or beyond the stop distance |
| MotionSafety.ObstacleStopsExactly | src/ros_mcp/adapters/motion/cmd_vel_plugin.py:276-293 | a driving pass that has its pose ends with SAFETY_REJECTED exactly when a finite beam within the range limits is nearer than the stop distance, in [-pi/6, pi/6) when driving ahead, beyond 5pi/6 to either side when reversing |
| MotionSafety.DrivesOnlyWhenClear | src/ros_mcp/adapters/motion/cmd_vel_plugin.py:276-293 | in the tick of every driving twist of a whole move there was no such beam: in front for forward, left and right, behind for backward |
| MotionSafety.PassEndsEarly | src/ros_mcp/adapters/motion/cmd_vel_plugin.py:244-269 | cancelled, timed out, stale, in this order: error, stop reason, distance and pose of each |
| MotionSafety.PassInNumbers | src/ros_mcp/adapters/motion/cmd_vel_plugin.py:271-359 | every other pass, spelled out: obstacle, target reached, phase switch, or both commands as the nearest value within one acceleration step of the clamped proportional answer |
| MotionSafety.LawsAre | src/ros_mcp/adapters/motion/cmd_vel_plugin.py:295-336 | the laws of a whole move: kp times the heading error, kp times the remaining distance |
| MotionSafety.PlanMeans | src/ros_mcp/adapters/motion/cmd_vel_plugin.py:215-235 | the planned heading in degrees: a rotation heads angle_deg to its side of the start yaw up to whole turns, left and right moves 90 degrees; forward and backward keep the yaw, and only backward reverses |
| MotionSafety.CancelEndsTheRun | src/ros_mcp/adapters/motion/cmd_vel_plugin.py:245-260 | a cancelled or expired tick ends the run, and no control twist is published from that tick on |
| MotionSafety.ReturnsByDeadline | src/ros_mcp/adapters/motion/cmd_vel_plugin.py:253-260 | if the clock gains at least epsilon per tick the loop has returned once the samples span the timeout |
| MotionSafety.AccelerationLimited | src/ros_mcp/adapters/motion/cmd_vel_plugin.py:61-69 | consecutive control twists differ by at most one acceleration step: linear always, angular within a phase |
| MotionSafety.ResultsAreHonest | src/ros_mcp/adapters/motion/cmd_vel_plugin.py:237-346 | distance travelled never decreases and is at least the straight-line distance to the final pose; success means the target was reached within its tolerance |
| MotionSafety.OdometerIsPathLength | src/ros_mcp/adapters/motion/cmd_vel_plugin.py:271-274 | while running, the distance is exactly the length of the path sampled so far |
| MotionSafety.ResultReportsPath | src/ros_mcp/adapters/motion/cmd_vel_plugin.py:244-346 | every return reports exactly the sampled path's length and last pose, without the current sample when cancelled, timed out or stale, else with it |
| MotionSafety.CommandsHaveTheRightSense | src/ros_mcp/adapters/motion/cmd_vel_plugin.py:315-357 | from rest the robot is turned towards its heading the short way and driven in the plan's sense; no tick moves the turn command away from what the law asks |
| MotionSafety.MoveIsSafe | src/ros_mcp/adapters/motion/cmd_vel_plugin.py:182-360 | the above for a whole move command from its start sample on |
| PhaseSwitch.AngularPromiseExactly | src/ros_mcp/adapters/motion/cmd_vel_plugin.py:304-324 | the angular command never jumps on any run exactly when no turn precedes a drive, or no drive follows, or no turn is commanded, or the top turn rate is at most half an acceleration step |
| DriveConvergence.CourseAdvances | src/ros_mcp/adapters/motion/cmd_vel_plugin.py:335-357 | while underway the speed is at most kp times the remaining distance, the target is never passed and every tick covers at least a fixed distance |
| DriveConvergence.RunFollowsCourse | src/ros_mcp/adapters/motion/cmd_vel_plugin.py:323-359 | every tick of the closed loop is on the ideal course |
| DriveConvergence.ConvergesIn | src/ros_mcp/adapters/motion/cmd_vel_plugin.py:323-359 | the drive only ever drives forward and has succeeded within the computed number of ticks, at most the tolerance short of the target and never beyond it |
| DriveConvergence.IdealWorldIsIdeal | tests/unit/test_cmd_vel_motion_plugin.py:46-49 | the test integrator, with kp * dt <= 1 and kp * max_linear * dt <= the acceleration step, satisfies the laws the induction uses |
| DriveConvergence.MoveReachesPrediction | src/ros_mcp/adapters/motion/cmd_vel_plugin.py:223-359 | a whole forward or backward move succeeds in that number of ticks, within the tolerance of the point the fence predicted |
| TurnConvergence.TurnAdvances | src/ros_mcp/adapters/motion/cmd_vel_plugin.py:295-322 | a turn whose speed law leaves room to brake never passes its target, never turns back and can always stop in what is left |
| TurnConvergence.TunedIsLawful | src/ros_mcp/adapters/motion/cmd_vel_plugin.py:314-321 | the controller's law leaves that room whenever it is at most about twice as steep as the acceleration limit |
| TurnConvergence.RunFollowsTurn | src/ros_mcp/adapters/motion/cmd_vel_plugin.py:295-322 | every tick of the closed turn is on that course, odometry reporting yaw up to whole turns |
| TurnConvergence.RotationConverges | src/ros_mcp/adapters/motion/cmd_vel_plugin.py:295-311 | a rotation turns in place, one way only, and within a computed number of ticks succeeds with its heading within the tolerance and not beyond the target |
| TurnConvergence.RotationReachesHeading | src/ros_mcp/adapters/motion/cmd_vel_plugin.py:215-222 | a whole rotation of 0 to 360 degrees ends within the angle tolerance of start yaw plus (left) or minus (right) degrees * pi / 180, turning in place, and to the side asked for when the angle is below half a turn |
| TurnConvergence.SideTurnEnds | src/ros_mcp/adapters/motion/cmd_vel_plugin.py:295-313 | the turn of a left or right move goes over to its drive within that number of ticks, its heading within the tolerance |
| TurnConvergence.DefaultsTurn | src/ros_mcp/adapters/motion/cmd_vel_plugin.py:87-91 | the default gains are steeper than the acceleration limit and still converge, any rotation within 280 ticks (14 s) |
| TurnThenDrive.SideMoveReachesPrediction | src/ros_mcp/adapters/motion/cmd_vel_plugin.py:228-359 | a left or right move whose turn ends exactly on its heading ends within the position tolerance of the predicted point |
| RateLimit.PrunedListIsLastSecond | src/ros_mcp/safety/policy_engine.py:180-192 | the pruned list is exactly the last second of everything the session was ever allowed |
| RateLimit.VerdictsMatchRecord | src/ros_mcp/safety/policy_engine.py:185-192 | each call is allowed exactly when fewer than the limit of the session's accepted calls lie in the second before it |
| RateLimit.NoBurstExceedsLimit | src/ros_mcp/safety/policy_engine.py:180-192 | between two accepted calls at most a second apart there are fewer than the limit |
| RateLimit.WindowHoldsAtMostLimit | src/ros_mcp/safety/policy_engine.py:180-192 | any closed one-second window holds at most ceil(limit) accepted calls |
| RateLimit.SessionsIsolated | src/ros_mcp/safety/policy_engine.py:183 | what a session is allowed depends on its own calls alone |
| SafetyPolicy.SafetyPolicyEngine.CheckRateLimit | src/ros_mcp/safety/policy_engine.py:180-192 | prune, test and append in place compute the specified decision and table |
| SafetyPolicy.SafetyPolicyEngine.CheckRequest | src/ros_mcp/safety/policy_engine.py:62-178 | the cascade: first failing check wins, stop before everything |
| SafetyPolicy.TranslationInNumbers | src/ros_mcp/safety/policy_engine.py:92-178 | within the rate: the distance limit, then each of the four bounds of an enabled fence at the point that far away in the direction asked for, then the approval policy; nothing of the fence without a pose |
| SafetyPolicy.RotationInNumbers | src/ros_mcp/safety/policy_engine.py:111-178 | a rotation, or a translation without distance: the four bounds at the pose, and a human only under always_human |
| SafetyPolicy.NavigationInNumbers | src/ros_mcp/safety/policy_engine.py:117-178 | the pose must be known; then the straight-line distance, the four bounds at the goal, the approval policy |
| SafetyPolicy.PathInsideFence | src/ros_mcp/safety/policy_engine.py:46-48 | if the x and y of the start and of the predicted end are within the fence's four bounds, so are those of every point of the path the controller drives |
| SafetyPolicy.FenceKeptExactly | src/ros_mcp/safety/policy_engine.py:111-112 | the gate's answer: an allowed translation is predicted to end inside the fence wherever the robot is, exactly when a pose is given, or the distance exceeds its limit, or the approval policy wants a human |
| SafetyPolicy.FenceCanBeLeft | src/ros_mcp/safety/policy_engine.py:149-161 | with the default limits and a fence of one metre, forward 5 m from its middle: ALLOW without a pose, refused with it, predicted to end outside |
| SafetyPolicy.UnseenStartLeavesFence | src/ros_mcp/adapters/motion/cmd_vel_plugin.py:205-213 | the whole command: refused as SENSOR_STALE while odometry is missing; if it appears after the gate the allowed move succeeds outside the fence |
| SafetyPolicy.AllowedDriveStaysInside | src/ros_mcp/safety/policy_engine.py:149-178 | an allowed forward or backward move on the ideal robot is within the four bounds of the fence in every tick until it returns |
| ExecutionProtocol.NextKeeps | src/ros_mcp/execution/manager.py:64-248 | every action of every task keeps the manager invariant |
| ExecutionProtocol.ReachableInv | src/ros_mcp/execution/manager.py:64-248 | the invariant holds at every suspension point of every interleaving |
| ExecutionSafety.OneExecutionPerId | src/ros_mcp/execution/manager.py:64-74 | at most one running execution per command id, and it serves every later submission of that id |
| ExecutionSafety.MapsAreExact | src/ros_mcp/execution/manager.py:187-216 | tokens are exactly those between registration and finally; the active command is the robot's last registered one, as long as that runs |
| ExecutionSafety.QuiescentIsClean | src/ros_mcp/execution/manager.py:213-216 | when nothing runs no token and no active command is left |
| ExecutionSafety.CleanUpSparesOthers | src/ros_mcp/execution/manager.py:213-216 | however an execution ends, every other keeps its token and its active entry |
| ExecutionSafety.NonBypass | src/ros_mcp/execution/manager.py:113-221 | no backend is called but after an ALLOW of the same execution; move and navigate also after the planner's offer, for the command's own operation, at most once; a refused execution calls none |
| ExecutionSafety.StatesMoveForward | src/ros_mcp/execution/manager.py:128-221 | states only move forward, no terminal state is rewritten, and the result agrees with the state |
| ExecutionSafety.EndsAreReported | src/ros_mcp/execution/manager.py:113-248 | over any run and for its rest, each end by its cause: the answer of backend or read handler is the result, what is given up (backstop, exception, planner, no handler) FAILED, a refusal SAFETY_REJECTED, a wait AWAITING_APPROVAL, no offer CAPABILITY_UNAVAILABLE, a stop that got through SUCCEEDED, a cancelled task writes nothing |
| ExecutionSafety.SuccessIsTheAdapters | src/ros_mcp/execution/manager.py:128-221 | a command that is no stop is reported as succeeded exactly when its backend or read handler answered so |
| ExecutionSafety.AllowedIsCalled | src/ros_mcp/execution/manager.py:164-248 | what the gate allows and the planner offers is dispatched; an allowed stop calls the motion backend and then the navigation backend, whichever there are |
| ExecutionSafety.ExecutionsGoOn | src/ros_mcp/execution/manager.py:113-248 | where an execution waits next that does not end: handler or pose, the backend it was dispatched to, the motion backend's stop and then the cancellation of a goal that is held |
| ExecutionSafety.CancelIsHeard | src/ros_mcp/execution/manager.py:76-82 | a cancellation sets the flag of the running execution of that id, and changes nothing else |
| ExecutionSafety.RunsOnlyGrow | src/ros_mcp/execution/manager.py:113-221 | what an execution did stays done, an ended one does nothing more, a cancelled token stays cancelled |
| StopReach.ReachableGoalInv | src/ros_mcp/adapters/navigation/nav2_plugin.py:233-257 | the plugin's handle is what its last write left, and no goal is stored twice, over every interleaving |
| StopReach.ReachableLog | src/ros_mcp/adapters/navigation/nav2_plugin.py:233-257 | the log of the handle consists of what each navigate writes, in its own order, and nothing else |
| StopReach.CancelAllReaches | src/ros_mcp/adapters/navigation/nav2_plugin.py:321-327 | the callable of cancel_all reads the handle late: a goal active throughout is cancelled exactly if it was already, or was held at the test with no write since |
| StopReach.CancelAllReachesAllExactly | docs/06-execution.md:92-93 | cancel_all reaches every goal active from its test to its reading exactly when each of them is already cancelled, or is the one held with no write in between |
| StopReach.CancelAllCanMissAGoal | src/ros_mcp/adapters/navigation/nav2_plugin.py:321-327 | the race: the only active goal is held at the test, another is accepted before the reading, and the first is never cancelled |
| StopReach.StopCancelsTheNewest | src/ros_mcp/execution/manager.py:226-232 | a stop cancels the token of the robot's newest registered command if it runs, and no other |
| StopReach.StopTells | src/ros_mcp/execution/manager.py:223-248 | both effects of a stop nothing interferes with: told are those told before, the newest registered command, and the navigate whose goal is held |
| StopReach.StopCancelsAllExactly | src/ros_mcp/mcp/schemas.py:112-115 | such a stop cancels every in-flight move or navigate of its robot exactly when each is told already, or is the newest registered one, or the navigate whose goal is held |
| StopReach.StopCanMissAMove | src/ros_mcp/execution/manager.py:189-216 | a run of two overlapping moves after which a stop tells nobody |
| StopReach.BothEffectsCount | src/ros_mcp/execution/manager.py:223-239 | a run of a navigate and a newer move which one stop tells both, one by its goal and one by its token |
| GatedExecution.ReachableGateInv | src/ros_mcp/execution/manager.py:146-185 | every verdict in the trail of an execution is what the gate and the planner answered for that execution, over every interleaving and one rate-limit table |
| GatedExecution.AllowedIsCleared | src/ros_mcp/safety/policy_engine.py:62-178 | what an ALLOW means in numbers, for every request but a stop |
| GatedExecution.GateIsNeverBypassed | src/ros_mcp/execution/manager.py:146-202 | behind every backend call is a question of the same execution that this gate allowed: in rate, distance within its limit and below the approval threshold, the end within the fence's four bounds as far as the pose is known, pose known for a navigation, not always_human; and a backend this planner offered for what was dispatched |
| GatedExecution.StopIsNeverRefused | src/ros_mcp/safety/policy_engine.py:68-74 | no stop is ever refused or sent to approval, whatever the configuration, the rate and the calls before |
| ExecutionManager.Manager.Submit | src/ros_mcp/execution/manager.py:64-72 | join the execution in flight or start one |
| ExecutionManager.Manager.Release | src/ros_mcp/execution/manager.py:73-74 | the submitter removes its in-flight entry |
| ExecutionManager.Manager.Cancel | src/ros_mcp/execution/manager.py:76-82 | sets the token's flag if there is one |
| ExecutionManager.Manager.Begins | src/ros_mcp/execution/manager.py:119-148 | an execution up to its first await |
| ExecutionManager.Manager.PoseAnswered | src/ros_mcp/execution/manager.py:149-202 | from the pose over the gate and the planner to the dispatch |
| ExecutionManager.Manager.SignalsActive | src/ros_mcp/execution/manager.py:226-232 | the stop's look-up and cancellation |
| ExecutionManager.Manager.CleansUp | src/ros_mcp/execution/manager.py:213-216 | the finally clause |
| ExecutionManager.Manager.BackendAnswered | src/ros_mcp/execution/manager.py:195-221 | result or backstop timeout, clean-up, final state |
| ExecutionManager.Manager.ExceptionRaised | src/ros_mcp/execution/manager.py:119-126 | an exception ends in FAILED, after the clean-up if registered |
| ExecutionManager.Manager.PlannerRaises | src/ros_mcp/execution/manager.py:119-185 | select_backend raises after the state PLANNING was written: FAILED, nothing registered |
| ExecutionManager.Manager.GoalAccepts | src/ros_mcp/adapters/navigation/nav2_plugin.py:233-233 | a running navigate stores its accepted goal |
| ExecutionManager.Manager.GoalDrops | src/ros_mcp/adapters/navigation/nav2_plugin.py:257-257 | a navigate leaving its loop stores None |
| ExecutionManager.Manager.StopsNavigation | src/ros_mcp/adapters/navigation/nav2_plugin.py:321-325 | cancel_all up to its await: the test of the handle, the callable enqueued |
| ExecutionManager.Manager.CancelCallableRuns | src/ros_mcp/adapters/navigation/nav2_plugin.py:325-325 | the callable reads the handle when the executor thread runs it |
| ExecutionManager.Manager.Interrupted | src/ros_mcp/execution/manager.py:213-216 | a cancelled task still cleans up |
| RosBridge.ReachableInv | src/ros_mcp/ros/executor_thread.py:51-69 | the queue, future and delivery invariant over every interleaving |
| RosBridge.RunsInCallOrder | src/ros_mcp/ros/executor_thread.py:51-69 | callables run are a prefix of the calls in their order, each once; a resolved future holds its own executed callable's outcome |
| RosBridge.EveryExecutedCallIsAnswered | src/ros_mcp/ros/bridge.py:21-43 | when the loop has run all completions, every executed call's future is done and no other is resolved |
| RosBridge.FuturesResolveOnce | src/ros_mcp/ros/bridge.py:36-43 | a future that is done never changes |
| RosBridge.LastDrainRunsAllBefore | src/ros_mcp/ros/executor_thread.py:57-69 | after the thread has ended exactly the calls made before its last empty check have run; later ones never run and are never resolved |
| RosBridge.DrainEmptiesQueue | src/ros_mcp/ros/executor_thread.py:63-69 | a drain the callers leave alone runs the whole queue in order |
| RosBridge.ExecutorThread.CallRosFromAsyncio | src/ros_mcp/ros/bridge.py:21-33 | creates the future and enqueues |
| RosBridge.ExecutorThread.ThreadRuns | src/ros_mcp/ros/executor_thread.py:57-69 | one step of the thread |
| RosBridge.ExecutorThread.Delivers | src/ros_mcp/ros/bridge.py:36-43 | set the future if still pending |
| RosBridge.ExecutorThread.DrainWorkQueue | src/ros_mcp/ros/executor_thread.py:63-69 | the drain loop while others enqueue: nothing lost, duplicated or reordered, and it only stops on an empty queue |
| StopSafety.ReachableInv | src/ros_mcp/adapters/motion/cmd_vel_plugin.py:137-158 | the invariant of move, stop and executor thread over every interleaving |
| StopSafety.AtMostOneMoreTwist | src/ros_mcp/execution/manager.py:223-239 | after the token is cancelled at most one more control twist is enqueued in the whole run |
| StopSafety.NoneUnlessHolding | src/ros_mcp/adapters/motion/cmd_vel_plugin.py:137-154 | none at all unless the move was waiting for its first publisher with a twist in hand |
| StopSafety.HeldTwistEscapes | src/ros_mcp/adapters/motion/cmd_vel_plugin.py:137-154 | and whenever it was, the run can go on so that exactly that one is published |
| StopSafety.RobotIsLeftStanding | src/ros_mcp/adapters/motion/cmd_vel_plugin.py:244-252 | once the move has returned and the queue is empty the last twist sent is zero |
| StopSafety.CancelledMoveReturns | src/ros_mcp/adapters/motion/cmd_vel_plugin.py:245-252 | after the cancellation every step of the move brings its return nearer and it waits only for the executor thread |
| StopLayers.StopReachesMove | src/ros_mcp/execution/manager.py:223-232 | in every state of manager, loop and bridge together the stop of the robot cancels the token of its running move |
| StopLayers.MoveIsItsLoop | src/ros_mcp/adapters/motion/cmd_vel_plugin.py:244-359 | the passes of the move are a run of the loop of CmdVel, its token being the one the manager set |
| StopLayers.SuccessIsTheLoops | src/ros_mcp/execution/manager.py:194-221 | the manager reports a move as succeeded only when its control loop has returned success |
| StopLayers.AnswerIsTheLoops | src/ros_mcp/execution/manager.py:194-221 | when the adapter's answer reaches the manager the execution ends SUCCEEDED exactly when the loop returned success, else FAILED, a missing start pose included |
| StopLayers.SuccessMeansArrived | src/ros_mcp/adapters/motion/cmd_vel_plugin.py:295-346 | a move reported as succeeded has arrived: a rotation within its angle tolerance, a translation at most the position tolerance short of its distance |
| StopLayers.Refines | src/ros_mcp/adapters/motion/cmd_vel_plugin.py:149-158 | every run of manager, loop and bridge together is a run of StopSafety |
| StopLayers.AtMostOneMoreTwist | src/ros_mcp/execution/manager.py:223-239 | of the calls made since the stop began the executor thread runs at most one control twist |
| StopLayers.NothingMoreUnlessHolding | src/ros_mcp/adapters/motion/cmd_vel_plugin.py:137-154 | none if the move has no twist in hand waiting for its first publisher |
| StopLayers.RobotIsLeftStanding | src/ros_mcp/adapters/motion/cmd_vel_plugin.py:244-252 | once the move has returned and the work queue is empty the last twist the executor thread sent is zero |
| StopLayers.StopMeetsMove | src/ros_mcp/execution/manager.py:223-239 | a run in which a stop meets the running move, its token set |
| Nav2.Nav2Plugin.EnsureActionClient | src/ros_mcp/adapters/navigation/nav2_plugin.py:101-106 | the client exists afterwards; it is created exactly if it was missing at the test, other tasks running before it is stored |
| Nav2.Nav2Plugin.Navigate | src/ros_mcp/adapters/navigation/nav2_plugin.py:137-303 | pre-checks, goal, loop and result: its events, its result and its own writes to the handle are the specified ones, whatever other tasks do at its awaits |
| Nav2.Nav2Plugin.PollLoop | src/ros_mcp/adapters/navigation/nav2_plugin.py:233-255 | the loop with its cancel, bounded wait and break inside; left for no reason, it has the result |
| Nav2.Nav2Plugin.PollToEnd | src/ros_mcp/adapters/navigation/nav2_plugin.py:233-303 | from the acceptance on: store, loop, drop, conclude |
| Nav2.Nav2Plugin.CancelAll | src/ros_mcp/adapters/navigation/nav2_plugin.py:321-327 | nothing when no handle is held; else the goal of the last write before the late reading |
| Nav2.NoGoalUnlessReady | src/ros_mcp/adapters/navigation/nav2_plugin.py:160-194 | a goal is sent exactly when frame, server, localization and transform checks all passed; a refusal names the failing one, cancels nothing and leaves the handle alone |
| Nav2.PollIsFirst | src/ros_mcp/adapters/navigation/nav2_plugin.py:240-255 | the first pass that sees result, cancellation or deadline decides, in this precedence; one cancel exactly if that pass does not see the result |
| Nav2.NoOrphanGoal | src/ros_mcp/adapters/navigation/nav2_plugin.py:233-257 | a navigate returns exactly when a pass sees a reason; then it sent no cancel if the first such pass saw the result and exactly one otherwise, and has stored and dropped its goal; before, it holds the goal and sent none |
| Nav2.SuccessExactly | src/ros_mcp/adapters/navigation/nav2_plugin.py:261-293 | success is reported exactly when the result was seen first and its status is SUCCEEDED |
| Nav2.AnswersExactly | src/ros_mcp/adapters/navigation/nav2_plugin.py:233-303 | each answer of an accepted goal exactly by its cause: CANCELLED for the token before the result or for status CANCELED, ACTION_TIMEOUT for the deadline, NAVIGATION_FAILED for any other status with controller_failure exactly after recoveries, else planner_failure; with the final pose, and the distance 0 on success or that of the feedback |
| Nav2.RefusalsExactly | src/ros_mcp/adapters/navigation/nav2_plugin.py:157-231 | a goal not accepted: INVALID_FRAME, CAPABILITY_UNAVAILABLE, or NAVIGATION_FAILED with goal_rejected, each exactly by its check, without pose and distance |
| Nav2.DoesExactly | src/ros_mcp/adapters/navigation/nav2_plugin.py:157-303 | everything a navigate does, in order: the checks, the goal, a sleep per pass before the one that stops the loop, cancel and bounded wait if that pass does not see the result, the final pose |
| Nav2.FailuresAreHonest | src/ros_mcp/adapters/navigation/nav2_plugin.py:261-303 | errors and fail reasons tell the cause, and the never-completed branch is not taken |
| Capabilities.InferredIdsAreDistinct | src/ros_mcp/capabilities/inference.py:35-64 | at most one entry per capability |
| Capabilities.InferenceIgnoresOrder | src/ros_mcp/capabilities/ontology.py:26-189 | a reordered graph yields the same entries |
| Capabilities.SensorsAreJustified | src/ros_mcp/capabilities/ontology.py:34-68 | lidar and camera by their message types: CONFIRMED exactly when the configured topic is in the graph, else LIKELY exactly when there is one candidate; a resolved name is that of a topic of the right type; the detector sees what the camera sees |
| Capabilities.MotionExactly | src/ros_mcp/capabilities/ontology.py:71-106 | motion is unambiguous exactly for a graph with both configured topics or one candidate for each, CONFIRMED exactly for the former, resolves to topics that exist, and tells the three configured limits |
| Capabilities.NavigationExactly | src/ros_mcp/capabilities/ontology.py:109-134 | the same for NavigateToPose servers |
| Capabilities.LocalizationExactly | src/ros_mcp/capabilities/ontology.py:137-156 | CONFIRMED exactly for /amcl_pose of its type, else LIKELY exactly for a map frame and another one, else absent |
| CapabilityRegistry.Registry.Get | src/ros_mcp/capabilities/registry.py:29-34 | the first entry with the id |
| CapabilityRegistry.Registry.Update | src/ros_mcp/capabilities/registry.py:44-56 | replaces the entries and counts the change, only when they differ |
| CapabilityRegistry.DiscoveryEngine.RefreshOnce | src/ros_mcp/discovery/engine.py:82-104 | one poll: new snapshot, and an update only when the content changed |
| CapabilityRegistry.DiscoveryEngine.OnSnapshotChanged | src/ros_mcp/capabilities/coordinator.py:28-31 | infer and update |
| CapabilityRegistry.EqualContentSameEntries | src/ros_mcp/discovery/engine.py:21-31 | content-equal snapshots give the same entries |
| CapabilityRegistry.RegistryIsCoherent | src/ros_mcp/capabilities/coordinator.py:28-31 | after any polls the registry is the inference over the latest snapshot, with the overrides of the last content change |
| CapabilityRegistry.RegistryIsInference | src/ros_mcp/discovery/engine.py:82-104 | with constant overrides it is simply the inference over the latest snapshot |
| CapabilityRegistry.VersionCountsChanges | src/ros_mcp/capabilities/registry.py:47-51 | the version is the number of polls that changed the entries |
| CapabilityRegistry.ReorderingIsNoChange | src/ros_mcp/discovery/engine.py:96-103 | a reordered graph is a changed content but leaves entries and version alone |
| CapabilityRegistry.LookupsAgree | src/ros_mcp/mcp/tool_provider.py:45-52 | with distinct ids first-match get and last-wins dictionary agree |
| CapabilityRegistry.CurrentTools | src/ros_mcp/mcp/tool_provider.py:44-54 | exactly the exposed definitions, in order |
| CapabilityRegistry.ListedExactly | src/ros_mcp/mcp/tool_provider.py:47-53 | a tool is listed exactly when it needs no capability or its capability is present and unambiguous |
| CapabilityRegistry.ListedByName | src/ros_mcp/mcp/schemas.py:16-212 | the eight tools by name, each listed exactly when its own capability is usable |
| CapabilityRegistry.MoveListedExactlyWhenOffered | src/ros_mcp/execution/planner.py:26-30 | robot.move, and robot.stop, are listed exactly when the planner offers them the motion backend |
| CapabilityRegistry.MoveListedExactlyWhenDrivable | src/ros_mcp/mcp/tool_provider.py:44-54 | after any polls robot.move is listed exactly when the latest graph has both configured topics or one candidate for each |
| CapabilityRegistry.NavigateOfferedExactly | src/ros_mcp/execution/planner.py:32-44 | navigation is offered exactly when listed, localized and built in |
| CapabilityRegistry.NavigateCanBeListedUnoffered | src/ros_mcp/execution/planner.py:40-41 | a graph where robot.navigate is listed and refused |
| SchemaCheck.CheckDecidesConformance | src/ros_mcp/validation/schema_check.py:25-69 | no fault exactly for the values that conform, at any depth |
| SchemaCheck.FaultIsThere | src/ros_mcp/validation/schema_check.py:25-69 | the reported path leads to a part that breaks its part of the schema in the reported way |
| Commands.MoveAcceptedExactly | src/ros_mcp/validation/engine.py:16-66 | robot.move is submitted exactly with a direction of the six, numbers in their ranges, and the distance or the angle its direction needs |
| Commands.NavigateAcceptedExactly | src/ros_mcp/mcp/schemas.py:122-149 | robot.navigate is submitted exactly with numbers x and y, perhaps a yaw and a frame, and nothing else |
| Commands.StopAcceptedExactly | src/ros_mcp/mcp/schemas.py:108-121 | robot.stop is submitted exactly without arguments, as a stop with a timeout of 5 s |
| Commands.ToolsAreNamed | src/ros_mcp/mcp/tool_provider.py:56-90 | each name submits its own operation, timeout and constraints; an unknown name is INVALID_ARGUMENT |
| Commands.SubmittedCommandsMeetAsserts | src/ros_mcp/validation/engine.py:16-66 | every submitted move or navigate has the target fields and constraints the gate and the controller assert |
| Commands.TargetsCarryArguments | src/ros_mcp/commands/factory.py:53-64 | every part of a submitted target is the argument of its own name, present exactly when the argument is |
| Commands.MoveTimeoutIs | src/ros_mcp/commands/factory.py:70-74 | a move's timeout is the requested one cut at the maximum, or the default |
| Commands.TimeoutBoundedExactly | src/ros_mcp/commands/factory.py:67-79 | the timeout is positive and within the configured maximum exactly unless a move asks for NaN |
| Commands.NaNTimeoutIsAccepted | src/ros_mcp/commands/factory.py:70-73 | such a call is accepted with a NaN timeout |
| Commands.ValidatedMoveIsWellFormed | src/ros_mcp/commands/factory.py:53-59 | a validated move of finite numbers meets the precondition of the control loop |
| Commands.DirectionsAre | src/ros_mcp/adapters/motion/cmd_vel_plugin.py:215-235 | each of the six direction names is its direction |
| NotANumber.DistanceBoundedExactly | src/ros_mcp/safety/policy_engine.py:92-110 | the distance of an allowed translation is finite, not negative and within the limit exactly unless it is NaN |
| NotANumber.NaNDistanceIsAllowed | src/ros_mcp/safety/policy_engine.py:92-110 | "forward NaN m" is validated and allowed under every approval policy but always_human |
| NotANumber.StepRawAgrees | src/ros_mcp/adapters/motion/cmd_vel_plugin.py:244-359 | the controller's pass on Python numbers is the pass of CmdVel when they are finite |
| NotANumber.NaNDistanceDrivesOn | src/ros_mcp/adapters/motion/cmd_vel_plugin.py:323-357 | a move by NaN drives on towards top speed in every pass until it is cancelled, times out, loses odometry or meets an obstacle, and only fails |
| NotANumber.NaNAngleTurnsOn | src/ros_mcp/adapters/motion/cmd_vel_plugin.py:295-322 | a rotation by NaN turns left towards the angular limit until it is interrupted |
| Ulid.EncodeBase32 | src/ros_mcp/commands/ulid.py:13-20 | the divmod loop and the final reversal compute the 26 digits |
| Ulid.DigitsAreCrockford | src/ros_mcp/commands/ulid.py:10-10 | the digits are Crockford's: 0 to 9 and the capital letters but I, L, O and U, by character code, and no other character is one |
| Ulid.EncodingRoundTrips | src/ros_mcp/commands/ulid.py:13-20 | 26 characters, the first at most '7', decoding to the encoded number |
| Ulid.EncodingKeepsOrder | src/ros_mcp/commands/ulid.py:10-20 | text order is number order, both ways |
| Ulid.UlidLayout | src/ros_mcp/commands/ulid.py:23-27 | 48 bits of time above 80 random bits |
| Ulid.LaterSortsAfter | src/ros_mcp/commands/ulid.py:23-27 | ids of a later millisecond sort strictly after earlier ones |
| Codec.TruncatedIsSmall | src/ros_mcp/codec/message_codec.py:120-138 | the output has no list above the limit, no bytes and no arrays |
| Codec.TruncationFixes | src/ros_mcp/codec/message_codec.py:120-138 | exactly the plain and small values are left alone; truncation is idempotent |
| Codec.TruncationKeepsPaths | src/ros_mcp/codec/message_codec.py:120-138 | at every path over no overlong list the output holds the truncation of what was there: same keys, same positions |
| Codec.OverlongIsMarked | src/ros_mcp/codec/message_codec.py:120-138 | at every path to an overlong list, array or byte string the output holds a marker with its exact length |
| Codec.HexLosesNothing | src/ros_mcp/codec/message_codec.py:127-130 | byte strings within the limit become two characters a byte, different ones differently |
| Codec.HexSpells | src/ros_mcp/codec/message_codec.py:127-130 | byte i is its two lower-case hexadecimal digits at 2i and 2i + 1, high half first |
| Codec.BytesBecomeHex | src/ros_mcp/codec/message_codec.py:127-130 | a byte string within the limit becomes this text |
| Codec.TypeNamesAreCompleted | src/ros_mcp/codec/message_codec.py:45-51 | pkg/Type becomes pkg/msg/Type, a full name is left alone |
| Codec.JsonTypesAre | src/ros_mcp/codec/message_codec.py:21-40 | the primitive types by name; any other is a string |
| Codec.SchemaMirrorsType | src/ros_mcp/codec/message_codec.py:78-105 | one property per field in order, list schemas exactly for list fields, with their bounds |
| Codec.NoteExactly | src/ros_mcp/codec/message_codec.py:75-83 | the depth note appears exactly when a reference chain of that length starts at the type, cyclic tables included |
| Codec.NoteAfterSeventeen | src/ros_mcp/codec/message_codec.py:75-83 | what a client gets has the note exactly for a chain of 17 references |
| Codec.FailureExactly | src/ros_mcp/codec/message_codec.py:78-83 | building fails exactly when an unknown type is reachable above the cap |
| Codec.CapUnaffected | src/ros_mcp/codec/message_codec.py:76-77 | without so long a chain the cap changes nothing |
| Codec.MessageCodec.SchemaFor | src/ros_mcp/codec/message_codec.py:65-73 | cached or not, the answer is the uncached build's; failures are not cached |

## Left out

- IEEE rounding and overflow: floats are reals, and an integer timeout too large for a float, which raises in the source, is just large here.
- Commands.ValidatedMoveIsWellFormed: asks for finite numbers. A NaN distance or angle is followed through the gate and the controller in `NotANumber`, with no pose known; infinite distances are refused by the limit, and non-finite navigation coordinates are not followed past validation.
- DriveConvergence.MoveReachesPrediction: forward and backward moves on the exact integrator. Rotations and the turns of left and right moves converge too (`TurnConvergence`), but the drive after a turn is followed only when the turn ends exactly on its heading (`TurnThenDrive`): a turn ends anywhere within the tolerance, and how the drive then corrects the rest while moving is not shown.
- TurnThenDrive.SideMoveReachesPrediction: the exact end of the turn is a hypothesis, which the ideal robot under tuned gains only approaches.
- SafetyPolicy.AllowedDriveStaysInside: along a run only for forward and backward moves; for left and right `PathInsideFence` speaks of the path after the turn.
- StopSafety.RobotIsLeftStanding: one move and one stop; a second move of the same robot is not cancelled by the code.
- StopLayers.AtMostOneMoreTwist: for a move dispatched before the stop begins; one that is still at the gate is not among those a stop reaches (`StopReach.StopCancelsAllExactly`).
- Adapter exits by exception or by the manager's backstop timeout: they are steps of the manager, of `StopReach` (a navigate that dies leaves its goal in the handle) and of `StopLayers` (a move that dies publishes nothing more, nor its final zero), but `CmdVel` and `Nav2` themselves are for normal returns.
- The builders of error and approval results: they are total for the eight result types, so the manager's actions have no exception inside them; the planner's exception is an action.
- Nav2.NoOrphanGoal: a cancel attempt that raises counts as an attempt, as the source treats it as best effort; the bounded wait for the result after it is not timed.
- The odometry, scan and pose caches: their freshness is an input of each tick.
- Quaternions: poses carry the yaw they were converted to.
- Durations, messages and details of results: only status, error code and the motion data are kept.
- Progress callbacks, logging, YAML loading, server wiring, camera thumbnails, the stub detector and the TF adapter: thin wrappers and I/O.
- The read tools' input schemas and handlers: they are parameters, as they reach no backend.
- The regular expressions that split a message field type: the table holds the split form; the branch for "octet" and "uint8[]" names is unreachable in the source and has no counterpart.
- Schema enumerations of other than strings: the tools use none.
- Message round trips through rosidl: rosidl is not part of this model.
- Token objects are named by the execution that created them; that plugin and manager share one object is this naming.
