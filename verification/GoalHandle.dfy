/**
 The one field all tasks of the navigation plugin share: `_active_goal_handle`
 (src/ros_mcp/adapters/navigation/nav2_plugin.py:92, 233, 257), as the log of its writes.
 */
module GoalHandle {
  import opened RealMath

  type GoalId = nat

  /** A goal is accepted and stored, or its `navigate` leaves the loop and stores None. */
  datatype HandleWrite = Accept(goal: GoalId) | Drop(goal: GoalId)

  /** How far the goal of one `navigate` has come, and the writes it has made by then. */
  datatype GoalPhase = NotAccepted | Accepted | Dropped

  function WritesOf(goal: GoalId, phase: GoalPhase): seq<HandleWrite> {
    match phase
    case NotAccepted => []
    case Accepted => [Accept(goal)]
    case Dropped => [Accept(goal), Drop(goal)]
  }

  /** The field after these writes. */
  function HandleAfter(writes: seq<HandleWrite>): Option<GoalId> {
    if |writes| == 0 || writes[|writes| - 1].Drop? then None else Some(writes[|writes| - 1].goal)
  }

  /** The writes of one goal's `navigate`. */
  function OwnWrites(writes: seq<HandleWrite>, goal: GoalId): seq<HandleWrite>
    decreases |writes|
  {
    if |writes| == 0 then []
    else
      var rest, last := OwnWrites(writes[..|writes| - 1], goal), writes[|writes| - 1];
      if last.goal == goal then rest + [last] else rest
  }

  lemma OwnWritesAppend(writes: seq<HandleWrite>, x: HandleWrite, goal: GoalId)
    ensures OwnWrites(writes + [x], goal) == OwnWrites(writes, goal) + (if x.goal == goal then [x] else [])
  {
    assert (writes + [x])[..|writes|] == writes;
  }

  lemma {:induction false} ForeignWrites(writes: seq<HandleWrite>, more: seq<HandleWrite>, goal: GoalId)
    requires forall i | 0 <= i < |more| :: more[i].goal != goal
    ensures OwnWrites(writes + more, goal) == OwnWrites(writes, goal)
    decreases |more|
  {
    if |more| == 0 {
      assert writes + more == writes;
    } else {
      var init, last := more[..|more| - 1], more[|more| - 1];
      ForeignWrites(writes, init, goal);
      OwnWritesAppend(writes + init, last, goal);
      assert writes + more == writes + init + [last];
    }
  }
}
