/**
 The per-session sliding window of the safety gate
 (`_check_rate_limit`, src/ros_mcp/safety/policy_engine.py:180-192).

 The source keeps, per session, a list it prunes to the last second before every decision. The
 reference `AcceptedTimes` never forgets anything. The theorems: the pruned list is exactly the
 last second of the reference, so both decide alike; no closed one-second window holds more than
 ceil(limit) accepted commands; and sessions do not affect each other.
 */
module RateLimit {
  import opened RealMath

  type Session = string

  datatype Call = Call(session: Session, now: real)

  /** The entries at or after `from`, in order. */
  function Since(times: seq<real>, from: real): seq<real> {
    if |times| == 0 then []
    else
      var rest := Since(times[..|times| - 1], from);
      if times[|times| - 1] >= from then rest + [times[|times| - 1]] else rest
  }

  function HistoryOf(history: map<Session, seq<real>>, s: Session): seq<real> {
    if s in history then history[s] else []
  }

  /** One decision and the new table. */
  function Decide(history: map<Session, seq<real>>, call: Call, limit: real): (bool, map<Session, seq<real>>) {
    var recent := Since(HistoryOf(history, call.session), call.now - 1.0);
    if |recent| as real >= limit then (false, history[call.session := recent])
    else (true, history[call.session := recent + [call.now]])
  }

  /** A whole run of the gate. */
  function Run(calls: seq<Call>, limit: real): (map<Session, seq<real>>, seq<bool>) {
    if |calls| == 0 then (map[], [])
    else
      var (history, verdicts) := Run(calls[..|calls| - 1], limit);
      var (allowed, next) := Decide(history, calls[|calls| - 1], limit);
      (next, verdicts + [allowed])
  }

  /** The reference: every time this session was let through, never pruned. A call passes when fewer
      than `limit` accepted times lie in the second before it. */
  function AcceptedTimes(calls: seq<Call>, limit: real, s: Session): seq<real> {
    if |calls| == 0 then []
    else
      var call := calls[|calls| - 1];
      var before := AcceptedTimes(calls[..|calls| - 1], limit, s);
      if call.session == s && (|Since(before, call.now - 1.0)| as real) < limit then before + [call.now] else before
  }

  ghost predicate TimeNeverRunsBack(calls: seq<Call>) {
    forall i, j | 0 <= i <= j < |calls| :: calls[i].now <= calls[j].now
  }

  /** The session's latest call, or a default. */
  function LatestCall(calls: seq<Call>, s: Session): Option<real> {
    if |calls| == 0 then None
    else if calls[|calls| - 1].session == s then Some(calls[|calls| - 1].now)
    else LatestCall(calls[..|calls| - 1], s)
  }

  // ----- filtering

  lemma {:induction false} SinceTwice(times: seq<real>, from: real, later: real)
    requires from <= later
    ensures Since(Since(times, from), later) == Since(times, later)
  {
    if |times| > 0 {
      SinceTwice(times[..|times| - 1], from, later);
      SinceAppend(Since(times[..|times| - 1], from), times[|times| - 1], later);
    }
  }

  lemma SinceAppend(times: seq<real>, t: real, from: real)
    ensures Since(times + [t], from) == if t >= from then Since(times, from) + [t] else Since(times, from)
  {
    assert (times + [t])[..|times|] == times;
  }

  lemma {:induction false} LatestCallBound(calls: seq<Call>, s: Session, now: real)
    requires forall i | 0 <= i < |calls| :: calls[i].now <= now
    ensures LatestCall(calls, s).Some? ==> LatestCall(calls, s).value <= now
  {
    if |calls| > 0 {
      LatestCallBound(calls[..|calls| - 1], s, now);
    }
  }

  lemma DecideHistory(history: map<Session, seq<real>>, call: Call, limit: real, s: Session)
    ensures var recent := Since(HistoryOf(history, call.session), call.now - 1.0);
            var (allowed, next) := Decide(history, call, limit);
            && (allowed <==> |recent| as real < limit)
            && HistoryOf(next, s) ==
               (if s != call.session then HistoryOf(history, s) else if allowed then recent + [call.now] else recent)
  {}

  ghost predicate AgreesWithRecord(calls: seq<Call>, limit: real, s: Session) {
    var latest := LatestCall(calls, s);
    HistoryOf(Run(calls, limit).0, s) ==
    if latest.None? then AcceptedTimes(calls, limit, s) else Since(AcceptedTimes(calls, limit, s), latest.value - 1.0)
  }

  lemma OwnCall(calls: seq<Call>, limit: real, s: Session)
    requires |calls| > 0 && calls[|calls| - 1].session == s
    requires var call, init := calls[|calls| - 1], calls[..|calls| - 1];
             Since(HistoryOf(Run(init, limit).0, s), call.now - 1.0)
                 == Since(AcceptedTimes(init, limit, s), call.now - 1.0)
    ensures AgreesWithRecord(calls, limit, s)
  {
    var call, init := calls[|calls| - 1], calls[..|calls| - 1];
    DecideHistory(Run(init, limit).0, call, limit, s);
    SinceAppend(AcceptedTimes(init, limit, s), call.now, call.now - 1.0);
  }

  lemma OthersCall(calls: seq<Call>, limit: real, s: Session)
    requires |calls| > 0 && calls[|calls| - 1].session != s && AgreesWithRecord(calls[..|calls| - 1], limit, s)
    ensures AgreesWithRecord(calls, limit, s)
  {
    DecideHistory(Run(calls[..|calls| - 1], limit).0, calls[|calls| - 1], limit, s);
  }

  /** The pruned list is exactly the last second of the full record, as of the session's latest
      call. */
  lemma {:induction false} PrunedListIsLastSecond(calls: seq<Call>, limit: real, s: Session)
    requires TimeNeverRunsBack(calls)
    ensures AgreesWithRecord(calls, limit, s)
  {
    if |calls| > 0 {
      var call, init := calls[|calls| - 1], calls[..|calls| - 1];
      PrunedListIsLastSecond(init, limit, s);
      if s == call.session {
        SamePruning(init, limit, call);
        OwnCall(calls, limit, s);
      } else {
        OthersCall(calls, limit, s);
      }
    }
  }

  /** Pruning the pruned list for the next call gives what pruning the full record would. */
  lemma SamePruning(calls: seq<Call>, limit: real, call: Call)
    requires AgreesWithRecord(calls, limit, call.session)
    requires forall i | 0 <= i < |calls| :: calls[i].now <= call.now
    ensures Since(HistoryOf(Run(calls, limit).0, call.session), call.now - 1.0) ==
            Since(AcceptedTimes(calls, limit, call.session), call.now - 1.0)
  {
    LatestCallBound(calls, call.session, call.now);
    var latest := LatestCall(calls, call.session);
    if latest.Some? {
      SinceTwice(AcceptedTimes(calls, limit, call.session), latest.value - 1.0, call.now - 1.0);
    }
  }

  lemma {:induction false} RunLength(calls: seq<Call>, limit: real)
    ensures |Run(calls, limit).1| == |calls|
  {
    if |calls| > 0 {
      RunLength(calls[..|calls| - 1], limit);
    }
  }

  /** The reference's verdict on call `k`: fewer than `limit` of the session's accepted times lie in
      the second before it. */
  predicate BelowLimit(calls: seq<Call>, limit: real, k: nat)
    requires k < |calls|
  {
    (|Since(AcceptedTimes(calls[..k], limit, calls[k].session), calls[k].now - 1.0)| as real) < limit
  }

  lemma LastVerdict(calls: seq<Call>, limit: real)
    requires TimeNeverRunsBack(calls) && |calls| > 0
    ensures |Run(calls, limit).1| == |calls|
    ensures Run(calls, limit).1[|calls| - 1] <==> BelowLimit(calls, limit, |calls| - 1)
  {
    var call, init := calls[|calls| - 1], calls[..|calls| - 1];
    RunLength(init, limit);
    PrunedListIsLastSecond(init, limit, call.session);
    SamePruning(init, limit, call);
    DecideHistory(Run(init, limit).0, call, limit, call.session);
  }

  lemma EarlierVerdict(calls: seq<Call>, limit: real, k: nat)
    requires k < |calls| - 1
    ensures |Run(calls, limit).1| == |calls| && |Run(calls[..|calls| - 1], limit).1| == |calls| - 1
    ensures Run(calls, limit).1[k] == Run(calls[..|calls| - 1], limit).1[k]
  {
    RunLength(calls[..|calls| - 1], limit);
  }

  lemma EarlierBound(calls: seq<Call>, init: seq<Call>, limit: real, k: nat)
    requires k < |init| < |calls| && init == calls[..|init|]
    ensures BelowLimit(calls, limit, k) == BelowLimit(init, limit, k)
  {
    var prefix := calls[..k];
    assert init[..k] == prefix;
    assert init[k] == calls[k];
  }

  /** Every verdict of a run is the reference's. */
  lemma {:induction false} VerdictsMatchRecord(calls: seq<Call>, limit: real, k: nat)
    requires TimeNeverRunsBack(calls) && k < |calls|
    ensures |Run(calls, limit).1| == |calls|
    ensures Run(calls, limit).1[k] <==> BelowLimit(calls, limit, k)
  {
    if k < |calls| - 1 {
      VerdictsMatchRecord(calls[..|calls| - 1], limit, k);
      EarlierVerdict(calls, limit, k);
      EarlierBound(calls, calls[..|calls| - 1], limit, k);
    } else {
      LastVerdict(calls, limit);
    }
  }

  // ----- no burst exceeds the limit

  ghost predicate SortedUpTo(times: seq<real>, top: real) {
    forall i, j | 0 <= i <= j < |times| :: times[i] <= times[j] <= top
  }

  lemma {:induction false} AcceptedSorted(calls: seq<Call>, limit: real, s: Session, top: real)
    requires TimeNeverRunsBack(calls) && forall i | 0 <= i < |calls| :: calls[i].now <= top
    ensures SortedUpTo(AcceptedTimes(calls, limit, s), top)
  {
    if |calls| > 0 {
      AcceptedSorted(calls[..|calls| - 1], limit, s, calls[|calls| - 1].now);
    }
  }

  /** A suffix of the list that starts inside the window is wholly counted. */
  lemma {:induction false} SuffixCounted(times: seq<real>, from: real, i: nat)
    requires i <= |times| && (forall j | i <= j < |times| :: times[j] >= from)
    ensures |Since(times, from)| >= |times| - i
  {
    if i < |times| {
      SuffixCounted(times[..|times| - 1], from, i);
    }
  }

  /** Two entries at most a second apart have fewer than `limit` from one to the other. */
  ghost predicate Spaced(times: seq<real>, limit: real, i: nat, j: nat)
    requires i <= j < |times|
  {
    times[j] - times[i] <= 1.0 ==> (j - i) as real < limit
  }

  lemma LastIsSpaced(before: seq<real>, now: real, limit: real, i: nat)
    requires i <= |before| && SortedUpTo(before, now) && |Since(before, now - 1.0)| as real < limit
    ensures Spaced(before + [now], limit, i, |before|)
  {
    var all := before + [now];
    if all[|before|] - all[i] <= 1.0 {
      forall k | i <= k < |before|
        ensures before[k] >= now - 1.0
      {
        assert all[i] == before[i] <= before[k];
      }
      SuffixCounted(before, now - 1.0, i);
    }
  }

  /** Any two accepted times of a session within one second of each other have fewer than `limit`
      between them. */
  lemma {:induction false} NoBurstExceedsLimit(calls: seq<Call>, limit: real, s: Session)
    requires TimeNeverRunsBack(calls)
    ensures forall i: nat, j: nat | i <= j < |AcceptedTimes(calls, limit, s)| ::
            Spaced(AcceptedTimes(calls, limit, s), limit, i, j)
  {
    if |calls| > 0 {
      var call, init := calls[|calls| - 1], calls[..|calls| - 1];
      NoBurstExceedsLimit(init, limit, s);
      AcceptedSorted(init, limit, s, call.now);
      var before, all := AcceptedTimes(init, limit, s), AcceptedTimes(calls, limit, s);
      forall i: nat, j: nat | i <= j < |all|
        ensures Spaced(all, limit, i, j)
      {
        if j == |before| {
          LastIsSpaced(before, call.now, limit, i);
        } else {
          assert Spaced(before, limit, i, j);
        }
      }
    }
  }

  function Ceiling(x: real): int { -((-x).Floor) }

  /** Accepted times in the closed window [from, from + 1]. */
  function InWindow(times: seq<real>, from: real): seq<real> {
    if |times| == 0 then []
    else
      var rest, t := InWindow(times[..|times| - 1], from), times[|times| - 1];
      if from <= t <= from + 1.0 then rest + [t] else rest
  }

  /** In a sorted list a window is one contiguous stretch. */
  lemma {:induction false} WindowIsStretch(times: seq<real>, from: real) returns (lo: nat, hi: nat)
    requires forall i, j | 0 <= i <= j < |times| :: times[i] <= times[j]
    ensures lo <= hi <= |times| && |InWindow(times, from)| == hi - lo
    ensures forall k | lo <= k < hi :: from <= times[k] <= from + 1.0
    ensures lo == hi || hi == |times| || times[hi] > from + 1.0
  {
    if |times| == 0 {
      lo, hi := 0, 0;
    } else {
      var init, t := times[..|times| - 1], times[|times| - 1];
      lo, hi := WindowIsStretch(init, from);
      assert forall k | 0 <= k < |times| :: times[k] <= t;
      if from <= t <= from + 1.0 {
        if lo == hi {
          lo, hi := |times| - 1, |times|;
        } else {
          assert hi == |init|;
          hi := hi + 1;
        }
      } else if hi == |init| && lo < hi {
        assert times[hi - 1] >= from;
      }
    }
  }

  /** A closed one-second window holds at most ceil(limit) accepted commands of a session. */
  lemma WindowHoldsAtMostLimit(calls: seq<Call>, limit: real, s: Session, from: real)
    requires TimeNeverRunsBack(calls) && limit > 0.0
    ensures |InWindow(AcceptedTimes(calls, limit, s), from)| <= Ceiling(limit)
  {
    if |calls| > 0 {
      var a := AcceptedTimes(calls, limit, s);
      AcceptedSorted(calls, limit, s, calls[|calls| - 1].now);
      NoBurstExceedsLimit(calls, limit, s);
      var lo, hi := WindowIsStretch(a, from);
      if lo < hi {
        assert Spaced(a, limit, lo, hi - 1);
      }
    }
  }

  // ----- sessions are isolated

  function Only(calls: seq<Call>, s: Session): seq<Call> {
    if |calls| == 0 then []
    else
      var rest := Only(calls[..|calls| - 1], s);
      if calls[|calls| - 1].session == s then rest + [calls[|calls| - 1]] else rest
  }

  lemma AcceptedExtends(calls: seq<Call>, call: Call, limit: real, s: Session)
    ensures var before := AcceptedTimes(calls, limit, s);
            AcceptedTimes(calls + [call], limit, s) ==
            if call.session == s && (|Since(before, call.now - 1.0)| as real) < limit then before + [call.now]
            else before
  {
    assert (calls + [call])[..|calls|] == calls;
  }

  /** What a session is allowed depends on its own calls alone. */
  lemma {:induction false} SessionsIsolated(calls: seq<Call>, limit: real, s: Session)
    ensures AcceptedTimes(calls, limit, s) == AcceptedTimes(Only(calls, s), limit, s)
  {
    if |calls| > 0 {
      var call, init := calls[|calls| - 1], calls[..|calls| - 1];
      SessionsIsolated(init, limit, s);
      AcceptedExtends(init, call, limit, s);
      AcceptedExtends(Only(init, s), call, limit, s);
      assert calls == init + [call];
    }
  }
}
