/**
 From discovery polls to the registry, the planner and the tool list
 (src/ros_mcp/discovery/engine.py, src/ros_mcp/capabilities/coordinator.py,
 src/ros_mcp/capabilities/registry.py, src/ros_mcp/execution/planner.py,
 src/ros_mcp/mcp/tool_provider.py:44-54).
 */
module CapabilityRegistry {
  import opened RealMath
  import opened Core
  import opened Capabilities
  import opened ExecutionProtocol

  // ----- polls

  /** One `refresh_once`: the new snapshot, and the overrides the provider would answer. */
  datatype Poll = Poll(snapshot: Snapshot, overrides: Overrides)

  datatype Pipeline = Pipeline(latest: Snapshot, entries: seq<Entry>, version: nat)

  const Initial := Pipeline(EmptyGraph, [], 0)

  /** `_content_equal`: everything but the version and the time. */
  predicate ContentEqual(a: Snapshot, b: Snapshot) {
    a.nodes == b.nodes && a.topics == b.topics && a.services == b.services && a.actions == b.actions
    && a.tfFrames == b.tfFrames
  }

  /** `update`. */
  function Updated(p: Pipeline, entries: seq<Entry>): Pipeline {
    if entries == p.entries then p else p.(entries := entries, version := p.version + 1)
  }

  function Refreshed(p: Pipeline, poll: Poll, limits: Constraints): Pipeline {
    var q := p.(latest := poll.snapshot);
    if ContentEqual(p.latest, poll.snapshot) then q
    else Updated(q, Infer(poll.snapshot, poll.overrides, limits))
  }

  function Run(polls: seq<Poll>, limits: Constraints): Pipeline
    decreases |polls|
  {
    if |polls| == 0 then Initial
    else Refreshed(Run(polls[..|polls| - 1], limits), polls[|polls| - 1], limits)
  }

  // ----- the three objects

  class Registry {
    var entries: seq<Entry>
    var version: nat

    constructor ()
      ensures entries == [] && version == 0
    {
      entries, version := [], 0;
    }

    method Get(id: string) returns (entry: Option<Entry>)
      ensures entry == FirstMatch(entries, id)
    {
      for i := 0 to |entries|
        invariant FirstMatch(entries, id) == FirstMatch(entries[i..], id)
      {
        if entries[i].id == id {
          return Some(entries[i]);
        }
        assert entries[i..][1..] == entries[i + 1..];
      }
      return None;
    }

    method Update(newEntries: seq<Entry>) returns (changed: bool)
      modifies this
      ensures changed == (newEntries != old(entries)) && entries == newEntries
      ensures version == old(version) + (if changed then 1 else 0)
    {
      changed := newEntries != entries;
      if changed {
        entries := newEntries;
        version := version + 1;
      }
    }
  }

  /** The discovery engine with the coordinator as its one subscriber. */
  class DiscoveryEngine {
    const registry: Registry
    const limits: Constraints
    var latest: Snapshot

    ghost function View(): Pipeline
      reads this, registry
    {
      Pipeline(latest, registry.entries, registry.version)
    }

    constructor (limits: Constraints)
      ensures View() == Initial && this.limits == limits && fresh(registry)
    {
      var r := new Registry();
      registry, this.limits, latest := r, limits, EmptyGraph;
    }

    /** `refresh_once`. */
    method RefreshOnce(snapshot: Snapshot, overrides: Overrides)
      modifies this, registry
      ensures View() == Refreshed(old(View()), Poll(snapshot, overrides), limits)
    {
      var changed := !ContentEqual(latest, snapshot);
      latest := snapshot;
      if changed {
        OnSnapshotChanged(snapshot, overrides);
      }
    }

    /** The coordinator's callback. */
    method OnSnapshotChanged(snapshot: Snapshot, overrides: Overrides)
      modifies registry
      ensures View() == Updated(old(View()), Infer(snapshot, overrides, limits))
    {
      var entries := Infer(snapshot, overrides, limits);
      var _ := registry.Update(entries);
    }
  }

  // ----- cache coherence

  /** The overrides that were in force when the content last changed. */
  function OverridesAtChange(polls: seq<Poll>, limits: Constraints, start: Overrides): Overrides
    decreases |polls|
  {
    if |polls| == 0 then start
    else
      var init, poll := polls[..|polls| - 1], polls[|polls| - 1];
      if ContentEqual(Run(init, limits).latest, poll.snapshot) then OverridesAtChange(init, limits, start)
      else poll.overrides
  }

  /** Inference reads nothing that a content-equal snapshot could differ in. */
  lemma EqualContentSameEntries(a: Snapshot, b: Snapshot, o: Overrides, limits: Constraints)
    requires ContentEqual(a, b)
    ensures Infer(a, o, limits) == Infer(b, o, limits)
  {}

  /** After any sequence of polls the registry holds exactly the inference over the latest snapshot,
      with the overrides of the last content change, although most polls skip the update. */
  lemma {:induction false} RegistryIsCoherent(polls: seq<Poll>, limits: Constraints, start: Overrides)
    ensures var p := Run(polls, limits); p.entries == Infer(p.latest, OverridesAtChange(polls, limits, start), limits)
  {
    if |polls| == 0 {
      NothingFromEmptyGraph(start, limits);
    } else {
      var init, poll := polls[..|polls| - 1], polls[|polls| - 1];
      RegistryIsCoherent(init, limits, start);
      var before := Run(init, limits);
      if ContentEqual(before.latest, poll.snapshot) {
        EqualContentSameEntries(before.latest, poll.snapshot, OverridesAtChange(init, limits, start), limits);
      }
    }
  }

  lemma {:induction false} ConstantOverrides(polls: seq<Poll>, limits: Constraints, o: Overrides)
    requires forall i | 0 <= i < |polls| :: polls[i].overrides == o
    ensures OverridesAtChange(polls, limits, o) == o
  {
    if |polls| > 0 { ConstantOverrides(polls[..|polls| - 1], limits, o); }
  }

  /** With a configuration that does not change, the registry is always the inference over the latest
      snapshot. */
  lemma {:induction false} RegistryIsInference(polls: seq<Poll>, limits: Constraints, o: Overrides)
    requires forall i | 0 <= i < |polls| :: polls[i].overrides == o
    ensures Run(polls, limits).entries == Infer(Run(polls, limits).latest, o, limits)
  {
    RegistryIsCoherent(polls, limits, o);
    ConstantOverrides(polls, limits, o);
  }

  /** The polls after which the entries differ from before. */
  function EntryChanges(polls: seq<Poll>, limits: Constraints): set<nat>
    decreases |polls|
  {
    if |polls| == 0 then {}
    else
      var init := polls[..|polls| - 1];
      EntryChanges(init, limits) + (if Run(polls, limits).entries != Run(init, limits).entries then {|init|} else {})
  }

  lemma {:induction false} EntryChangesBound(polls: seq<Poll>, limits: Constraints)
    ensures forall i | i in EntryChanges(polls, limits) :: i < |polls|
  {
    if |polls| > 0 { EntryChangesBound(polls[..|polls| - 1], limits); }
  }

  /** The version counts exactly the polls that changed the entries. */
  lemma {:induction false} VersionCountsChanges(polls: seq<Poll>, limits: Constraints)
    ensures Run(polls, limits).version == |EntryChanges(polls, limits)|
  {
    if |polls| > 0 {
      VersionCountsChanges(polls[..|polls| - 1], limits);
      EntryChangesBound(polls[..|polls| - 1], limits);
    }
  }

  /** A snapshot that only reports the same graph in another order never changes the version. */
  lemma ReorderingIsNoChange(p: Pipeline, poll: Poll, limits: Constraints)
    requires p.entries == Infer(p.latest, poll.overrides, limits) && SameGraph(p.latest, poll.snapshot)
    ensures Refreshed(p, poll, limits) == p.(latest := poll.snapshot)
  {
    InferenceIgnoresOrder(p.latest, poll.snapshot, poll.overrides, limits);
  }

  // ----- two ways to look an entry up

  /** `registry.get`: the first entry with this id. */
  function FirstMatch(entries: seq<Entry>, id: string): Option<Entry> {
    if |entries| == 0 then None
    else if entries[0].id == id then Some(entries[0])
    else FirstMatch(entries[1..], id)
  }

  /** The tool provider's dictionary: later entries overwrite earlier ones. */
  function ById(entries: seq<Entry>): map<string, Entry>
    decreases |entries|
  {
    if |entries| == 0 then map[]
    else ById(entries[..|entries| - 1])[entries[|entries| - 1].id := entries[|entries| - 1]]
  }

  lemma {:induction false} ByIdHolds(entries: seq<Entry>, id: string)
    ensures id in ById(entries) <==> exists i :: 0 <= i < |entries| && entries[i].id == id
    ensures id in ById(entries) ==> ById(entries)[id] in entries && ById(entries)[id].id == id
  {
    if |entries| > 0 {
      var init, last := entries[..|entries| - 1], entries[|entries| - 1];
      ByIdHolds(init, id);
      if id in ById(init) {
        var i :| 0 <= i < |init| && init[i].id == id;
        assert entries[i].id == id;
      }
    }
  }

  lemma {:induction false} FirstMatchHolds(entries: seq<Entry>, id: string)
    ensures FirstMatch(entries, id).Some? <==> exists i :: 0 <= i < |entries| && entries[i].id == id
    ensures FirstMatch(entries, id).Some? ==>
              FirstMatch(entries, id).value in entries && FirstMatch(entries, id).value.id == id
  {
    if |entries| > 0 {
      FirstMatchHolds(entries[1..], id);
      if FirstMatch(entries[1..], id).Some? {
        var i :| 0 <= i < |entries[1..]| && entries[1..][i].id == id;
        assert entries[i + 1].id == id;
      }
    }
  }

  /** With distinct ids both look-ups agree. */
  lemma LookupsAgree(entries: seq<Entry>, id: string)
    requires DistinctIds(entries)
    ensures FirstMatch(entries, id) == if id in ById(entries) then Some(ById(entries)[id]) else None
  {
    ByIdHolds(entries, id);
    FirstMatchHolds(entries, id);
  }

  // ----- the tool list and the planner

  datatype ToolDefinition = ToolDefinition(name: string, required: Option<string>)

  const ToolDefinitions := [
    ToolDefinition("robot.get_capabilities", None),
    ToolDefinition("robot.get_state", None),
    ToolDefinition("robot.move", Some(MotionId)),
    ToolDefinition("robot.stop", Some(MotionId)),
    ToolDefinition("robot.navigate", Some(NavigationId)),
    ToolDefinition("robot.get_laser_scan", Some(RangeId)),
    ToolDefinition("robot.get_camera_image", Some(VisualId)),
    ToolDefinition("robot.detect_objects", Some(DetectionId))]

  predicate Usable(e: Option<Entry>) { e.Some? && e.value.confidence != Ambiguous }

  predicate Exposed(d: ToolDefinition, entries: seq<Entry>) {
    d.required.None? || (d.required.value in ById(entries) && ById(entries)[d.required.value].confidence != Ambiguous)
  }

  /** The exposed ones among the first `k` definitions, in their order. */
  function ToolNames(entries: seq<Entry>, k: nat): seq<string>
    requires k <= 8
  {
    if k == 0 then []
    else
      var d := ToolDefinitions[k - 1];
      ToolNames(entries, k - 1) + (if Exposed(d, entries) then [d.name] else [])
  }

  /** `current_tools`. */
  method CurrentTools(entries: seq<Entry>) returns (tools: seq<string>)
    ensures tools == ToolNames(entries, 8)
  {
    var byId := ById(entries);
    tools := [];
    for i := 0 to 8
      invariant tools == ToolNames(entries, i)
    {
      var d := ToolDefinitions[i];
      if d.required.None? {
        tools := tools + [d.name];
      } else if d.required.value in byId && byId[d.required.value].confidence != Ambiguous {
        tools := tools + [d.name];
      }
    }
  }

  lemma {:induction false} ToolNamesAre(entries: seq<Entry>, k: nat, name: string)
    requires k <= 8
    ensures name in ToolNames(entries, k) <==>
            exists j: nat :: j < k && ToolDefinitions[j].name == name && Exposed(ToolDefinitions[j], entries)
  {
    if k > 0 { ToolNamesAre(entries, k - 1, name); }
  }

  /** The tool list shows this tool. */
  predicate Listed(name: string, entries: seq<Entry>) { name in ToolNames(entries, 8) }

  datatype Backend = MotionBackend | NavigationBackend

  /** `select_backend`; the navigation plugin's `is_available` reads the same registry. */
  function SelectBackend(w: Wiring, op: Operation, entries: seq<Entry>): Option<Backend> {
    match op
    case MoveOp => if Usable(FirstMatch(entries, MotionId)) && w.hasMotion then Some(MotionBackend) else None
    case StopOp => if Usable(FirstMatch(entries, MotionId)) && w.hasMotion then Some(MotionBackend) else None
    case NavigateOp =>
      if Usable(FirstMatch(entries, NavigationId)) && FirstMatch(entries, LocalizationId).Some? && w.hasNavigation
      then Some(NavigationBackend) else None
    case OtherOp => None
  }

  lemma ListedExactly(entries: seq<Entry>, k: nat)
    requires DistinctIds(entries) && k < 8
    ensures Listed(ToolDefinitions[k].name, entries) <==>
            (ToolDefinitions[k].required.None? || Usable(FirstMatch(entries, ToolDefinitions[k].required.value)))
  {
    ToolNamesDiffer();
    ToolNamesAre(entries, 8, ToolDefinitions[k].name);
    if ToolDefinitions[k].required.Some? { LookupsAgree(entries, ToolDefinitions[k].required.value); }
    if Listed(ToolDefinitions[k].name, entries) {
      var j: nat :| j < 8 && ToolDefinitions[j].name == ToolDefinitions[k].name && Exposed(ToolDefinitions[j], entries);
      assert j == k;
    }
  }

  /** The capability behind a tool is usable. */
  predicate Needs(entries: seq<Entry>, id: string) {
    FirstMatch(entries, id).Some? && FirstMatch(entries, id).value.confidence != Ambiguous
  }

  /** The tools by name: the two that ask about the robot are always listed, the others for their own
      capability. */
  lemma ListedByName(entries: seq<Entry>)
    requires DistinctIds(entries)
    ensures Listed("robot.get_capabilities", entries) && Listed("robot.get_state", entries)
    ensures Listed("robot.move", entries) <==> Needs(entries, "differential_drive_motion")
    ensures Listed("robot.stop", entries) <==> Needs(entries, "differential_drive_motion")
    ensures Listed("robot.navigate", entries) <==> Needs(entries, "autonomous_navigation")
    ensures Listed("robot.get_laser_scan", entries) <==> Needs(entries, "range_sensing")
    ensures Listed("robot.get_camera_image", entries) <==> Needs(entries, "visual_observation")
    ensures Listed("robot.detect_objects", entries) <==> Needs(entries, "object_detection")
  {
    ListedExactly(entries, 0);
    ListedExactly(entries, 1);
    ListedExactly(entries, 2);
    ListedExactly(entries, 3);
    ListedExactly(entries, 4);
    ListedExactly(entries, 5);
    ListedExactly(entries, 6);
    ListedExactly(entries, 7);
  }

  /** What the planner offers, by operation. */
  lemma OfferedExactly(w: Wiring, entries: seq<Entry>)
    ensures SelectBackend(w, MoveOp, entries)
            == if Needs(entries, "differential_drive_motion") && w.hasMotion then Some(MotionBackend) else None
    ensures SelectBackend(w, StopOp, entries) == SelectBackend(w, MoveOp, entries)
    ensures SelectBackend(w, NavigateOp, entries)
            == if Needs(entries, "autonomous_navigation") && FirstMatch(entries, "localization").Some?
                  && w.hasNavigation
               then Some(NavigationBackend) else None
    ensures SelectBackend(w, OtherOp, entries) == None
  {}

  lemma ToolNamesDiffer()
    ensures forall i: nat, j: nat | i < j < 8 :: ToolDefinitions[i].name != ToolDefinitions[j].name
  {
    var lengths := [22, 15, 10, 10, 14, 20, 22, 20];
    assert forall i: nat | i < 8 :: |ToolDefinitions[i].name| == lengths[i];
    assert "robot.move"[6] == 'm' && "robot.stop"[6] == 's';
    assert "robot.get_laser_scan"[6] == 'g' && "robot.detect_objects"[6] == 'd';
    assert "robot.get_capabilities"[11] == 'a' && "robot.get_camera_image"[12] == 'm'
        && "robot.get_capabilities"[12] == 'p';
  }

  lemma MoveAgrees(entries: seq<Entry>, w: Wiring)
    requires DistinctIds(entries) && w.hasMotion
    ensures Listed("robot.move", entries) <==> SelectBackend(w, MoveOp, entries) == Some(MotionBackend)
    ensures Listed("robot.stop", entries) <==> SelectBackend(w, StopOp, entries) == Some(MotionBackend)
  {
    ListedExactly(entries, 2);
    ListedExactly(entries, 3);
  }

  /** After any polls with an unchanging configuration: `robot.move` is listed exactly when the planner
      offers the motion backend (if the server was built with one), and `robot.stop` likewise. */
  lemma {:induction false} MoveListedExactlyWhenOffered(polls: seq<Poll>, limits: Constraints, o: Overrides, w: Wiring)
    requires w.hasMotion && forall i | 0 <= i < |polls| :: polls[i].overrides == o
    ensures var entries := Run(polls, limits).entries;
            && (Listed("robot.move", entries) <==> SelectBackend(w, MoveOp, entries) == Some(MotionBackend))
            && (Listed("robot.stop", entries) <==> SelectBackend(w, StopOp, entries) == Some(MotionBackend))
  {
    RegistryIsInference(polls, limits, o);
    InferredIdsAreDistinct(Run(polls, limits).latest, o, limits);
    MoveAgrees(Run(polls, limits).entries, w);
  }

  lemma MotionFound(s: Snapshot, o: Overrides, limits: Constraints)
    ensures FirstMatch(Infer(s, o, limits), MotionId) == InferMotion(s, o, limits)
  {
    var entries := Infer(s, o, limits);
    FirstMatchHolds(entries, MotionId);
    RulesBearTheirIds(s, o, limits);
    IdsDiffer();
    if InferMotion(s, o, limits).Some? {
      assert entries[0] == InferMotion(s, o, limits).value;
    }
  }

  lemma {:induction false} MoveListedForGraph(s: Snapshot, o: Overrides, limits: Constraints)
    ensures Listed("robot.move", Infer(s, o, limits)) <==> Usable(InferMotion(s, o, limits))
  {
    InferredIdsAreDistinct(s, o, limits);
    ListedExactly(Infer(s, o, limits), 2);
    MotionFound(s, o, limits);
  }

  /** From the graph to the client: after any polls `robot.move` is listed exactly when the latest graph
      is drivable. */
  lemma {:induction false} MoveListedExactlyWhenDrivable(polls: seq<Poll>, limits: Constraints, o: Overrides)
    requires forall i | 0 <= i < |polls| :: polls[i].overrides == o
    ensures Listed("robot.move", Run(polls, limits).entries) <==> Drivable(Run(polls, limits).latest, o)
  {
    RegistryIsInference(polls, limits, o);
    var latest := Run(polls, limits).latest;
    MoveListedForGraph(latest, o, limits);
    MotionExactly(latest, o, limits);
  }

  /** The non-speculation rule for navigation is only half of the planner's: an offer needs the tool
      listed, and also a localization capability and a navigation backend. */
  lemma {:induction false} NavigateOfferedExactly(polls: seq<Poll>, limits: Constraints, o: Overrides, w: Wiring)
    requires forall i | 0 <= i < |polls| :: polls[i].overrides == o
    ensures var p := Run(polls, limits);
            SelectBackend(w, NavigateOp, p.entries) == Some(NavigationBackend) <==>
            Listed("robot.navigate", p.entries) && InferLocalization(p.latest).Some? && w.hasNavigation
  {
    RegistryIsInference(polls, limits, o);
    var p := Run(polls, limits);
    InferredIdsAreDistinct(p.latest, o, limits);
    ListedExactly(p.entries, 4);
    LocalizationFound(p.latest, o, limits);
  }

  lemma LocalizationFound(s: Snapshot, o: Overrides, limits: Constraints)
    ensures FirstMatch(Infer(s, o, limits), LocalizationId).Some? <==> InferLocalization(s).Some?
  {
    var entries := Infer(s, o, limits);
    FirstMatchHolds(entries, LocalizationId);
    RulesBearTheirIds(s, o, limits);
    IdsDiffer();
    var before := ListOf(InferMotion(s, o, limits)) + ListOf(InferNavigation(s, o, limits));
    if InferLocalization(s).Some? {
      assert entries[|before|] == InferLocalization(s).value;
    }
  }

  /** A robot with a Nav2 server and no localization. */
  const Unlocalized := Snapshot(1, 0, [], [], [], [ActionServer("/navigate_to_pose", NavigateType, "")], [])

  lemma UnlocalizedNavigation(limits: Constraints, o: Overrides)
    requires o.navigationEnabled
    ensures var e := InferNavigation(Unlocalized, o, limits); e.Some? && e.value.confidence != Ambiguous
    ensures InferLocalization(Unlocalized).None? && InferMotion(Unlocalized, o, limits).None?
  {
    var actions := Unlocalized.actions;
    assert actions[..|actions| - 1] == [];
    assert NavigateServers(actions) == ["/navigate_to_pose"];
  }

  /** There `robot.navigate` is listed and the planner refuses it. */
  lemma NavigateCanBeListedUnoffered(limits: Constraints, o: Overrides, w: Wiring)
    requires o.navigationEnabled
    ensures var entries := Run([Poll(Unlocalized, o)], limits).entries;
            Listed("robot.navigate", entries) && SelectBackend(w, NavigateOp, entries) == None
  {
    var polls := [Poll(Unlocalized, o)];
    assert polls[..0] == [];
    RegistryIsInference(polls, limits, o);
    InferredIdsAreDistinct(Unlocalized, o, limits);
    var entries := Run(polls, limits).entries;
    ListedExactly(entries, 4);
    LocalizationFound(Unlocalized, o, limits);
    RulesBearTheirIds(Unlocalized, o, limits);
    UnlocalizedNavigation(limits, o);
    assert entries[0] == InferNavigation(Unlocalized, o, limits).value;
  }
}
