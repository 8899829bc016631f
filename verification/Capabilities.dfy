/**
 Capability inference: the ontology's rules, their composition, and what the inferred list means
 (src/ros_mcp/capabilities/ontology.py, src/ros_mcp/capabilities/inference.py).
 */
module Capabilities {
  import opened RealMath
  import opened Core

  /** A topic; `detail` stands for its publishers, subscribers, QoS and measurements. */
  datatype Topic = Topic(name: string, typeName: string, detail: string)

  datatype ActionServer = ActionServer(name: string, typeName: string, detail: string)

  datatype Snapshot = Snapshot(
    version: nat, takenAt: int, nodes: seq<string>, topics: seq<Topic>, services: seq<string>,
    actions: seq<ActionServer>, tfFrames: seq<string>)

  const EmptyGraph := Snapshot(0, 0, [], [], [], [], [])

  datatype Confidence = Confirmed | Likely | Ambiguous

  datatype Entry = Entry(
    id: string, confidence: Confidence, backend: string, resolved: map<string, string>, limits: map<string, real>)

  /** `CapabilityConfig`: what the operator configured. */
  datatype Overrides = Overrides(
    motionEnabled: bool, cmdVelTopic: string, odomTopic: string, navigationEnabled: bool, actionName: string,
    lidarTopic: string, imageTopic: string, detector: string)

  const TwistTypes := {"geometry_msgs/msg/Twist", "geometry_msgs/msg/TwistStamped"}
  const OdomTypes := {"nav_msgs/msg/Odometry"}
  const ScanTypes := {"sensor_msgs/msg/LaserScan"}
  const ImageTypes := {"sensor_msgs/msg/Image", "sensor_msgs/msg/CompressedImage"}
  const PoseTypes := {"geometry_msgs/msg/PoseWithCovarianceStamped"}
  const NavigateType := "nav2_msgs/action/NavigateToPose"

  const MotionId := "differential_drive_motion"
  const NavigationId := "autonomous_navigation"
  const LocalizationId := "localization"
  const RangeId := "range_sensing"
  const VisualId := "visual_observation"
  const DetectionId := "object_detection"

  /** The names of the topics of these types, in order. */
  function NamesOfTypes(topics: seq<Topic>, types: set<string>): seq<string>
    decreases |topics|
  {
    if |topics| == 0 then []
    else
      var rest, t := NamesOfTypes(topics[..|topics| - 1], types), topics[|topics| - 1];
      if t.typeName in types then rest + [t.name] else rest
  }

  function NavigateServers(actions: seq<ActionServer>): seq<string>
    decreases |actions|
  {
    if |actions| == 0 then []
    else
      var rest, a := NavigateServers(actions[..|actions| - 1]), actions[|actions| - 1];
      if a.typeName == NavigateType then rest + [a.name] else rest
  }

  /** Which candidate is meant: the configured one; else the only one; else nobody knows. */
  function Resolve(candidates: seq<string>, configured: string): Option<(Confidence, string)> {
    if |candidates| == 0 then None
    else if configured in candidates then Some((Confirmed, configured))
    else if |candidates| == 1 then Some((Likely, candidates[0]))
    else Some((Ambiguous, ""))
  }

  function SingleTopic(id: string, backend: string, configured: string, candidates: seq<string>,
                       key: string): Option<Entry> {
    match Resolve(candidates, configured)
    case None => None
    case Some((confidence, name)) =>
      Some(Entry(id, confidence, backend, if confidence == Ambiguous then map[] else map[key := name], map[]))
  }

  function InferMotion(s: Snapshot, o: Overrides, limits: Constraints): Option<Entry> {
    var twists, odoms := NamesOfTypes(s.topics, TwistTypes), NamesOfTypes(s.topics, OdomTypes);
    if !o.motionEnabled || |twists| == 0 || |odoms| == 0 then None
    else
      var confidence :=
        if o.cmdVelTopic in twists && o.odomTopic in odoms then Confirmed
        else if |twists| == 1 && |odoms| == 1 then Likely else Ambiguous;
      var resolved := match confidence
        case Confirmed => map["cmd_vel" := o.cmdVelTopic, "odom" := o.odomTopic]
        case Likely => map["cmd_vel" := twists[0], "odom" := odoms[0]]
        case Ambiguous => map[];
      Some(Entry(MotionId, confidence, "cmd_vel", resolved,
                 map["max_linear_mps" := limits.maxLinear, "max_angular_rps" := limits.maxAngular,
                     "max_move_distance_m" := limits.maxMoveDistance]))
  }

  function InferNavigation(s: Snapshot, o: Overrides, limits: Constraints): Option<Entry> {
    if !o.navigationEnabled then None
    else match Resolve(NavigateServers(s.actions), o.actionName)
      case None => None
      case Some((confidence, name)) =>
        Some(Entry(NavigationId, confidence, "nav2",
                   if name == "" then map[] else map["navigate_to_pose_action" := name],
                   map["max_navigation_distance_m" := limits.maxNavigationDistance]))
  }

  function InferLocalization(s: Snapshot): Option<Entry> {
    if "/amcl_pose" in NamesOfTypes(s.topics, PoseTypes) then
      Some(Entry(LocalizationId, Confirmed, "amcl", map["amcl_pose" := "/amcl_pose"], map[]))
    else if "map" in s.tfFrames && |s.tfFrames| > 1 then Some(Entry(LocalizationId, Likely, "tf", map[], map[]))
    else None
  }

  function InferRange(s: Snapshot, o: Overrides): Option<Entry> {
    SingleTopic(RangeId, "laser_scan", o.lidarTopic, NamesOfTypes(s.topics, ScanTypes), "scan")
  }

  function InferVisual(s: Snapshot, o: Overrides): Option<Entry> {
    SingleTopic(VisualId, "camera", o.imageTopic, NamesOfTypes(s.topics, ImageTypes), "image")
  }

  function InferDetection(visual: Option<Entry>, o: Overrides): Option<Entry> {
    if visual.None? then None
    else Some(Entry(DetectionId, visual.value.confidence, o.detector, visual.value.resolved, map[]))
  }

  function ListOf(e: Option<Entry>): seq<Entry> {
    if e.Some? then [e.value] else []
  }

  /** The rules' answers that are not None, in the source's order. */
  function Collect(motion: Option<Entry>, navigation: Option<Entry>, localization: Option<Entry>,
                   range: Option<Entry>, visual: Option<Entry>, detection: Option<Entry>): seq<Entry> {
    ListOf(motion) + ListOf(navigation) + ListOf(localization) + ListOf(range) + ListOf(visual) + ListOf(detection)
  }

  /** `infer`. */
  function Infer(s: Snapshot, o: Overrides, limits: Constraints): seq<Entry> {
    var visual := InferVisual(s, o);
    Collect(InferMotion(s, o, limits), InferNavigation(s, o, limits), InferLocalization(s), InferRange(s, o),
            visual, InferDetection(visual, o))
  }

  // ----- what the list means

  ghost predicate DistinctIds(entries: seq<Entry>) {
    forall i, j | 0 <= i < j < |entries| :: entries[i].id != entries[j].id
  }

  predicate Bears(e: Option<Entry>, id: string) { e.Some? ==> e.value.id == id }

  /** One more entry, with an id of its own. */
  lemma AppendDistinct(entries: seq<Entry>, e: Option<Entry>, id: string, ids: set<string>)
    requires DistinctIds(entries) && Bears(e, id) && id !in ids
             && (forall i | 0 <= i < |entries| :: entries[i].id in ids)
    ensures DistinctIds(entries + ListOf(e))
    ensures forall i | 0 <= i < |entries + ListOf(e)| :: (entries + ListOf(e))[i].id in ids + {id}
  {}

  lemma IdsDiffer()
    ensures |MotionId| == 25 && |NavigationId| == 21 && |LocalizationId| == 12
    ensures |RangeId| == 13 && |VisualId| == 18 && |DetectionId| == 16
  {}

  lemma CollectedIdsAreDistinct(motion: Option<Entry>, navigation: Option<Entry>, localization: Option<Entry>,
                                range: Option<Entry>, visual: Option<Entry>, detection: Option<Entry>)
    requires Bears(motion, MotionId) && Bears(navigation, NavigationId) && Bears(localization, LocalizationId)
    requires Bears(range, RangeId) && Bears(visual, VisualId) && Bears(detection, DetectionId)
    ensures DistinctIds(Collect(motion, navigation, localization, range, visual, detection))
  {
    IdsDiffer();
    AppendDistinct([], motion, MotionId, {});
    var a := [] + ListOf(motion);
    AppendDistinct(a, navigation, NavigationId, {} + {MotionId});
    var b := a + ListOf(navigation);
    AppendDistinct(b, localization, LocalizationId, {MotionId} + {NavigationId});
    var c := b + ListOf(localization);
    AppendDistinct(c, range, RangeId, {MotionId, NavigationId} + {LocalizationId});
    var d := c + ListOf(range);
    AppendDistinct(d, visual, VisualId, {MotionId, NavigationId, LocalizationId} + {RangeId});
    var e := d + ListOf(visual);
    AppendDistinct(e, detection, DetectionId, {MotionId, NavigationId, LocalizationId, RangeId} + {VisualId});
    assert a == ListOf(motion);
  }

  lemma RulesBearTheirIds(s: Snapshot, o: Overrides, limits: Constraints)
    ensures Bears(InferMotion(s, o, limits), MotionId) && Bears(InferNavigation(s, o, limits), NavigationId)
    ensures Bears(InferLocalization(s), LocalizationId) && Bears(InferRange(s, o), RangeId)
    ensures Bears(InferVisual(s, o), VisualId) && Bears(InferDetection(InferVisual(s, o), o), DetectionId)
  {}

  /** At most one entry per capability. */
  lemma {:induction false} InferredIdsAreDistinct(s: Snapshot, o: Overrides, limits: Constraints)
    ensures DistinctIds(Infer(s, o, limits))
  {
    RulesBearTheirIds(s, o, limits);
    var visual := InferVisual(s, o);
    CollectedIdsAreDistinct(InferMotion(s, o, limits), InferNavigation(s, o, limits), InferLocalization(s),
                            InferRange(s, o), visual, InferDetection(visual, o));
  }

  /** Nothing is inferred from an empty graph. */
  lemma NothingFromEmptyGraph(o: Overrides, limits: Constraints)
    ensures Infer(EmptyGraph, o, limits) == []
  {}

  /** The same graph reported in another order. */
  ghost predicate SameGraph(s: Snapshot, t: Snapshot) {
    && multiset(s.topics) == multiset(t.topics) && multiset(s.actions) == multiset(t.actions)
    && multiset(s.tfFrames) == multiset(t.tfFrames)
  }

  lemma {:induction false} NamesCount(topics: seq<Topic>, types: set<string>, name: string)
    ensures name in NamesOfTypes(topics, types) <==> exists t :: t in topics && t.typeName in types && t.name == name
  {
    if |topics| > 0 {
      var init, last := topics[..|topics| - 1], topics[|topics| - 1];
      NamesCount(init, types, name);
      assert topics == init + [last];
    }
  }

  /** The topics of these types. */
  function OfTypes(topics: seq<Topic>, types: set<string>): multiset<Topic>
    decreases |topics|
  {
    if |topics| == 0 then multiset{}
    else
      var rest, t := OfTypes(topics[..|topics| - 1], types), topics[|topics| - 1];
      if t.typeName in types then rest + multiset{t} else rest
  }

  lemma {:induction false} OfTypesCounts(topics: seq<Topic>, types: set<string>, t: Topic)
    ensures OfTypes(topics, types)[t] == if t.typeName in types then multiset(topics)[t] else 0
  {
    if |topics| > 0 {
      assert topics == topics[..|topics| - 1] + [topics[|topics| - 1]];
      OfTypesCounts(topics[..|topics| - 1], types, t);
    }
  }

  lemma {:induction false} NamesAsMany(topics: seq<Topic>, types: set<string>)
    ensures |NamesOfTypes(topics, types)| == |OfTypes(topics, types)|
  {
    if |topics| > 0 { NamesAsMany(topics[..|topics| - 1], types); }
  }

  /** Reordered topics give as many names, and the same ones. */
  lemma NamesReordered(s: seq<Topic>, t: seq<Topic>, types: set<string>, configured: string)
    requires multiset(s) == multiset(t)
    ensures |NamesOfTypes(s, types)| == |NamesOfTypes(t, types)|
    ensures configured in NamesOfTypes(s, types) <==> configured in NamesOfTypes(t, types)
    ensures |NamesOfTypes(s, types)| == 1 ==> NamesOfTypes(s, types) == NamesOfTypes(t, types)
  {
    NamesAsMany(s, types);
    NamesAsMany(t, types);
    forall x: Topic ensures OfTypes(s, types)[x] == OfTypes(t, types)[x] {
      OfTypesCounts(s, types, x);
      OfTypesCounts(t, types, x);
    }
    assert OfTypes(s, types) == OfTypes(t, types);
    SameMembers(s, t, types, configured);
    var ns, nt := NamesOfTypes(s, types), NamesOfTypes(t, types);
    if |ns| == 1 {
      SameMembers(s, t, types, ns[0]);
      assert ns[0] in ns;
    }
  }

  lemma SameMembers(s: seq<Topic>, t: seq<Topic>, types: set<string>, name: string)
    requires multiset(s) == multiset(t)
    ensures name in NamesOfTypes(s, types) <==> name in NamesOfTypes(t, types)
  {
    NamesCount(s, types, name);
    NamesCount(t, types, name);
    forall x: Topic ensures x in s <==> x in t {
      assert x in multiset(s) <==> x in multiset(t);
    }
  }

  function ServersAmong(actions: seq<ActionServer>): multiset<ActionServer>
    decreases |actions|
  {
    if |actions| == 0 then multiset{}
    else
      var rest, a := ServersAmong(actions[..|actions| - 1]), actions[|actions| - 1];
      if a.typeName == "nav2_msgs/action/NavigateToPose" then rest + multiset{a} else rest
  }

  lemma {:induction false} ServersCount(actions: seq<ActionServer>, a: ActionServer)
    ensures ServersAmong(actions)[a] == if a.typeName == NavigateType then multiset(actions)[a] else 0
    ensures |NavigateServers(actions)| == |ServersAmong(actions)|
  {
    if |actions| > 0 {
      assert actions == actions[..|actions| - 1] + [actions[|actions| - 1]];
      ServersCount(actions[..|actions| - 1], a);
    }
  }

  lemma {:induction false} ServerNames(actions: seq<ActionServer>, name: string)
    ensures name in NavigateServers(actions) <==>
            exists a :: a in actions && a.typeName == NavigateType && a.name == name
  {
    if |actions| > 0 {
      var init, last := actions[..|actions| - 1], actions[|actions| - 1];
      ServerNames(init, name);
      assert actions == init + [last];
    }
  }

  lemma SameServers(s: seq<ActionServer>, t: seq<ActionServer>, name: string)
    requires multiset(s) == multiset(t)
    ensures name in NavigateServers(s) <==> name in NavigateServers(t)
  {
    ServerNames(s, name);
    ServerNames(t, name);
    forall x: ActionServer ensures x in s <==> x in t {
      assert x in multiset(s) <==> x in multiset(t);
    }
  }

  lemma ServersReordered(s: seq<ActionServer>, t: seq<ActionServer>, configured: string)
    requires multiset(s) == multiset(t)
    ensures Resolve(NavigateServers(s), configured) == Resolve(NavigateServers(t), configured)
  {
    forall x: ActionServer ensures ServersAmong(s)[x] == ServersAmong(t)[x] {
      ServersCount(s, x);
      ServersCount(t, x);
    }
    assert ServersAmong(s) == ServersAmong(t);
    ServersCount(s, ActionServer("", "", ""));
    ServersCount(t, ActionServer("", "", ""));
    SameServers(s, t, configured);
    var ns, nt := NavigateServers(s), NavigateServers(t);
    if |ns| == 1 {
      SameServers(s, t, ns[0]);
      assert ns[0] in ns;
    }
  }

  /** What is inferred depends only on which topics, actions and frames there are, not on the order
      the graph reports them in: a reordered snapshot counts as changed content, but yields the very
      same entries. */
  lemma {:induction false} InferenceIgnoresOrder(s: Snapshot, t: Snapshot, o: Overrides, limits: Constraints)
    requires SameGraph(s, t)
    ensures Infer(s, o, limits) == Infer(t, o, limits)
  {
    NamesReordered(s.topics, t.topics, TwistTypes, o.cmdVelTopic);
    NamesReordered(s.topics, t.topics, OdomTypes, o.odomTopic);
    NamesReordered(s.topics, t.topics, ScanTypes, o.lidarTopic);
    NamesReordered(s.topics, t.topics, ImageTypes, o.imageTopic);
    NamesReordered(s.topics, t.topics, PoseTypes, "/amcl_pose");
    ServersReordered(s.actions, t.actions, o.actionName);
    assert |s.tfFrames| == |multiset(s.tfFrames)| == |multiset(t.tfFrames)| == |t.tfFrames|;
    assert "map" in multiset(s.tfFrames) <==> "map" in multiset(t.tfFrames);
    assert InferMotion(s, o, limits) == InferMotion(t, o, limits);
    assert InferNavigation(s, o, limits) == InferNavigation(t, o, limits);
    assert InferLocalization(s) == InferLocalization(t);
    assert InferRange(s, o) == InferRange(t, o) && InferVisual(s, o) == InferVisual(t, o);
  }

  // ----- what each confidence claims

  /** A topic of this name and one of these types is in the graph. */
  ghost predicate HasTopic(s: Snapshot, name: string, types: set<string>) {
    exists t :: t in s.topics && t.typeName in types && t.name == name
  }

  /** How many topics of these types there are. */
  function CountOf(s: Snapshot, types: set<string>): nat { |OfTypes(s.topics, types)| }

  /** The choice among candidates, against the graph: absent without candidates; CONFIRMED exactly when
      the configured one is there; otherwise LIKELY exactly when it is the only one; and the name chosen
      by an unambiguous entry is that of a topic of the right type. */
  ghost predicate Justified(s: Snapshot, types: set<string>, configured: string, e: Option<Entry>, key: string) {
    && (e.Some? <==> CountOf(s, types) > 0)
    && (e.Some? ==>
          && (e.value.confidence == Confirmed <==> HasTopic(s, configured, types))
          && (e.value.confidence == Likely <==> !HasTopic(s, configured, types) && CountOf(s, types) == 1)
          && (if e.value.confidence == Ambiguous then e.value.resolved == map[]
              else e.value.resolved.Keys == {key} && HasTopic(s, e.value.resolved[key], types))
          && (e.value.confidence == Confirmed ==> e.value.resolved[key] == configured))
  }

  lemma TopicsCounted(s: Snapshot, types: set<string>, configured: string)
    ensures |NamesOfTypes(s.topics, types)| == CountOf(s, types)
    ensures configured in NamesOfTypes(s.topics, types) <==> HasTopic(s, configured, types)
    ensures CountOf(s, types) == 1 ==> HasTopic(s, NamesOfTypes(s.topics, types)[0], types)
  {
    var names := NamesOfTypes(s.topics, types);
    NamesAsMany(s.topics, types);
    NamesCount(s.topics, types, configured);
    if |names| == 1 {
      assert names[0] in names;
      NamesCount(s.topics, types, names[0]);
    }
  }

  lemma SingleTopicJustified(s: Snapshot, id: string, backend: string, configured: string, types: set<string>,
                             key: string)
    ensures Justified(s, types, configured, SingleTopic(id, backend, configured, NamesOfTypes(s.topics, types), key),
                      key)
  {
    TopicsCounted(s, types, configured);
  }

  /** The entry is this capability, served by this backend, and tells these limits. */
  predicate Is(e: Option<Entry>, id: string, backend: string, limits: map<string, real>) {
    e.Some? ==> e.value.id == id && e.value.backend == backend && e.value.limits == limits
  }

  /** Lidar and camera, and the detector, which sees what the camera sees. */
  lemma SensorsAreJustified(s: Snapshot, o: Overrides)
    ensures var range, visual := InferRange(s, o), InferVisual(s, o); var detection := InferDetection(visual, o);
            && Justified(s, {"sensor_msgs/msg/LaserScan"}, o.lidarTopic, range, "scan")
            && Is(range, "range_sensing", "laser_scan", map[])
            && Justified(s, {"sensor_msgs/msg/Image", "sensor_msgs/msg/CompressedImage"}, o.imageTopic, visual, "image")
            && Is(visual, "visual_observation", "camera", map[])
            && (detection.Some? <==> visual.Some?) && Is(detection, "object_detection", o.detector, map[])
            && (visual.Some? ==> detection.value.confidence == visual.value.confidence
                                 && detection.value.resolved == visual.value.resolved)
  {
    SingleTopicJustified(s, RangeId, "laser_scan", o.lidarTopic, ScanTypes, "scan");
    SingleTopicJustified(s, VisualId, "camera", o.imageTopic, ImageTypes, "image");
  }

  /** The graph lets the robot be driven: both configured topics are there, or there is exactly one
      candidate for each. */
  ghost predicate Drivable(s: Snapshot, o: Overrides) {
    var twists, odoms := {"geometry_msgs/msg/Twist", "geometry_msgs/msg/TwistStamped"}, {"nav_msgs/msg/Odometry"};
    && o.motionEnabled
    && ((HasTopic(s, o.cmdVelTopic, twists) && HasTopic(s, o.odomTopic, odoms))
        || (CountOf(s, twists) == 1 && CountOf(s, odoms) == 1))
  }

  /** The motion capability is present when there are candidates for both topics, unambiguous exactly
      for a drivable graph, and then names a velocity topic and an odometry topic that exist. */
  lemma MotionExactly(s: Snapshot, o: Overrides, limits: Constraints)
    ensures var e := InferMotion(s, o, limits);
            var twists := {"geometry_msgs/msg/Twist", "geometry_msgs/msg/TwistStamped"};
            var odoms := {"nav_msgs/msg/Odometry"};
            && (e.Some? <==> o.motionEnabled && CountOf(s, twists) > 0 && CountOf(s, odoms) > 0)
            && (e.Some? && e.value.confidence != Ambiguous <==> Drivable(s, o))
            && (e.Some? && e.value.confidence == Confirmed <==>
                  o.motionEnabled && HasTopic(s, o.cmdVelTopic, twists) && HasTopic(s, o.odomTopic, odoms))
            && (Drivable(s, o) ==>
                  && e.value.resolved.Keys == {"cmd_vel", "odom"}
                  && HasTopic(s, e.value.resolved["cmd_vel"], twists) && HasTopic(s, e.value.resolved["odom"], odoms))
            && (e.Some? && e.value.confidence == Confirmed ==>
                  e.value.resolved["cmd_vel"] == o.cmdVelTopic && e.value.resolved["odom"] == o.odomTopic)
            && Is(e, "differential_drive_motion", "cmd_vel",
                  map["max_linear_mps" := limits.maxLinear, "max_angular_rps" := limits.maxAngular,
                      "max_move_distance_m" := limits.maxMoveDistance])
  {
    TopicsCounted(s, TwistTypes, o.cmdVelTopic);
    TopicsCounted(s, OdomTypes, o.odomTopic);
    assert |"cmd_vel"| == 7 && |"odom"| == 4;
  }

  ghost predicate HasServer(s: Snapshot, name: string) {
    exists a :: a in s.actions && a.typeName == "nav2_msgs/action/NavigateToPose" && a.name == name
  }

  /** Navigation is present when there is a NavigateToPose server; CONFIRMED exactly when the configured
      one is there, otherwise LIKELY exactly when there is one only; a name resolved is that of such a
      server. */
  lemma NavigationExactly(s: Snapshot, o: Overrides, limits: Constraints)
    ensures var e := InferNavigation(s, o, limits); var n := |ServersAmong(s.actions)|;
            && (e.Some? <==> o.navigationEnabled && n > 0)
            && (e.Some? ==>
                  && (e.value.confidence == Confirmed <==> HasServer(s, o.actionName))
                  && (e.value.confidence == Likely <==> !HasServer(s, o.actionName) && n == 1)
                  && (forall key | key in e.value.resolved ::
                        e.value.confidence != Ambiguous && key == "navigate_to_pose_action"
                        && HasServer(s, e.value.resolved[key]))
                  && (e.value.confidence == Confirmed && o.actionName != "" ==>
                        e.value.resolved == map["navigate_to_pose_action" := o.actionName]))
            && Is(e, "autonomous_navigation", "nav2",
                  map["max_navigation_distance_m" := limits.maxNavigationDistance])
  {
    var names := NavigateServers(s.actions);
    ServersCount(s.actions, ActionServer("", "", ""));
    ServerNames(s.actions, o.actionName);
    if |names| == 1 {
      assert names[0] in names;
      ServerNames(s.actions, names[0]);
    }
  }

  /** Localization is CONFIRMED exactly when AMCL's topic is there with its type, otherwise LIKELY exactly when
      there is a map frame and another one; from nothing else is it inferred. */
  lemma LocalizationExactly(s: Snapshot)
    ensures var e := InferLocalization(s);
            var amcl := HasTopic(s, "/amcl_pose", {"geometry_msgs/msg/PoseWithCovarianceStamped"});
            && (e.Some? <==> amcl || ("map" in s.tfFrames && |s.tfFrames| >= 2))
            && (amcl ==>
                  && e.value.confidence == Confirmed && Is(e, "localization", "amcl", map[])
                  && e.value.resolved == map["amcl_pose" := "/amcl_pose"])
            && (!amcl && e.Some? ==>
                  && e.value.confidence == Likely && Is(e, "localization", "tf", map[]) && e.value.resolved == map[])
  {
    TopicsCounted(s, PoseTypes, "/amcl_pose");
  }
}
