/**
 From tool arguments to a command: validation, the factory, and the tool provider's pipeline
 (src/ros_mcp/validation/engine.py, src/ros_mcp/commands/factory.py,
 src/ros_mcp/mcp/tool_provider.py:56-90). What validation guarantees is what the safety gate and
 the controller assert.
 */
module Commands {
  import opened RealMath
  import opened Geometry
  import opened Core
  import opened SchemaCheck
  import opened ExecutionProtocol

  // ----- the schemas of the tools that drive (src/ros_mcp/mcp/schemas.py:73-157)

  const AnyString := Schema(StringType, map[], [], true, None, None, None, None, None)

  const AnyNumber := Schema(NumberType, map[], [], true, None, None, None, None, None)

  const Directions := ["forward", "backward", "left", "right", "rotate_left", "rotate_right"]

  const DirectionSchema := AnyString.(allowed := Some(Directions))
  const DistanceSchema := AnyNumber.(minimum := Some(0.0))
  const AngleSchema := AnyNumber.(minimum := Some(0.0), maximum := Some(360.0))
  const TimeoutSchema := AnyNumber.(minimum := Some(0.1))

  const MoveSchema := Schema(
    ObjectType,
    map["direction" := DirectionSchema, "distance_m" := DistanceSchema, "angle_deg" := AngleSchema,
        "timeout_s" := TimeoutSchema],
    ["direction"], false, None, None, None, None, None)

  const NavigateSchema := Schema(
    ObjectType, map["x" := AnyNumber, "y" := AnyNumber, "yaw" := AnyNumber, "frame" := AnyString],
    ["x", "y"], false, None, None, None, None, None)

  const StopSchema := Schema(ObjectType, map[], [], false, None, None, None, None, None)

  /** A tool: its operation, whether it only reads, and its input schema. */
  datatype Tool = Tool(op: Operation, isRead: bool, schema: Schema)

  /** The tools by name; `readTools` holds the five that only read. */
  function FindTool(name: string, readTools: map<string, Schema>): Option<Tool> {
    if name == "robot.move" then Some(Tool(MoveOp, false, MoveSchema))
    else if name == "robot.stop" then Some(Tool(StopOp, false, StopSchema))
    else if name == "robot.navigate" then Some(Tool(NavigateOp, false, NavigateSchema))
    else if name in readTools then Some(Tool(OtherOp, true, readTools[name]))
    else None
  }

  // ----- validation

  /** `arguments.get(name)`; None also for an explicit null. */
  function Get(fields: seq<Field>, name: string): Option<Json> {
    if |fields| == 0 then None
    else if fields[0].name == name then (if fields[0].value.Null? then None else Some(fields[0].value))
    else Get(fields[1..], name)
  }

  predicate Translates(direction: Option<Json>) {
    direction.Some? && direction.value.Str? && direction.value.s in ["forward", "backward", "left", "right"]
  }

  predicate Rotates(direction: Option<Json>) {
    direction.Some? && direction.value.Str? && direction.value.s in ["rotate_left", "rotate_right"]
  }

  /** `_semantic_check`: the direction's own argument must be there. */
  predicate SemanticOk(op: Operation, args: seq<Field>) {
    op == MoveOp ==>
      && (Translates(Get(args, "direction")) ==> Get(args, "distance_m").Some?)
      && (Rotates(Get(args, "direction")) ==> Get(args, "angle_deg").Some?)
  }

  /** `validate`. */
  predicate Validates(tool: Tool, args: seq<Field>) {
    Check(tool.schema, Obj(args)) == None && SemanticOk(tool.op, args)
  }

  // ----- the factory

  datatype Timeouts = Timeouts(moveDefault: real, moveMax: real, navigateDefault: real, navigateMax: real) {
    /** What the configuration loader guarantees. */
    predicate Proper() { 0.0 < moveDefault <= moveMax && 0.0 < navigateDefault <= navigateMax }
  }

  /** Targets as the factory copies them: any Python numbers. */
  datatype RawTarget =
    | RawMove(direction: Json, distance: Option<Json>, angle: Option<Json>)
    | RawNavigate(x: Json, y: Json, yaw: Option<Json>)
    | NoTarget

  datatype SemanticCommand = SemanticCommand(
    op: Operation, isRead: bool, target: RawTarget, timeout: Number, constraints: Option<Constraints>)

  /** Python's `min(a, b)`: the first, unless the second is smaller. */
  function PyMin(a: Number, b: real): Number {
    if Above(a, b) then Finite(b) else a
  }

  /** `_resolve_timeout_s`. */
  function ResolveTimeout(op: Operation, args: seq<Field>, t: Timeouts): Number {
    match op
    case MoveOp =>
      var requested := Get(args, "timeout_s");
      if requested.Some? && (requested.value.Int? || requested.value.Float?)
      then PyMin(NumberOf(requested.value), t.moveMax)
      else Finite(t.moveDefault)
    case NavigateOp => Finite(t.navigateDefault)
    case StopOp => Finite(5.0)
    case OtherOp => Finite(5.0)
  }

  function OrNull(v: Option<Json>): Json { if v.Some? then v.value else Null }

  /** `_build_target`. */
  function BuildTarget(op: Operation, args: seq<Field>): RawTarget {
    match op
    case MoveOp => RawMove(OrNull(Get(args, "direction")), Get(args, "distance_m"), Get(args, "angle_deg"))
    case NavigateOp => RawNavigate(OrNull(Get(args, "x")), OrNull(Get(args, "y")), Get(args, "yaw"))
    case _ => NoTarget
  }

  function Create(tool: Tool, args: seq<Field>, limits: Constraints, t: Timeouts): SemanticCommand {
    SemanticCommand(tool.op, tool.isRead, BuildTarget(tool.op, args), ResolveTimeout(tool.op, args, t),
                    if tool.op == OtherOp then None else Some(limits))
  }

  // ----- the pipeline

  datatype CallOutcome = Refused(error: ErrorCode) | Submitted(command: SemanticCommand)

  /** `handle_call` up to the submission. */
  function HandleCall(name: string, args: seq<Field>, readTools: map<string, Schema>, limits: Constraints,
                      t: Timeouts): CallOutcome {
    var tool := FindTool(name, readTools);
    if tool.None? then Refused(InvalidArgument)
    else if !Validates(tool.value, args) then Refused(InvalidArgument)
    else Submitted(Create(tool.value, args, limits, t))
  }

  // ----- which calls are accepted

  lemma {:induction false} GetIsField(fields: seq<Field>, name: string)
    ensures Get(fields, name).Some? ==>
              exists k :: 0 <= k < |fields| && fields[k].name == name && fields[k].value == Get(fields, name).value
    ensures HasKey(fields, name)
            && (forall k | 0 <= k < |fields| && fields[k].name == name :: !fields[k].value.Null?) ==>
              Get(fields, name).Some?
  {
    if |fields| > 0 {
      GetIsField(fields[1..], name);
      if Get(fields[1..], name).Some? {
        var k :| 0 <= k < |fields[1..]| && fields[1..][k].name == name
            && fields[1..][k].value == Get(fields[1..], name).value;
        assert fields[k + 1].name == name;
      }
      if HasKey(fields, name) && fields[0].name != name {
        var k :| 0 <= k < |fields| && fields[k].name == name;
        assert fields[1..][k - 1].name == name;
        assert forall j | 0 <= j < |fields[1..]| :: fields[1..][j] == fields[j + 1];
      }
    }
  }

  predicate NumberWithin(v: Json, lo: Option<real>, hi: Option<real>) {
    && (v.Int? || v.Float?) && (lo.Some? ==> AtLeast(v, lo.value)) && (hi.Some? ==> AtMost(v, hi.value))
  }

  /** An argument `robot.move` takes. */
  predicate MoveField(f: Field) {
    || (f.name == "direction" && f.value.Str?
        && (f.value.s == "forward" || f.value.s == "backward" || f.value.s == "left" || f.value.s == "right"
            || f.value.s == "rotate_left" || f.value.s == "rotate_right"))
    || (f.name == "distance_m" && NumberWithin(f.value, Some(0.0), None))
    || (f.name == "angle_deg" && NumberWithin(f.value, Some(0.0), Some(360.0)))
    || (f.name == "timeout_s" && NumberWithin(f.value, Some(0.1), None))
  }

  predicate NavigateField(f: Field) {
    || ((f.name == "x" || f.name == "y" || f.name == "yaw") && NumberWithin(f.value, None, None))
    || (f.name == "frame" && f.value.Str?)
  }

  lemma MoveFieldIs(f: Field)
    ensures MoveField(f) <==> f.name in MoveSchema.properties && Conforms(MoveSchema.properties[f.name], f.value)
  {
    assert |"direction"| == 9 && |"distance_m"| == 10 && |"angle_deg"| == 9 && |"timeout_s"| == 9;
    assert "direction"[0] == 'd' && "angle_deg"[0] == 'a' && "timeout_s"[0] == 't';
    if f.name == "direction" && f.value.Str? { DirectionIsAllowed(f.value.s); }
  }

  lemma DirectionIsAllowed(d: string)
    ensures d in Directions <==>
            || d == "forward" || d == "backward" || d == "left" || d == "right" || d == "rotate_left"
            || d == "rotate_right"
  {
    assert Directions[0] == "forward" && Directions[1] == "backward" && Directions[2] == "left";
    assert Directions[3] == "right" && Directions[4] == "rotate_left" && Directions[5] == "rotate_right";
  }

  lemma NavigateFieldIs(f: Field)
    ensures NavigateField(f) <==>
            f.name in NavigateSchema.properties && Conforms(NavigateSchema.properties[f.name], f.value)
  {
    assert |"x"| == 1 && |"y"| == 1 && |"yaw"| == 3 && |"frame"| == 5 && "x"[0] == 'x' && "y"[0] == 'y';
  }

  /** The directions for which the distance, or the angle, must be there. */
  predicate IsTranslation(d: Option<Json>) {
    d == Some(Str("forward")) || d == Some(Str("backward")) || d == Some(Str("left")) || d == Some(Str("right"))
  }

  predicate IsTurn(d: Option<Json>) { d == Some(Str("rotate_left")) || d == Some(Str("rotate_right")) }

  lemma KindsAreSpelled(d: Option<Json>)
    ensures Translates(d) <==> IsTranslation(d)
    ensures Rotates(d) <==> IsTurn(d)
  {
    var along, turns := ["forward", "backward", "left", "right"], ["rotate_left", "rotate_right"];
    assert along[0] == "forward" && along[1] == "backward" && along[2] == "left" && along[3] == "right";
    assert turns[0] == "rotate_left" && turns[1] == "rotate_right";
  }

  /** No argument of a move is null. */
  lemma KeyIsGot(args: seq<Field>, name: string)
    ensures (forall k | 0 <= k < |args| :: MoveField(args[k])) ==> (Get(args, name).Some? <==> HasKey(args, name))
  {
    GetIsField(args, name);
    if forall k | 0 <= k < |args| :: MoveField(args[k]) {
      forall k | 0 <= k < |args| && args[k].name == name ensures !args[k].value.Null? { assert MoveField(args[k]); }
    }
  }

  lemma MoveConforms(args: seq<Field>)
    ensures Conforms(MoveSchema, Obj(args)) <==>
            (forall k | 0 <= k < |args| :: MoveField(args[k])) && HasKey(args, "direction")
  {
    var v := Obj(args);
    forall k | 0 <= k < |args|
      ensures MoveField(v.fields[k]) <==>
              v.fields[k].name in MoveSchema.properties
              && Conforms(MoveSchema.properties[v.fields[k].name], v.fields[k].value)
    {
      MoveFieldIs(v.fields[k]);
    }
    assert MoveSchema.required[0] == "direction";
  }

  /** `robot.move` is submitted exactly with these arguments: a direction, and its distance or angle. */
  lemma MoveAcceptedExactly(args: seq<Field>, readTools: map<string, Schema>, limits: Constraints, t: Timeouts)
    ensures HandleCall("robot.move", args, readTools, limits, t).Submitted? <==>
            && (forall k | 0 <= k < |args| :: MoveField(args[k])) && HasKey(args, "direction")
            && (IsTranslation(Get(args, "direction")) ==> HasKey(args, "distance_m"))
            && (IsTurn(Get(args, "direction")) ==> HasKey(args, "angle_deg"))
  {
    CheckDecidesConformance(MoveSchema, Obj(args));
    MoveConforms(args);
    KeyIsGot(args, "distance_m");
    KeyIsGot(args, "angle_deg");
    KindsAreSpelled(Get(args, "direction"));
  }

  lemma NavigateAcceptedExactly(args: seq<Field>, readTools: map<string, Schema>, limits: Constraints, t: Timeouts)
    ensures HandleCall("robot.navigate", args, readTools, limits, t).Submitted? <==>
            (forall k | 0 <= k < |args| :: NavigateField(args[k])) && HasKey(args, "x") && HasKey(args, "y")
  {
    var v := Obj(args);
    NamesDiffer();
    CheckDecidesConformance(NavigateSchema, v);
    forall k | 0 <= k < |args|
      ensures NavigateField(v.fields[k]) <==>
              v.fields[k].name in NavigateSchema.properties
              && Conforms(NavigateSchema.properties[v.fields[k].name], v.fields[k].value)
    {
      NavigateFieldIs(v.fields[k]);
    }
    assert NavigateSchema.required[0] == "x" && NavigateSchema.required[1] == "y";
  }

  lemma NamesDiffer()
    ensures "robot.move" != "robot.navigate" && "robot.stop" != "robot.navigate" && "robot.move" != "robot.stop"
  {
    assert |"robot.navigate"| == 14 && |"robot.stop"| == 10 && |"robot.move"| == 10;
    assert "robot.stop"[6] == 's' && "robot.move"[6] == 'm';
  }

  lemma StopAcceptedExactly(args: seq<Field>, readTools: map<string, Schema>, limits: Constraints, t: Timeouts)
    ensures HandleCall("robot.stop", args, readTools, limits, t)
            == if args == [] then Submitted(SemanticCommand(StopOp, false, NoTarget, Finite(5.0), Some(limits)))
               else Refused(InvalidArgument)
  {
    var v := Obj(args);
    NamesDiffer();
    CheckDecidesConformance(StopSchema, v);
    if |args| > 0 { assert v.fields[0].name !in StopSchema.properties; }
  }

  /** Every tool by its name: what is submitted is the operation of that name, and a name no tool has is
      refused. Only the timeout of a move is the caller's. */
  lemma ToolsAreNamed(name: string, args: seq<Field>, readTools: map<string, Schema>, limits: Constraints, t: Timeouts)
    ensures var outcome := HandleCall(name, args, readTools, limits, t);
            && (outcome.Refused? ==> outcome.error == InvalidArgument)
            && (name !in readTools && name !in {"robot.move", "robot.stop", "robot.navigate"} ==> outcome.Refused?)
            && (outcome.Submitted? ==>
                  var c := outcome.command;
                  && (c.op == MoveOp <==> name == "robot.move") && (c.op == StopOp <==> name == "robot.stop")
                  && (c.op == NavigateOp <==> name == "robot.navigate") && (c.isRead <==> c.op == OtherOp)
                  && (c.op == NavigateOp ==> c.timeout == Finite(t.navigateDefault))
                  && (c.op == StopOp || c.op == OtherOp ==> c.timeout == Finite(5.0) && c.target == NoTarget)
                  && (c.constraints == if c.isRead then None else Some(limits)))
  {
    NamesDiffer();
  }

  // ----- what validation guarantees

  /** What a conforming object's field is, when it is there. */
  lemma FieldConforms(s: Schema, args: seq<Field>, name: string)
    requires s.kind == ObjectType && Conforms(s, Obj(args)) && name in s.properties
    ensures Get(args, name).Some? ==> Conforms(s.properties[name], Get(args, name).value)
    ensures name in s.required && s.properties[name].kind != Untyped ==> Get(args, name).Some?
  {
    GetIsField(args, name);
    var v := Obj(args);
    if Get(args, name).Some? {
      var k :| 0 <= k < |args| && args[k].name == name && args[k].value == Get(args, name).value;
      assert v.fields[k].name in s.properties;
    }
    if name in s.required && s.properties[name].kind != Untyped {
      assert HasKey(v.fields, name);
      forall k | 0 <= k < |args| && args[k].name == name
        ensures !args[k].value.Null?
      {
        assert v.fields[k].name in s.properties;
      }
    }
  }

  lemma MoveArguments(args: seq<Field>)
    requires Conforms(MoveSchema, Obj(args))
    ensures var d := Get(args, "direction"); d.Some? && d.value.Str? && d.value.s in Directions
    ensures Get(args, "distance_m").Some? ==> NumberWithin(Get(args, "distance_m").value, Some(0.0), None)
    ensures Get(args, "angle_deg").Some? ==> NumberWithin(Get(args, "angle_deg").value, Some(0.0), Some(360.0))
    ensures Get(args, "timeout_s").Some? ==> NumberWithin(Get(args, "timeout_s").value, Some(0.1), None)
  {
    FieldConforms(MoveSchema, args, "direction");
    FieldConforms(MoveSchema, args, "distance_m");
    FieldConforms(MoveSchema, args, "angle_deg");
    FieldConforms(MoveSchema, args, "timeout_s");
  }

  /** The source's three assertions about a move's target (cmd_vel_plugin.py:185-187, 216, 224, 230):
      a translation has its distance, a rotation its angle, there are constraints; and the numbers
      are in range (not below 0; an angle not above 360). */
  ghost predicate MoveAsserts(c: SemanticCommand) {
    && c.target.RawMove? && c.constraints.Some? && c.target.direction.Str? && c.target.direction.s in Directions
    && (Translates(Some(c.target.direction)) ==>
          c.target.distance.Some? && NumberWithin(c.target.distance.value, Some(0.0), None))
    && (Rotates(Some(c.target.direction)) ==>
          c.target.angle.Some? && NumberWithin(c.target.angle.value, Some(0.0), Some(360.0)))
    && (Translates(Some(c.target.direction)) <==> !Rotates(Some(c.target.direction)))
  }

  ghost predicate NavigateAsserts(c: SemanticCommand) {
    && c.target.RawNavigate? && c.constraints.Some?
    && NumberWithin(c.target.x, None, None) && NumberWithin(c.target.y, None, None)
    && (c.target.yaw.Some? ==> NumberWithin(c.target.yaw.value, None, None))
  }

  lemma DirectionIsOneKind(s: string)
    requires s in Directions
    ensures Translates(Some(Str(s))) <==> !Rotates(Some(Str(s)))
  {
    assert |"rotate_left"| == 11 && |"rotate_right"| == 12 && |"backward"| == 8;
    assert |"forward"| == 7 && |"left"| == 4 && |"right"| == 5;
  }

  lemma NavigateArguments(args: seq<Field>)
    requires Conforms(NavigateSchema, Obj(args))
    ensures Get(args, "x").Some? && NumberWithin(Get(args, "x").value, None, None)
    ensures Get(args, "y").Some? && NumberWithin(Get(args, "y").value, None, None)
    ensures Get(args, "yaw").Some? ==> NumberWithin(Get(args, "yaw").value, None, None)
  {
    FieldConforms(NavigateSchema, args, "x");
    FieldConforms(NavigateSchema, args, "y");
    FieldConforms(NavigateSchema, args, "yaw");
  }

  /** An optional argument was carried over: the field's value, or nothing if there is no such field. */
  ghost predicate Carried(args: seq<Field>, name: string, v: Option<Json>) {
    if v.Some? then Field(name, v.value) in args else !HasKey(args, name)
  }

  lemma GetCarries(s: Schema, args: seq<Field>, name: string)
    requires s.kind == ObjectType && Conforms(s, Obj(args)) && name in s.properties
             && s.properties[name].kind != Untyped
    ensures Carried(args, name, Get(args, name))
  {
    GetIsField(args, name);
    var v := Obj(args);
    forall k | 0 <= k < |args| && args[k].name == name ensures !args[k].value.Null? {
      assert v.fields[k].name in s.properties;
    }
    if Get(args, name).Some? {
      var k :| 0 <= k < |args| && args[k].name == name && args[k].value == Get(args, name).value;
      assert args[k] == Field(name, Get(args, name).value);
    }
  }

  /** The factory loses and swaps nothing: every part of a submitted target is the argument of its own
      name, present exactly when the argument is. */
  lemma TargetsCarryArguments(name: string, args: seq<Field>, readTools: map<string, Schema>, limits: Constraints,
                              t: Timeouts)
    requires HandleCall(name, args, readTools, limits, t).Submitted?
    ensures var target := HandleCall(name, args, readTools, limits, t).command.target;
            match target
            case RawMove(direction, distance, angle) =>
              Field("direction", direction) in args && Carried(args, "distance_m", distance)
              && Carried(args, "angle_deg", angle)
            case RawNavigate(x, y, yaw) => Field("x", x) in args && Field("y", y) in args && Carried(args, "yaw", yaw)
            case NoTarget => true
  {
    var tool := FindTool(name, readTools).value;
    CheckDecidesConformance(tool.schema, Obj(args));
    if tool.op == MoveOp {
      MoveCarries(args);
    } else if tool.op == NavigateOp {
      NavigateCarries(args);
    }
  }

  lemma MoveCarries(args: seq<Field>)
    requires Conforms(MoveSchema, Obj(args))
    ensures Get(args, "direction").Some? && Carried(args, "direction", Get(args, "direction"))
    ensures Carried(args, "distance_m", Get(args, "distance_m")) && Carried(args, "angle_deg", Get(args, "angle_deg"))
  {
    MoveArguments(args);
    GetCarries(MoveSchema, args, "direction");
    GetCarries(MoveSchema, args, "distance_m");
    GetCarries(MoveSchema, args, "angle_deg");
  }

  lemma NavigateCarries(args: seq<Field>)
    requires Conforms(NavigateSchema, Obj(args))
    ensures Get(args, "x").Some? && Carried(args, "x", Get(args, "x"))
    ensures Get(args, "y").Some? && Carried(args, "y", Get(args, "y"))
    ensures Carried(args, "yaw", Get(args, "yaw"))
  {
    NavigateArguments(args);
    GetCarries(NavigateSchema, args, "x");
    GetCarries(NavigateSchema, args, "y");
    GetCarries(NavigateSchema, args, "yaw");
  }

  /** Every command that reaches the execution manager satisfies the assertions of the stages behind
      it; and a driving one was validated against its own tool's schema. */
  lemma SubmittedCommandsMeetAsserts(name: string, args: seq<Field>, readTools: map<string, Schema>,
                                     limits: Constraints, t: Timeouts)
    requires HandleCall(name, args, readTools, limits, t).Submitted?
    ensures var c := HandleCall(name, args, readTools, limits, t).command;
            && (c.op == MoveOp ==> MoveAsserts(c))
            && (c.op == NavigateOp ==> NavigateAsserts(c))
            && (c.op != OtherOp ==> c.constraints == Some(limits) && !c.isRead)
  {
    var tool := FindTool(name, readTools).value;
    CheckDecidesConformance(tool.schema, Obj(args));
    if tool.op == MoveOp {
      MoveArguments(args);
      DirectionIsOneKind(Get(args, "direction").value.s);
    } else if tool.op == NavigateOp {
      NavigateArguments(args);
    }
  }

  predicate IsNaN(v: Option<Json>) { v.Some? && v.value == Float(NaN) }

  /** What the factory promises of a timeout: positive and at most the configured maximum. */
  predicate TimeoutInBounds(c: SemanticCommand, t: Timeouts) {
    c.timeout.Finite? && 0.0 < c.timeout.r
    && (c.op == MoveOp ==> c.timeout.r <= t.moveMax) && (c.op == NavigateOp ==> c.timeout.r <= t.navigateMax)
  }

  /** A move's timeout is the requested one cut at the maximum, or the default when none is requested. */
  lemma MoveTimeoutIs(args: seq<Field>, readTools: map<string, Schema>, limits: Constraints, t: Timeouts)
    requires HandleCall("robot.move", args, readTools, limits, t).Submitted? && !IsNaN(Get(args, "timeout_s"))
    ensures var timeout := HandleCall("robot.move", args, readTools, limits, t).command.timeout;
            && (!HasKey(args, "timeout_s") ==> timeout == Finite(t.moveDefault))
            && (Get(args, "timeout_s").Some? ==>
                  NumberWithin(Get(args, "timeout_s").value, Some(0.1), None)
                  && var requested := NumberOf(Get(args, "timeout_s").value);
                  timeout == Finite(if requested.Finite? then Min(requested.r, t.moveMax) else t.moveMax))
  {
    CheckDecidesConformance(MoveSchema, Obj(args));
    MoveArguments(args);
    GetCarries(MoveSchema, args, "timeout_s");
  }

  /** The promise is kept exactly unless a move asks for a NaN timeout, which passes the schema's
      `minimum` and Python's `min`. */
  lemma TimeoutBoundedExactly(name: string, args: seq<Field>, readTools: map<string, Schema>, limits: Constraints,
                              t: Timeouts)
    requires t.Proper() && HandleCall(name, args, readTools, limits, t).Submitted?
    ensures var c := HandleCall(name, args, readTools, limits, t).command;
            TimeoutInBounds(c, t) <==> !(c.op == MoveOp && IsNaN(Get(args, "timeout_s")))
  {
    var tool := FindTool(name, readTools).value;
    CheckDecidesConformance(tool.schema, Obj(args));
    if tool.op == MoveOp { MoveArguments(args); }
  }

  const NaNTimeoutCall := [Field("direction", Str("forward")), Field("distance_m", Int(1)),
                           Field("timeout_s", Float(NaN))]

  lemma NaNTimeoutFields()
    ensures var args := NaNTimeoutCall;
            && (forall k | 0 <= k < |args| :: MoveField(args[k])) && HasKey(args, "direction")
            && HasKey(args, "distance_m")
  {
    var args := NaNTimeoutCall;
    assert args[0].name == "direction" && args[1].name == "distance_m";
    assert MoveField(args[0]) && MoveField(args[1]) && MoveField(args[2]);
  }

  lemma NaNTimeoutArguments()
    ensures Get(NaNTimeoutCall, "direction") == Some(Str("forward"))
            && Get(NaNTimeoutCall, "distance_m") == Some(Int(1))
    ensures Get(NaNTimeoutCall, "timeout_s") == Some(Float(NaN))
  {
    var args := NaNTimeoutCall;
    assert "direction"[0] == 'd' && "distance_m"[1] == 'i' && |"distance_m"| == 10 && "timeout_s"[0] == 't';
    assert args[1..][0] == args[1] && args[1..][1..][0] == args[2];
  }

  /** Such a call is accepted. */
  lemma NaNTimeoutIsAccepted(readTools: map<string, Schema>, limits: Constraints, t: Timeouts)
    ensures var outcome := HandleCall("robot.move", NaNTimeoutCall, readTools, limits, t);
            outcome.Submitted? && outcome.command.timeout == NaN
  {
    NaNTimeoutFields();
    NaNTimeoutArguments();
    NotATurn();
    MoveAcceptedExactly(NaNTimeoutCall, readTools, limits, t);
  }

  lemma NotATurn()
    ensures !IsTurn(Some(Str("forward")))
  {
    assert "forward"[0] == 'f' && "rotate_left"[0] == 'r' && "rotate_right"[0] == 'r';
  }

  // ----- the controller's own target

  function DirectionOf(s: string): Direction {
    if s == "forward" then Translate(Forward)
    else if s == "backward" then Translate(Backward)
    else if s == "left" then Translate(Left)
    else if s == "right" then Translate(Right)
    else if s == "rotate_left" then RotateLeft
    else RotateRight
  }

  /** The real number behind a finite argument. */
  function RealOf(v: Option<Json>): Option<real> {
    if v.Some? && (v.value.Int? || v.value.Float?) && NumberOf(v.value).Finite? then Some(NumberOf(v.value).r) else None
  }

  function ControllerTarget(target: RawTarget): MoveTarget
    requires target.RawMove? && target.direction.Str?
  {
    MoveTarget(DirectionOf(target.direction.s), RealOf(target.distance), RealOf(target.angle))
  }

  predicate FiniteNumber(v: Option<Json>) {
    v.Some? && (v.value.Int? || v.value.Float?) ==> NumberOf(v.value).Finite?
  }

  /** A validated move of finite numbers is a well-formed target for the controller: the precondition
      under which its loop is proved safe. */
  lemma ValidatedMoveIsWellFormed(args: seq<Field>, readTools: map<string, Schema>, limits: Constraints, t: Timeouts)
    requires HandleCall("robot.move", args, readTools, limits, t).Submitted?
    requires FiniteNumber(Get(args, "distance_m")) && FiniteNumber(Get(args, "angle_deg"))
    ensures var c := HandleCall("robot.move", args, readTools, limits, t).command;
            && c.target.RawMove? && c.target.direction.Str?
            && var target := ControllerTarget(c.target);
               && target.WellFormed()
               && (target.distance.Some? ==> target.distance.value >= 0.0)
               && (target.angleDeg.Some? ==> 0.0 <= target.angleDeg.value <= 360.0)
  {
    SubmittedCommandsMeetAsserts("robot.move", args, readTools, limits, t);
    CheckDecidesConformance(MoveSchema, Obj(args));
    MoveArguments(args);
    DirectionMeans(Get(args, "direction").value.s);
  }

  /** Each name is its direction. */
  lemma DirectionsAre()
    ensures DirectionOf("forward") == Translate(Forward) && DirectionOf("backward") == Translate(Backward)
    ensures DirectionOf("left") == Translate(Left) && DirectionOf("right") == Translate(Right)
    ensures DirectionOf("rotate_left") == RotateLeft && DirectionOf("rotate_right") == RotateRight
  {
    assert |"rotate_left"| == 11 && |"rotate_right"| == 12 && |"backward"| == 8;
    assert |"forward"| == 7 && |"left"| == 4 && |"right"| == 5;
  }

  lemma DirectionMeans(s: string)
    requires s in Directions
    ensures DirectionOf(s).IsRotation() <==> Rotates(Some(Str(s)))
  {
    DirectionIsOneKind(s);
  }
}
