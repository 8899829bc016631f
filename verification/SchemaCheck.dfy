/**
 The recursive schema checker (src/ros_mcp/validation/schema_check.py): it finds a fault exactly in
 the values that do not conform, and the fault it names is really there.
 */
module SchemaCheck {
  import opened RealMath

  /** A Python float (integers too, once converted). */
  datatype Number = Finite(r: real) | NaN | PosInf | NegInf

  datatype Json =
    | Null | Bool(b: bool) | Int(n: int) | Float(f: Number) | Str(s: string)
    | Arr(items: seq<Json>) | Obj(fields: seq<Field>)

  datatype Field = Field(name: string, value: Json)

  /** `Untyped` also stands for a type name the checker does not know. */
  datatype SchemaType = Untyped | StringType | NumberType | IntegerType | BooleanType | ArrayType | ObjectType

  datatype Schema = Schema(
    kind: SchemaType, properties: map<string, Schema>, required: seq<string>, additional: bool,
    items: Option<Schema>, maxItems: Option<nat>, allowed: Option<seq<string>>,
    minimum: Option<real>, maximum: Option<real>)

  datatype PathStep = Key(name: string) | Index(i: nat)

  datatype FaultKind =
    | WrongType | MissingField(name: string) | UnexpectedField(name: string)
    | TooLong | NotAllowed | TooSmall | TooLarge

  datatype Fault = Fault(path: seq<PathStep>, kind: FaultKind)

  function NumberOf(v: Json): Number
    requires v.Int? || v.Float?
  {
    if v.Int? then Finite(v.n as real) else v.f
  }

  /** Python's `<` between a float and a finite one; NaN is below and above nothing. */
  predicate Below(x: Number, bound: real) { x == NegInf || (x.Finite? && x.r < bound) }

  predicate Above(x: Number, bound: real) { x == PosInf || (x.Finite? && x.r > bound) }

  predicate HasType(kind: SchemaType, v: Json) {
    match kind
    case Untyped => true
    case StringType => v.Str?
    case NumberType => v.Int? || v.Float?
    case IntegerType => v.Int?
    case BooleanType => v.Bool?
    case ArrayType => v.Arr?
    case ObjectType => v.Obj?
  }

  predicate HasKey(fields: seq<Field>, name: string) {
    exists i :: 0 <= i < |fields| && fields[i].name == name
  }

  function Under(step: PathStep, fault: Option<Fault>): Option<Fault> {
    if fault.None? then None else Some(Fault([step] + fault.value.path, fault.value.kind))
  }

  // ----- the checker, in the source's order

  function Check(s: Schema, v: Json): Option<Fault>
    decreases v, 1, 0
  {
    if !HasType(s.kind, v) then Some(Fault([], WrongType))
    else
      var inside :=
        if s.kind == ObjectType then
          var missing := FirstMissing(s.required, v.fields);
          if missing.Some? then Some(Fault([], MissingField(missing.value))) else CheckFields(s, v, 0)
        else if s.kind == ArrayType then
          if s.maxItems.Some? && |v.items| > s.maxItems.value then Some(Fault([], TooLong))
          else if s.items.Some? then CheckItems(s.items.value, v, 0)
          else None
        else None;
      if inside.Some? then inside else CheckValue(s, v)
  }

  function FirstMissing(required: seq<string>, fields: seq<Field>): Option<string>
    decreases |required|
  {
    if |required| == 0 then None
    else if !HasKey(fields, required[0]) then Some(required[0])
    else FirstMissing(required[1..], fields)
  }

  function CheckFields(s: Schema, v: Json, k: nat): Option<Fault>
    requires v.Obj? && k <= |v.fields|
    decreases v, 0, |v.fields| - k
  {
    if k == |v.fields| then None
    else
      var f := v.fields[k];
      var fault :=
        if f.name in s.properties then Under(Key(f.name), Check(s.properties[f.name], f.value))
        else if !s.additional then Some(Fault([], UnexpectedField(f.name)))
        else None;
      if fault.Some? then fault else CheckFields(s, v, k + 1)
  }

  function CheckItems(item: Schema, v: Json, k: nat): Option<Fault>
    requires v.Arr? && k <= |v.items|
    decreases v, 0, |v.items| - k
  {
    if k == |v.items| then None
    else
      var fault := Under(Index(k), Check(item, v.items[k]));
      if fault.Some? then fault else CheckItems(item, v, k + 1)
  }

  /** The enumeration and range tests. */
  function CheckValue(s: Schema, v: Json): Option<Fault> {
    if s.allowed.Some? && !(v.Str? && v.s in s.allowed.value) then Some(Fault([], NotAllowed))
    else if (s.kind == NumberType || s.kind == IntegerType) && (v.Int? || v.Float?) then
      if s.minimum.Some? && Below(NumberOf(v), s.minimum.value) then Some(Fault([], TooSmall))
      else if s.maximum.Some? && Above(NumberOf(v), s.maximum.value) then Some(Fault([], TooLarge))
      else None
    else None
  }

  // ----- what it means to conform

  /** A number the bound allows: NaN is not below nor above anything, an infinity only on its side. */
  predicate AtLeast(v: Json, bound: real) {
    || (v.Int? && v.n as real >= bound)
    || (v.Float? && (v.f == NaN || v.f == PosInf || (v.f.Finite? && v.f.r >= bound)))
  }

  predicate AtMost(v: Json, bound: real) {
    || (v.Int? && v.n as real <= bound)
    || (v.Float? && (v.f == NaN || v.f == NegInf || (v.f.Finite? && v.f.r <= bound)))
  }

  ghost predicate Conforms(s: Schema, v: Json)
    decreases v
  {
    && (s.kind == StringType ==> v.Str?) && (s.kind == NumberType ==> v.Int? || v.Float?)
    && (s.kind == IntegerType ==> v.Int?) && (s.kind == BooleanType ==> v.Bool?)
    && (s.kind == ArrayType ==> v.Arr?) && (s.kind == ObjectType ==> v.Obj?)
    && (s.kind == ObjectType ==>
          && (forall name | name in s.required :: HasKey(v.fields, name))
          && (forall k | 0 <= k < |v.fields| ::
                if v.fields[k].name in s.properties then Conforms(s.properties[v.fields[k].name], v.fields[k].value)
                else s.additional))
    && (s.kind == ArrayType ==>
          && (s.maxItems.Some? ==> |v.items| <= s.maxItems.value)
          && (s.items.Some? ==> forall k | 0 <= k < |v.items| :: Conforms(s.items.value, v.items[k])))
    && (s.allowed.Some? ==> v.Str? && v.s in s.allowed.value)
    && (s.kind == NumberType || s.kind == IntegerType ==>
          && (s.minimum.Some? ==> AtLeast(v, s.minimum.value))
          && (s.maximum.Some? ==> AtMost(v, s.maximum.value)))
  }

  lemma {:induction false} FirstMissingIsMissing(required: seq<string>, fields: seq<Field>)
    ensures FirstMissing(required, fields) == None <==> forall name | name in required :: HasKey(fields, name)
    ensures FirstMissing(required, fields).Some? ==>
              FirstMissing(required, fields).value in required && !HasKey(fields, FirstMissing(required, fields).value)
  {
    if |required| > 0 {
      FirstMissingIsMissing(required[1..], fields);
      assert required == [required[0]] + required[1..];
    }
  }

  lemma {:induction false} FieldsConform(s: Schema, v: Json, k: nat)
    requires v.Obj? && k <= |v.fields|
    ensures CheckFields(s, v, k) == None <==>
            forall i | k <= i < |v.fields| ::
              if v.fields[i].name in s.properties then Conforms(s.properties[v.fields[i].name], v.fields[i].value)
              else s.additional
    decreases v, 0, |v.fields| - k
  {
    if k < |v.fields| {
      if v.fields[k].name in s.properties {
        CheckDecidesConformance(s.properties[v.fields[k].name], v.fields[k].value);
      }
      FieldsConform(s, v, k + 1);
    }
  }

  lemma {:induction false} ItemsConform(item: Schema, v: Json, k: nat)
    requires v.Arr? && k <= |v.items|
    ensures CheckItems(item, v, k) == None <==> forall i | k <= i < |v.items| :: Conforms(item, v.items[i])
    decreases v, 0, |v.items| - k
  {
    if k < |v.items| {
      CheckDecidesConformance(item, v.items[k]);
      ItemsConform(item, v, k + 1);
    }
  }

  /** The checker returns no fault exactly for the values that conform, however deep. */
  lemma {:induction false} CheckDecidesConformance(s: Schema, v: Json)
    ensures Check(s, v) == None <==> Conforms(s, v)
    decreases v, 1, 0
  {
    if HasType(s.kind, v) {
      if s.kind == ObjectType {
        FirstMissingIsMissing(s.required, v.fields);
        FieldsConform(s, v, 0);
      } else if s.kind == ArrayType && s.items.Some? {
        ItemsConform(s.items.value, v, 0);
      }
    }
  }

  // ----- the fault that is named is there

  /** This very value, without its parts, breaks this very schema in this way. */
  ghost predicate Broken(s: Schema, v: Json, kind: FaultKind) {
    match kind
    case WrongType => !HasType(s.kind, v)
    case MissingField(name) => v.Obj? && name in s.required && !HasKey(v.fields, name)
    case UnexpectedField(name) => v.Obj? && HasKey(v.fields, name) && name !in s.properties && !s.additional
    case TooLong => v.Arr? && s.maxItems.Some? && |v.items| > s.maxItems.value
    case NotAllowed => s.allowed.Some? && !(v.Str? && v.s in s.allowed.value)
    case TooSmall => (v.Int? || v.Float?) && s.minimum.Some? && Below(NumberOf(v), s.minimum.value)
    case TooLarge => (v.Int? || v.Float?) && s.maximum.Some? && Above(NumberOf(v), s.maximum.value)
  }

  /** Following the path through value and schema leads to a broken part. */
  ghost predicate Leads(s: Schema, v: Json, path: seq<PathStep>, kind: FaultKind)
    decreases |path|
  {
    if |path| == 0 then Broken(s, v, kind)
    else match path[0]
      case Key(name) =>
        v.Obj? && name in s.properties
        && exists k ::
             && 0 <= k < |v.fields| && v.fields[k].name == name
             && Leads(s.properties[name], v.fields[k].value, path[1..], kind)
      case Index(i) => v.Arr? && i < |v.items| && s.items.Some? && Leads(s.items.value, v.items[i], path[1..], kind)
  }

  lemma {:induction false} FieldFaultIsThere(s: Schema, v: Json, k: nat)
    requires v.Obj? && k <= |v.fields| && CheckFields(s, v, k).Some?
    ensures var f := CheckFields(s, v, k).value; Leads(s, v, f.path, f.kind)
    decreases v, 0, |v.fields| - k
  {
    var field := v.fields[k];
    if field.name in s.properties && Check(s.properties[field.name], field.value).Some? {
      FaultIsThere(s.properties[field.name], field.value);
      var inner, f := Check(s.properties[field.name], field.value).value, CheckFields(s, v, k).value;
      assert f.path[1..] == inner.path;
    } else if field.name !in s.properties && !s.additional {
      assert HasKey(v.fields, field.name);
    } else {
      FieldFaultIsThere(s, v, k + 1);
    }
  }

  lemma {:induction false} ItemFaultIsThere(s: Schema, v: Json, k: nat)
    requires v.Arr? && s.items.Some? && k <= |v.items| && CheckItems(s.items.value, v, k).Some?
    ensures var f := CheckItems(s.items.value, v, k).value; Leads(s, v, f.path, f.kind)
    decreases v, 0, |v.items| - k
  {
    if Check(s.items.value, v.items[k]).Some? {
      FaultIsThere(s.items.value, v.items[k]);
      var inner, f := Check(s.items.value, v.items[k]).value, CheckItems(s.items.value, v, k).value;
      assert f.path[1..] == inner.path;
    } else {
      ItemFaultIsThere(s, v, k + 1);
    }
  }

  /** Every reported fault is real: its path leads to a part of the value that breaks its part of the
      schema in the way reported. */
  lemma {:induction false} FaultIsThere(s: Schema, v: Json)
    requires Check(s, v).Some?
    ensures var f := Check(s, v).value; Leads(s, v, f.path, f.kind)
    decreases v, 1, 0
  {
    if HasType(s.kind, v) {
      if s.kind == ObjectType {
        FirstMissingIsMissing(s.required, v.fields);
        if FirstMissing(s.required, v.fields).None? && CheckFields(s, v, 0).Some? { FieldFaultIsThere(s, v, 0); }
      } else if s.kind == ArrayType && s.items.Some? && !(s.maxItems.Some? && |v.items| > s.maxItems.value) {
        if CheckItems(s.items.value, v, 0).Some? { ItemFaultIsThere(s, v, 0); }
      }
    }
  }
}
