/**
 Message conversion limits (src/ros_mcp/codec/message_codec.py): the truncation of large values and
 the schema built from a message type table that may be cyclic.
 */
module Codec {
  import opened RealMath

  // ----- truncation

  datatype Atom = Text(s: string) | Number(n: int) | Flag(b: bool) | OtherAtom(repr: string)

  /** What `message_to_ordereddict` yields. `Array(contents)` is a numpy array whose `tolist()` is
      `contents`. */
  datatype Value =
    | Dict(entries: seq<Entry>) | Bytes(data: seq<int>) | List(items: seq<Value>) | Array(contents: Value)
    | Scalar(atom: Atom)

  datatype Entry = Entry(key: string, value: Value)

  const Note := "use a dedicated perception tool or raise element_limit explicitly"

  function Marker(length: nat): Value {
    Dict([Entry("truncated", Scalar(Flag(true))), Entry("length", Scalar(Number(length))),
          Entry("note", Scalar(Text(Note)))])
  }

  function HexDigit(n: int): char { "0123456789abcdef"[n % 16] }

  function HexByte(n: int): string { [HexDigit(n / 16), HexDigit(n)] }

  function Hex(data: seq<int>): string
    decreases |data|
  {
    if |data| == 0 then "" else Hex(data[..|data| - 1]) + HexByte(data[|data| - 1])
  }

  /** `_truncate_large_values`. */
  function Truncate(v: Value, limit: nat): Value {
    match v
    case Dict(entries) =>
      Dict(seq(|entries|, i requires 0 <= i < |entries| => Entry(entries[i].key, Truncate(entries[i].value, limit))))
    case Bytes(data) => if |data| > limit then Marker(|data|) else Scalar(Text(Hex(data)))
    case List(items) =>
      if |items| > limit then Marker(|items|)
      else List(seq(|items|, i requires 0 <= i < |items| => Truncate(items[i], limit)))
    case Array(contents) => Truncate(contents, limit)
    case Scalar(_) => v
  }

  /** Nothing but dictionaries, atoms and lists of at most `limit` elements. */
  ghost predicate PlainAndSmall(v: Value, limit: nat) {
    match v
    case Dict(entries) => forall i | 0 <= i < |entries| :: PlainAndSmall(entries[i].value, limit)
    case Bytes(_) => false
    case List(items) => |items| <= limit && forall i | 0 <= i < |items| :: PlainAndSmall(items[i], limit)
    case Array(_) => false
    case Scalar(_) => true
  }

  lemma MarkerIsSmall(length: nat, limit: nat)
    ensures PlainAndSmall(Marker(length), limit)
  {}

  /** Whatever the value, the output holds no list longer than the limit, no bytes and no arrays. */
  lemma {:induction false} TruncatedIsSmall(v: Value, limit: nat)
    ensures PlainAndSmall(Truncate(v, limit), limit)
    decreases v
  {
    match v {
      case Dict(entries) =>
        forall i | 0 <= i < |entries| ensures PlainAndSmall(Truncate(entries[i].value, limit), limit) {
          TruncatedIsSmall(entries[i].value, limit);
        }
      case Bytes(data) => MarkerIsSmall(|data|, limit);
      case List(items) =>
        MarkerIsSmall(|items|, limit);
        forall i | 0 <= i < |items| ensures PlainAndSmall(Truncate(items[i], limit), limit) {
          TruncatedIsSmall(items[i], limit);
        }
      case Array(contents) => TruncatedIsSmall(contents, limit);
      case Scalar(_) =>
    }
  }

  lemma {:induction false} SmallIsKept(v: Value, limit: nat)
    requires PlainAndSmall(v, limit)
    ensures Truncate(v, limit) == v
    decreases v
  {
    match v {
      case Dict(entries) =>
        var t := Truncate(v, limit);
        forall i | 0 <= i < |entries| ensures t.entries[i] == entries[i] { SmallIsKept(entries[i].value, limit); }
        assert t.entries == entries;
      case List(items) =>
        var t := Truncate(v, limit);
        forall i | 0 <= i < |items| ensures t.items[i] == items[i] { SmallIsKept(items[i], limit); }
        assert t.items == items;
      case _ =>
    }
  }

  /** Truncation leaves alone exactly the values that need none; in particular truncating twice is
      truncating once. */
  lemma TruncationFixes(v: Value, limit: nat)
    ensures Truncate(v, limit) == v <==> PlainAndSmall(v, limit)
    ensures Truncate(Truncate(v, limit), limit) == Truncate(v, limit)
  {
    TruncatedIsSmall(v, limit);
    SmallIsKept(Truncate(v, limit), limit);
    if PlainAndSmall(v, limit) { SmallIsKept(v, limit); }
  }

  datatype Step = Key(name: string) | Index(i: nat)

  /** The first entry with this key. */
  function Find(entries: seq<Entry>, key: string): Option<nat> {
    if |entries| == 0 then None
    else if entries[0].key == key then Some(0)
    else
      var rest := Find(entries[1..], key);
      if rest.Some? then Some(rest.value + 1) else None
  }

  lemma {:induction false} FindHolds(entries: seq<Entry>, key: string)
    ensures Find(entries, key).Some? ==>
              Find(entries, key).value < |entries| && entries[Find(entries, key).value].key == key
    decreases |entries|
  {
    if |entries| > 0 { FindHolds(entries[1..], key); }
  }

  lemma {:induction false} FindByKeys(a: seq<Entry>, b: seq<Entry>, key: string)
    requires |a| == |b| && forall i | 0 <= i < |a| :: a[i].key == b[i].key
    ensures Find(a, key) == Find(b, key)
    decreases |a|
  {
    if |a| > 0 { FindByKeys(a[1..], b[1..], key); }
  }

  /** The part of the value at a path of keys and positions; arrays are seen through. */
  function At(v: Value, path: seq<Step>): Option<Value>
    decreases |path|, v
  {
    if |path| == 0 then Some(v)
    else match v
      case Dict(entries) =>
        if !path[0].Key? then None
        else
          var k := Find(entries, path[0].name);
          if k.Some? && k.value < |entries| then At(entries[k.value].value, path[1..]) else None
      case List(items) => if path[0].Index? && path[0].i < |items| then At(items[path[0].i], path[1..]) else None
      case Array(contents) => At(contents, path)
      case _ => None
  }

  /** No list on the way down the path exceeds the limit. */
  ghost predicate ShortLists(v: Value, path: seq<Step>, limit: nat)
    decreases |path|, v
  {
    |path| > 0 ==>
      match v
      case Dict(entries) =>
        path[0].Key? ==>
          var k := Find(entries, path[0].name);
          k.Some? && k.value < |entries| ==> ShortLists(entries[k.value].value, path[1..], limit)
      case List(items) =>
        |items| <= limit && (path[0].Index? && path[0].i < |items| ==> ShortLists(items[path[0].i], path[1..], limit))
      case Array(contents) => ShortLists(contents, path, limit)
      case Bytes(data) => |data| <= limit
      case Scalar(_) => true
  }

  /** Nothing is lost or moved: at every path that crosses no overlong list the output holds exactly the
      truncation of what the value holds there -- same keys, same positions, nothing added. */
  lemma {:induction false} TruncationKeepsPaths(v: Value, path: seq<Step>, limit: nat)
    requires ShortLists(v, path, limit)
    ensures At(Truncate(v, limit), path) == if At(v, path).Some? then Some(Truncate(At(v, path).value, limit)) else None
    decreases |path|, v
  {
    if |path| > 0 {
      match v {
        case Dict(entries) =>
          var t := Truncate(v, limit);
          if path[0].Key? {
            FindByKeys(entries, t.entries, path[0].name);
            FindHolds(entries, path[0].name);
            var k := Find(entries, path[0].name);
            if k.Some? { TruncationKeepsPaths(entries[k.value].value, path[1..], limit); }
          }
        case List(items) =>
          if path[0].Index? && path[0].i < |items| { TruncationKeepsPaths(items[path[0].i], path[1..], limit); }
        case Array(contents) => TruncationKeepsPaths(contents, path, limit);
        case _ =>
      }
    }
  }

  lemma {:induction false} AtAppend(v: Value, path: seq<Step>, more: seq<Step>)
    ensures At(v, path + more) == if At(v, path).Some? then At(At(v, path).value, more) else None
    decreases |path|, v
  {
    if |path| == 0 {
      assert path + more == more;
    } else {
      assert (path + more)[0] == path[0] && (path + more)[1..] == path[1..] + more;
      match v {
        case Dict(entries) =>
          if path[0].Key? {
            var k := Find(entries, path[0].name);
            if k.Some? && k.value < |entries| { AtAppend(entries[k.value].value, path[1..], more); }
          }
        case List(items) =>
          if path[0].Index? && path[0].i < |items| { AtAppend(items[path[0].i], path[1..], more); }
        case Array(contents) => AtAppend(contents, path, more);
        case _ =>
      }
    }
  }

  /** The length of a list or byte string, an array being its `tolist()`. */
  function LengthOf(v: Value): Option<nat> {
    match v
    case List(items) => Some(|items|)
    case Bytes(data) => Some(|data|)
    case Array(contents) => LengthOf(contents)
    case _ => None
  }

  lemma {:induction false} OverlongBecomesMarker(v: Value, limit: nat)
    requires LengthOf(v).Some? && LengthOf(v).value > limit
    ensures Truncate(v, limit) == Marker(LengthOf(v).value)
    decreases v
  {
    if v.Array? { OverlongBecomesMarker(v.contents, limit); }
  }

  lemma MarkerTells(n: nat)
    ensures At(Marker(n), [Key("truncated")]) == Some(Scalar(Flag(true)))
    ensures At(Marker(n), [Key("length")]) == Some(Scalar(Number(n)))
  {
    assert |"truncated"| == 9 && |"length"| == 6 && |"note"| == 4;
    var t := Marker(n);
    assert Find(t.entries, "truncated") == Some(0);
    assert Find(t.entries[1..], "length") == Some(0);
    assert At(t.entries[0].value, []) == Some(Scalar(Flag(true)));
  }

  /** What does not fit is named where it was: at every path to an overlong list or byte string the output
      holds a marker with its exact length. */
  lemma {:induction false} OverlongIsMarked(v: Value, path: seq<Step>, limit: nat)
    requires ShortLists(v, path, limit) && At(v, path).Some?
    requires LengthOf(At(v, path).value).Some? && LengthOf(At(v, path).value).value > limit
    ensures var t, n := Truncate(v, limit), LengthOf(At(v, path).value).value;
            && At(t, path + [Key("truncated")]) == Some(Scalar(Flag(true)))
            && At(t, path + [Key("length")]) == Some(Scalar(Number(n)))
  {
    TruncationKeepsPaths(v, path, limit);
    OverlongBecomesMarker(At(v, path).value, limit);
    AtAppend(Truncate(v, limit), path, [Key("truncated")]);
    AtAppend(Truncate(v, limit), path, [Key("length")]);
    MarkerTells(LengthOf(At(v, path).value).value);
  }

  lemma HexDigitInjective(a: int, b: int)
    requires HexDigit(a) == HexDigit(b)
    ensures a % 16 == b % 16
  {
    var digits := "0123456789abcdef";
    assert forall i, j | 0 <= i < j < 16 :: digits[i] != digits[j];
  }

  lemma HexByteInjective(a: int, b: int)
    requires 0 <= a < 256 && 0 <= b < 256 && HexByte(a) == HexByte(b)
    ensures a == b
  {
    assert HexByte(a)[0] == HexByte(b)[0] && HexByte(a)[1] == HexByte(b)[1];
    HexDigitInjective(a / 16, b / 16);
    HexDigitInjective(a, b);
  }

  ghost predicate AreBytes(data: seq<int>) { forall i | 0 <= i < |data| :: 0 <= data[i] < 256 }

  /** Byte strings within the limit survive: two characters a byte, and different bytes give different
      text. */
  lemma {:induction false} HexLosesNothing(a: seq<int>, b: seq<int>)
    requires AreBytes(a) && AreBytes(b)
    ensures |Hex(a)| == 2 * |a|
    ensures Hex(a) == Hex(b) ==> a == b
    decreases |a|
  {
    HexLength(a);
    HexLength(b);
    if |a| > 0 && |a| == |b| {
      var x, y, p, q := a[|a| - 1], b[|b| - 1], a[..|a| - 1], b[..|b| - 1];
      HexLosesNothing(p, q);
      HexLength(q);
      if Hex(a) == Hex(b) {
        SameSplit(Hex(p), HexByte(x), Hex(q), HexByte(y));
        HexByteInjective(x, y);
        assert a == p + [x] && b == q + [y];
      }
    }
  }

  lemma SameSplit(p: string, x: string, q: string, y: string)
    requires |p| == |q| && p + x == q + y
    ensures p == q && x == y
  {
    assert (p + x)[..|p|] == p && (q + y)[..|q|] == q;
    assert (p + x)[|p|..] == x && (q + y)[|q|..] == y;
  }

  lemma {:induction false} HexLength(data: seq<int>)
    ensures |Hex(data)| == 2 * |data|
    decreases |data|
  {
    if |data| > 0 { HexLength(data[..|data| - 1]); }
  }

  /** A hexadecimal digit by its code: '0' is 48 and 'a' is 97. */
  function HexCode(d: int): int { if d < 10 then 48 + d else 97 + (d - 10) }

  lemma HexDigitIs(n: int)
    ensures HexDigit(n) as int == HexCode(n % 16)
  {}

  lemma HexByteIs(n: int)
    requires 0 <= n < 256
    ensures |HexByte(n)| == 2 && HexByte(n)[0] as int == HexCode(n / 16) && HexByte(n)[1] as int == HexCode(n % 16)
  {
    HexDigitIs(n / 16);
    HexDigitIs(n);
  }

  /** Byte `i` is at positions `2 * i` and `2 * i + 1`, its high half first. */
  lemma {:induction false} HexSpells(data: seq<int>, i: nat)
    requires AreBytes(data) && i < |data|
    ensures |Hex(data)| == 2 * |data|
    ensures Hex(data)[2 * i] as int == HexCode(data[i] / 16) && Hex(data)[2 * i + 1] as int == HexCode(data[i] % 16)
    decreases |data|
  {
    HexLength(data);
    var init, last := data[..|data| - 1], data[|data| - 1];
    HexLength(init);
    assert Hex(data) == Hex(init) + HexByte(last);
    if i < |init| {
      assert init[i] == data[i];
      HexSpells(init, i);
      assert Hex(data)[2 * i] == Hex(init)[2 * i] && Hex(data)[2 * i + 1] == Hex(init)[2 * i + 1];
    } else {
      HexByteIs(last);
      assert Hex(data)[2 * i] == HexByte(last)[0] && Hex(data)[2 * i + 1] == HexByte(last)[1];
    }
  }

  /** A byte string within the limit becomes this text. */
  lemma BytesBecomeHex(data: seq<int>, limit: nat)
    requires AreBytes(data) && |data| <= limit
    ensures var t := Truncate(Bytes(data), limit);
            && t.Scalar? && t.atom.Text? && |t.atom.s| == 2 * |data|
            && forall i: nat | i < |data| ::
                 && t.atom.s[2 * i] as int == HexCode(data[i] / 16)
                 && t.atom.s[2 * i + 1] as int == HexCode(data[i] % 16)
  {
    HexLength(data);
    forall i: nat | i < |data|
      ensures Hex(data)[2 * i] as int == HexCode(data[i] / 16)
      ensures Hex(data)[2 * i + 1] as int == HexCode(data[i] % 16)
    {
      HexSpells(data, i);
    }
  }

  // ----- schemas

  /** A field type as the two regular expressions split it. */
  datatype FieldType = Plain(base: string) | ListOf(base: string, bound: Option<nat>)

  datatype FieldDecl = FieldDecl(name: string, fieldType: FieldType)

  /** What `get_message` knows: any table, cyclic or not. */
  type TypeTable = map<string, seq<FieldDecl>>

  datatype JsonSchema =
    | ObjectSchema(typeName: string, properties: seq<Property>)
    | ListSchema(items: JsonSchema, maxItems: Option<nat>)
    | Primitive(jsonType: string)
    | DepthNote

  datatype Property = Property(name: string, schema: JsonSchema)

  datatype Build<T> = Built(value: T) | UnknownType(name: string)

  const DepthCap := 16

  function JsonTypeOf(base: string): string {
    if base in ["boolean", "bool"] then "boolean"
    else if base in ["float", "float32", "float64", "double"] then "number"
    else if base in ["byte", "char", "int8", "uint8", "int16", "uint16", "int32", "uint32", "int64", "uint64"]
    then "integer"
    else "string"
  }

  lemma BooleanNames(base: string)
    ensures base in ["boolean", "bool"] <==> base == "boolean" || base == "bool"
    ensures base in ["boolean", "bool"] ==> |base| > 1 && base[0] == 'b' && base[1] == 'o'
  {
    var names := ["boolean", "bool"];
    assert names[0] == "boolean" && names[1] == "bool";
  }

  lemma FloatNames(base: string)
    ensures base in ["float", "float32", "float64", "double"] <==>
            base == "float" || base == "float32" || base == "float64" || base == "double"
    ensures base in ["float", "float32", "float64", "double"] ==> |base| > 1 && (base[0] == 'f' || base[0] == 'd')
  {
    var names := ["float", "float32", "float64", "double"];
    assert names[0] == "float" && names[1] == "float32" && names[2] == "float64" && names[3] == "double";
  }

  predicate IsIntegerName(base: string) {
    || base == "byte" || base == "char" || base == "int8" || base == "uint8" || base == "int16"
    || base == "uint16" || base == "int32" || base == "uint32" || base == "int64" || base == "uint64"
  }

  lemma IntegerNames(base: string)
    ensures base in ["byte", "char", "int8", "uint8", "int16", "uint16", "int32", "uint32", "int64", "uint64"]
            <==> IsIntegerName(base)
  {
    var names := ["byte", "char", "int8", "uint8", "int16", "uint16", "int32", "uint32", "int64", "uint64"];
    assert names[0] == "byte" && names[1] == "char" && names[2] == "int8" && names[3] == "uint8";
    assert names[4] == "int16" && names[5] == "uint16" && names[6] == "int32" && names[7] == "uint32";
    assert names[8] == "int64" && names[9] == "uint64";
  }

  lemma IntegerNamesStart(base: string)
    requires IsIntegerName(base)
    ensures |base| > 1 && base[0] != 'f' && base[0] != 'd' && !(base[0] == 'b' && base[1] == 'o')
  {}

  lemma TypeWordsDiffer()
    ensures "boolean" != "number" && "boolean" != "integer" && "boolean" != "string"
    ensures "number" != "integer" && "number" != "string" && "integer" != "string"
  {
    assert "boolean"[0] == 'b' && "number"[0] == 'n' && "integer"[0] == 'i' && "string"[0] == 's';
  }

  /** The primitive types by name; any other name is a string. */
  lemma JsonTypesAre(base: string)
    ensures JsonTypeOf(base) == "boolean" <==> base == "boolean" || base == "bool"
    ensures JsonTypeOf(base) == "number" <==>
            base == "float" || base == "float32" || base == "float64" || base == "double"
    ensures JsonTypeOf(base) == "integer" <==> IsIntegerName(base)
    ensures JsonTypeOf(base) in {"boolean", "number", "integer", "string"}
  {
    TypeWordsDiffer();
    BooleanNames(base);
    FloatNames(base);
    IntegerNames(base);
    if IsIntegerName(base) { IntegerNamesStart(base); }
  }

  predicate IsMessageType(base: string) { '/' in base }

  function SplitAtSlash(s: string): (string, string)
    requires '/' in s
  {
    if s[0] == '/' then ("", s[1..])
    else
      var (pkg, cls) := SplitAtSlash(s[1..]);
      ([s[0]] + pkg, cls)
  }

  predicate Contains(s: string, part: string)
    decreases |s|
  {
    part <= s || (|s| > 0 && Contains(s[1..], part))
  }

  /** `_to_message_type_name`. */
  function MessageTypeName(base: string): string {
    if IsMessageType(base) && !Contains(base, "/msg/") then
      var (pkg, cls) := SplitAtSlash(base);
      pkg + "/msg/" + cls
    else base
  }

  lemma {:induction false} SplitAtFirstSlash(s: string, pkg: string, cls: string)
    requires s == pkg + "/" + cls && '/' !in pkg
    ensures SplitAtSlash(s) == (pkg, cls)
    decreases |pkg|
  {
    if |pkg| == 0 {
      assert pkg == "" && s[0] == '/' && s[1..] == cls;
    } else {
      assert s[0] == pkg[0] && pkg[0] in pkg;
      assert s[1..] == pkg[1..] + "/" + cls;
      SplitAtFirstSlash(s[1..], pkg[1..], cls);
      assert [s[0]] + pkg[1..] == pkg;
    }
  }

  lemma {:induction false} ContainsMiddle(a: string, part: string, b: string)
    ensures Contains(a + part + b, part)
    decreases |a|
  {
    var s := a + part + b;
    if |a| == 0 {
      assert s == part + b;
      assert part <= s;
    } else {
      assert s[1..] == a[1..] + part + b;
      ContainsMiddle(a[1..], part, b);
    }
  }

  /** A short name `pkg/Type` becomes `pkg/msg/Type`, once: a full name is left alone. */
  lemma TypeNamesAreCompleted(pkg: string, cls: string)
    requires '/' !in pkg && !Contains(pkg + "/" + cls, "/msg/")
    ensures MessageTypeName(pkg + "/" + cls) == pkg + "/msg/" + cls
    ensures MessageTypeName(pkg + "/msg/" + cls) == pkg + "/msg/" + cls
  {
    var s := pkg + "/" + cls;
    assert s[|pkg|] == '/';
    SplitAtFirstSlash(s, pkg, cls);
    ContainsMiddle(pkg, "/msg/", cls);
  }

  /** `_build_schema` with `fuel` levels left: 17 minus the source's depth. */
  function BuildSchema(types: TypeTable, name: string, fuel: nat): Build<JsonSchema>
    decreases fuel, 1, 0
  {
    if fuel == 0 then Built(DepthNote)
    else if name !in types then UnknownType(name)
    else match BuildFields(types, types[name], fuel)
      case Built(properties) => Built(ObjectSchema(name, properties))
      case UnknownType(missing) => UnknownType(missing)
  }

  function BuildFields(types: TypeTable, fields: seq<FieldDecl>, fuel: nat): Build<seq<Property>>
    requires fuel > 0
    decreases fuel, 0, |fields|
  {
    if |fields| == 0 then Built([])
    else match BuildBase(types, fields[0].fieldType.base, fuel)
      case UnknownType(missing) => UnknownType(missing)
      case Built(base) =>
        var schema := if fields[0].fieldType.ListOf? then ListSchema(base, fields[0].fieldType.bound) else base;
        match BuildFields(types, fields[1..], fuel)
        case UnknownType(missing) => UnknownType(missing)
        case Built(rest) => Built([Property(fields[0].name, schema)] + rest)
  }

  /** `_scalar_or_message_schema`. */
  function BuildBase(types: TypeTable, base: string, fuel: nat): Build<JsonSchema>
    requires fuel > 0
    decreases fuel, 0, 0
  {
    if IsMessageType(base) then BuildSchema(types, MessageTypeName(base), fuel - 1)
    else Built(Primitive(JsonTypeOf(base)))
  }

  function SchemaOf(types: TypeTable, name: string): Build<JsonSchema> {
    BuildSchema(types, name, DepthCap + 1)
  }

  /** Type `a` has a field of (a list of) message type `b`. */
  ghost predicate Refers(types: TypeTable, a: string, b: string) {
    a in types && exists i :: 0 <= i < |types[a]| && RefersBy(types[a][i], b)
  }

  predicate RefersBy(field: FieldDecl, b: string) {
    IsMessageType(field.fieldType.base) && MessageTypeName(field.fieldType.base) == b
  }

  /** A chain of references. */
  ghost predicate Chain(types: TypeTable, chain: seq<string>) {
    forall i | 0 <= i < |chain| - 1 :: Refers(types, chain[i], chain[i + 1])
  }

  ghost predicate ChainFrom(types: TypeTable, chain: seq<string>, name: string, n: nat) {
    |chain| == n + 1 && chain[0] == name && Chain(types, chain)
  }

  /** The depth note appears somewhere in the schema. */
  predicate HasNote(s: JsonSchema) {
    match s
    case DepthNote => true
    case Primitive(_) => false
    case ListSchema(items, _) => HasNote(items)
    case ObjectSchema(_, properties) => exists i :: 0 <= i < |properties| && HasNote(properties[i].schema)
  }

  predicate AnyNote(properties: seq<Property>) {
    exists i :: 0 <= i < |properties| && HasNote(properties[i].schema)
  }

  lemma Prepend(types: TypeTable, a: string, chain: seq<string>, b: string, n: nat)
    requires Refers(types, a, b) && ChainFrom(types, chain, b, n)
    ensures ChainFrom(types, [a] + chain, a, n + 1)
  {
    var longer := [a] + chain;
    forall i | 0 <= i < |longer| - 1 ensures Refers(types, longer[i], longer[i + 1]) {
      if i > 0 { assert Refers(types, chain[i - 1], chain[i]); }
    }
  }

  lemma Behead(types: TypeTable, chain: seq<string>, a: string, n: nat)
    requires n > 0 && ChainFrom(types, chain, a, n)
    ensures Refers(types, a, chain[1]) && ChainFrom(types, chain[1..], chain[1], n - 1)
  {
    assert Refers(types, chain[0], chain[1]);
    forall i | 0 <= i < |chain[1..]| - 1 ensures Refers(types, chain[1..][i], chain[1..][i + 1]) {
      assert Refers(types, chain[i + 1], chain[i + 2]);
    }
  }

  ghost predicate LongChain(types: TypeTable, name: string, n: nat) {
    exists chain :: ChainFrom(types, chain, name, n)
  }

  /** Some of these fields starts a chain of `n` further references. */
  ghost predicate FieldsChain(types: TypeTable, fields: seq<FieldDecl>, n: nat) {
    exists i :: 0 <= i < |fields| && IsMessageType(fields[i].fieldType.base)
                && LongChain(types, MessageTypeName(fields[i].fieldType.base), n)
  }

  lemma LongChainStep(types: TypeTable, name: string, n: nat)
    requires n > 0
    ensures LongChain(types, name, n) <==> name in types && FieldsChain(types, types[name], n - 1)
  {
    if LongChain(types, name, n) {
      var chain :| ChainFrom(types, chain, name, n);
      Behead(types, chain, name, n);
      var i :| 0 <= i < |types[name]| && RefersBy(types[name][i], chain[1]);
      assert LongChain(types, MessageTypeName(types[name][i].fieldType.base), n - 1);
    }
    if name in types && FieldsChain(types, types[name], n - 1) {
      var i :| 0 <= i < |types[name]| && IsMessageType(types[name][i].fieldType.base)
               && LongChain(types, MessageTypeName(types[name][i].fieldType.base), n - 1);
      var b := MessageTypeName(types[name][i].fieldType.base);
      var chain :| ChainFrom(types, chain, b, n - 1);
      assert RefersBy(types[name][i], b);
      Prepend(types, name, chain, b, n - 1);
    }
  }

  lemma {:induction false} NoteInFields(types: TypeTable, fields: seq<FieldDecl>, fuel: nat)
    requires fuel > 0 && BuildFields(types, fields, fuel).Built?
    ensures AnyNote(BuildFields(types, fields, fuel).value) <==> FieldsChain(types, fields, fuel - 1)
    decreases fuel, 0, |fields|
  {
    if |fields| > 0 {
      var base := fields[0].fieldType.base;
      NoteInFields(types, fields[1..], fuel);
      if IsMessageType(base) { NoteExactly(types, MessageTypeName(base), fuel - 1); }
      var all, rest := BuildFields(types, fields, fuel).value, BuildFields(types, fields[1..], fuel).value;
      assert all[1..] == rest;
      AnyNoteStep(all);
      FieldsChainStep(types, fields, fuel - 1);
    }
  }

  lemma AnyNoteStep(properties: seq<Property>)
    requires |properties| > 0
    ensures AnyNote(properties) <==> HasNote(properties[0].schema) || AnyNote(properties[1..])
  {
    if AnyNote(properties[1..]) {
      var i :| 0 <= i < |properties[1..]| && HasNote(properties[1..][i].schema);
      assert HasNote(properties[i + 1].schema);
    }
    if AnyNote(properties) {
      var i :| 0 <= i < |properties| && HasNote(properties[i].schema);
      if i > 0 { assert properties[1..][i - 1] == properties[i]; }
    }
  }

  lemma FieldsChainStep(types: TypeTable, fields: seq<FieldDecl>, n: nat)
    requires |fields| > 0
    ensures FieldsChain(types, fields, n) <==>
            (IsMessageType(fields[0].fieldType.base) && LongChain(types, MessageTypeName(fields[0].fieldType.base), n))
            || FieldsChain(types, fields[1..], n)
  {
    if FieldsChain(types, fields[1..], n) {
      var i :| 0 <= i < |fields[1..]| && IsMessageType(fields[1..][i].fieldType.base)
               && LongChain(types, MessageTypeName(fields[1..][i].fieldType.base), n);
      assert fields[i + 1] == fields[1..][i];
    }
    if FieldsChain(types, fields, n) {
      var i :| 0 <= i < |fields| && IsMessageType(fields[i].fieldType.base)
               && LongChain(types, MessageTypeName(fields[i].fieldType.base), n);
      if i > 0 { assert fields[1..][i - 1] == fields[i]; }
    }
  }

  /** A schema that was built contains the depth note exactly when a chain of as many references as
      there are levels left starts at the type; at the top level that is a chain of 17. */
  lemma {:induction false} NoteExactly(types: TypeTable, name: string, fuel: nat)
    requires BuildSchema(types, name, fuel).Built?
    ensures HasNote(BuildSchema(types, name, fuel).value) <==> LongChain(types, name, fuel)
    decreases fuel, 1, 0
  {
    if fuel == 0 {
      assert ChainFrom(types, [name], name, 0);
    } else {
      NoteInFields(types, types[name], fuel);
      LongChainStep(types, name, fuel);
    }
  }

  /** What a client gets has the note exactly for a chain of 17 references. */
  lemma NoteAfterSeventeen(types: TypeTable, name: string)
    requires SchemaOf(types, name).Built?
    ensures HasNote(SchemaOf(types, name).value) <==> LongChain(types, name, 17)
  {
    NoteExactly(types, name, 17);
  }

  // ----- the schema mirrors the type

  /** The schema of one field: a list schema with the bound exactly for a list field, around what the
      base type gives. */
  ghost predicate Mirrors(types: TypeTable, field: FieldDecl, p: Property, fuel: nat)
    requires fuel > 0
  {
    && p.name == field.name
    && (field.fieldType.ListOf? ==>
          p.schema.ListSchema? && p.schema.maxItems == field.fieldType.bound
          && Built(p.schema.items) == BuildBase(types, field.fieldType.base, fuel))
    && (field.fieldType.Plain? ==> Built(p.schema) == BuildBase(types, field.fieldType.base, fuel))
  }

  lemma {:induction false} FieldsMirrored(types: TypeTable, fields: seq<FieldDecl>, fuel: nat)
    requires fuel > 0 && BuildFields(types, fields, fuel).Built?
    ensures var properties := BuildFields(types, fields, fuel).value;
            |properties| == |fields| && forall i | 0 <= i < |fields| :: Mirrors(types, fields[i], properties[i], fuel)
    decreases |fields|
  {
    if |fields| > 0 {
      FieldsMirrored(types, fields[1..], fuel);
      var properties := BuildFields(types, fields, fuel).value;
      forall i | 0 <= i < |fields| ensures Mirrors(types, fields[i], properties[i], fuel) {
        if i > 0 { assert Mirrors(types, fields[1..][i - 1], properties[1..][i - 1], fuel); }
      }
    }
  }

  /** A schema that was built has one property per field of the type, in its order, each mirroring its
      field. */
  lemma SchemaMirrorsType(types: TypeTable, name: string, fuel: nat)
    requires fuel > 0 && BuildSchema(types, name, fuel).Built?
    ensures var schema := BuildSchema(types, name, fuel).value;
            && name in types && schema.ObjectSchema? && schema.typeName == name && |schema.properties| == |types[name]|
            && forall i | 0 <= i < |types[name]| :: Mirrors(types, types[name][i], schema.properties[i], fuel)
  {
    FieldsMirrored(types, types[name], fuel);
  }

  // ----- unknown types, and what the cap hides

  /** An unknown type is reached in fewer than `fuel` references. */
  ghost predicate Missing(types: TypeTable, name: string, fuel: nat) {
    exists n: nat, chain: seq<string> :: n < fuel && ChainFrom(types, chain, name, n) && chain[n] !in types
  }

  ghost predicate FieldsMissing(types: TypeTable, fields: seq<FieldDecl>, fuel: nat) {
    exists i :: 0 <= i < |fields| && IsMessageType(fields[i].fieldType.base)
                && Missing(types, MessageTypeName(fields[i].fieldType.base), fuel)
  }

  lemma MissingDown(types: TypeTable, name: string, fuel: nat)
    requires fuel > 0 && name in types && Missing(types, name, fuel)
    ensures FieldsMissing(types, types[name], fuel - 1)
  {
    var n: nat, chain: seq<string> :| n < fuel && ChainFrom(types, chain, name, n) && chain[n] !in types;
    Behead(types, chain, name, n);
    var i :| 0 <= i < |types[name]| && RefersBy(types[name][i], chain[1]);
    assert ChainFrom(types, chain[1..], chain[1], n - 1) && chain[1..][n - 1] !in types;
    assert Missing(types, MessageTypeName(types[name][i].fieldType.base), fuel - 1);
  }

  lemma MissingUp(types: TypeTable, name: string, fuel: nat)
    requires fuel > 0 && name in types && FieldsMissing(types, types[name], fuel - 1)
    ensures Missing(types, name, fuel)
  {
    var i :| 0 <= i < |types[name]| && IsMessageType(types[name][i].fieldType.base)
             && Missing(types, MessageTypeName(types[name][i].fieldType.base), fuel - 1);
    var b := MessageTypeName(types[name][i].fieldType.base);
    var n: nat, chain: seq<string> :| n < fuel - 1 && ChainFrom(types, chain, b, n) && chain[n] !in types;
    assert RefersBy(types[name][i], b);
    Prepend(types, name, chain, b, n);
    assert ([name] + chain)[n + 1] !in types;
  }

  lemma MissingStep(types: TypeTable, name: string, fuel: nat)
    requires fuel > 0
    ensures Missing(types, name, fuel) <==> name !in types || FieldsMissing(types, types[name], fuel - 1)
  {
    if name !in types {
      assert ChainFrom(types, [name], name, 0);
    } else if Missing(types, name, fuel) {
      MissingDown(types, name, fuel);
    } else if FieldsMissing(types, types[name], fuel - 1) {
      MissingUp(types, name, fuel);
    }
  }

  lemma FieldsMissingStep(types: TypeTable, fields: seq<FieldDecl>, fuel: nat)
    requires |fields| > 0
    ensures FieldsMissing(types, fields, fuel) <==>
            (IsMessageType(fields[0].fieldType.base) && Missing(types, MessageTypeName(fields[0].fieldType.base), fuel))
            || FieldsMissing(types, fields[1..], fuel)
  {
    if FieldsMissing(types, fields[1..], fuel) {
      var i :| 0 <= i < |fields[1..]| && IsMessageType(fields[1..][i].fieldType.base)
               && Missing(types, MessageTypeName(fields[1..][i].fieldType.base), fuel);
      assert fields[i + 1] == fields[1..][i];
    }
    if FieldsMissing(types, fields, fuel) {
      var i :| 0 <= i < |fields| && IsMessageType(fields[i].fieldType.base)
               && Missing(types, MessageTypeName(fields[i].fieldType.base), fuel);
      if i > 0 { assert fields[1..][i - 1] == fields[i]; }
    }
  }

  lemma {:induction false} FailureInFields(types: TypeTable, fields: seq<FieldDecl>, fuel: nat)
    requires fuel > 0
    ensures BuildFields(types, fields, fuel).UnknownType? <==> FieldsMissing(types, fields, fuel - 1)
    decreases fuel, 0, |fields|
  {
    if |fields| > 0 {
      var base := fields[0].fieldType.base;
      FailureInFields(types, fields[1..], fuel);
      FieldsFailStep(types, fields, fuel);
      if IsMessageType(base) { FailureExactly(types, MessageTypeName(base), fuel - 1); }
      FieldsMissingStep(types, fields, fuel - 1);
    }
  }

  lemma FieldsFailStep(types: TypeTable, fields: seq<FieldDecl>, fuel: nat)
    requires fuel > 0 && |fields| > 0
    ensures BuildFields(types, fields, fuel).UnknownType? <==>
            BuildBase(types, fields[0].fieldType.base, fuel).UnknownType?
            || BuildFields(types, fields[1..], fuel).UnknownType?
  {}

  /** Building fails exactly when a type the table does not know can be reached in fewer references
      than there are levels. */
  lemma {:induction false} FailureExactly(types: TypeTable, name: string, fuel: nat)
    ensures BuildSchema(types, name, fuel).UnknownType? <==> Missing(types, name, fuel)
    decreases fuel, 1, 0
  {
    if fuel > 0 {
      MissingStep(types, name, fuel);
      if name in types { FailureInFields(types, types[name], fuel); }
    }
  }

  lemma {:induction false} FieldsUnaffected(types: TypeTable, fields: seq<FieldDecl>, fuel: nat)
    requires fuel > 0 && !FieldsChain(types, fields, fuel - 1)
    ensures BuildFields(types, fields, fuel + 1) == BuildFields(types, fields, fuel)
    decreases fuel, 0, |fields|
  {
    if |fields| > 0 {
      var base := fields[0].fieldType.base;
      FieldsChainStep(types, fields, fuel - 1);
      FieldsUnaffected(types, fields[1..], fuel);
      if IsMessageType(base) { CapUnaffected(types, MessageTypeName(base), fuel - 1); }
    }
  }

  /** The cap changes nothing for a type without so long a chain: one more level gives the same
      schema, or the same failure. */
  lemma {:induction false} CapUnaffected(types: TypeTable, name: string, fuel: nat)
    requires !LongChain(types, name, fuel)
    ensures BuildSchema(types, name, fuel + 1) == BuildSchema(types, name, fuel)
    decreases fuel, 1, 0
  {
    if fuel == 0 {
      assert ChainFrom(types, [name], name, 0);
    } else if name in types {
      LongChainStep(types, name, fuel);
      FieldsUnaffected(types, types[name], fuel);
    }
  }

  // ----- the cache

  class MessageCodec {
    const types: TypeTable
    var cache: map<string, JsonSchema>

    /** Every cached schema is the one that would be built. */
    ghost predicate Valid()
      reads this
    {
      forall name | name in cache :: SchemaOf(types, name) == Built(cache[name])
    }

    constructor (types: TypeTable)
      ensures Valid() && this.types == types && cache == map[]
    {
      this.types := types;
      cache := map[];
    }

    /** `schema_for`: cached or not, the answer is that of an uncached build; failures are not cached. */
    method SchemaFor(name: string) returns (schema: Build<JsonSchema>)
      requires Valid()
      modifies this`cache
      ensures Valid() && schema == SchemaOf(types, name)
      ensures schema.Built? ==> cache == old(cache)[name := schema.value]
      ensures schema.UnknownType? ==> cache == old(cache)
    {
      if name in cache {
        assert cache[name := cache[name]] == cache;
        return Built(cache[name]);
      }
      schema := BuildSchema(types, name, DepthCap + 1);
      if schema.Built? {
        cache := cache[name := schema.value];
      }
    }
  }
}
