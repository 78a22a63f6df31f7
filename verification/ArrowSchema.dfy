/** The partial mapping from declared shapes to Arrow fields, and its inverse. */
module ArrowSchema {
  import opened Wrappers
  import opened Shapes

  /** Flat Arrow types; `Foreign` stands for every other one that no declaration maps to. */
  datatype Kind =
    | Boolean | Int8 | Int16 | Int32 | Int64 | UInt8 | UInt16 | UInt32 | UInt64
    | Float32 | Float64 | Utf8
    | Foreign(label_: string)

  datatype DataType =
    | Flat(kind: Kind)
    | ListOf(item: Field)
    | LargeListOf(item: Field)
    | StructOf(fields: seq<Field>)
    | MapOf(entries: Field, sorted: bool)

  type Metadata = map<string, string>

  datatype Field = Field(name: string, dataType: DataType, nullable: bool, metadata: Metadata)

  datatype MappingError =
    | RootNotStruct
    | UnsupportedPrimitive(path: string, primitive: string)
    | NestedOptional(path: string)
    | InvalidMapKey(path: string)
    | DuplicateField(path: string)
    | DepthLimit(path: string)

  const MAX_DEPTH: nat := 128

  /** A field as the mapping creates it, without metadata. */
  function Plain(name: string, dataType: DataType, nullable: bool): Field {
    Field(name, dataType, nullable, map[])
  }

  function PrimitiveKind(primitive: string): Option<Kind> {
    match primitive
    case "bool" => Some(Boolean)
    case "i8" => Some(Int8)
    case "i16" => Some(Int16)
    case "i32" => Some(Int32)
    case "i64" => Some(Int64)
    case "u8" => Some(UInt8)
    case "u16" => Some(UInt16)
    case "u32" => Some(UInt32)
    case "u64" => Some(UInt64)
    case "f32" => Some(Float32)
    case "f64" => Some(Float64)
    case "str" => Some(Utf8)
    case "String" => Some(Utf8)
    case _ => None
  }

  /** The label, in the language of declarations, of a flat Arrow type. */
  ghost predicate Labels(p: string, kind: Kind) {
    match kind
    case Boolean => p == "bool"
    case Int8 => p == "i8"
    case Int16 => p == "i16"
    case Int32 => p == "i32"
    case Int64 => p == "i64"
    case UInt8 => p == "u8"
    case UInt16 => p == "u16"
    case UInt32 => p == "u32"
    case UInt64 => p == "u64"
    case Float32 => p == "f32"
    case Float64 => p == "f64"
    case Utf8 => p == "str" || p == "String"
    case Foreign(_) => false
  }

  lemma PrimitiveTable(p: string, kind: Kind)
    ensures PrimitiveKind(p) == Some(kind) <==> Labels(p, kind)
  {
  }

  const KEY_PRIMITIVES: set<string> :=
    {"bool", "String", "i8", "i16", "i32", "i64", "i128", "u8", "u16", "u32", "u64", "u128", "isize", "usize"}

  predicate IsKeyShape(key: TypeShape) {
    key.Primitive? && key.name in KEY_PRIMITIVES
  }

  function Child(path: string, name: string): string {
    if path == "" then name else path + "." + name
  }

  predicate NamedBefore(fields: seq<FieldShape>, index: nat)
    requires index < |fields|
  {
    exists k :: 0 <= k < index && fields[k].name == fields[index].name
  }

  // ---------- what the mapping returns ----------

  function FieldOf(name: string, shape: TypeShape, path: string, depth: nat): Result<Field, MappingError>
    decreases shape, 1
  {
    if depth > MAX_DEPTH then Err(DepthLimit(path))
    else
      var (inner, nullable) := if shape.Optional? then (shape.inner, true) else (shape, false);
      match TypeOf(inner, path, depth)
      case Ok(t) => Ok(Plain(name, t, nullable))
      case Err(e) => Err(e)
  }

  function TypeOf(shape: TypeShape, path: string, depth: nat): Result<DataType, MappingError>
    decreases shape, 0
  {
    match shape
    case Optional(_) => Err(NestedOptional(path))
    case Primitive(p) =>
      (match PrimitiveKind(p)
       case Some(kind) => Ok(Flat(kind))
       case None => Err(UnsupportedPrimitive(path, p)))
    case Sequence(item) =>
      (match FieldOf("item", item, path + "[]", depth + 1)
       case Ok(f) => Ok(ListOf(f))
       case Err(e) => Err(e))
    case Struct(fields) =>
      (match FieldsOf(shape, path, depth, |fields|)
       case Ok(mapped) => Ok(StructOf(mapped))
       case Err(e) => Err(e))
    case Map(key, value) =>
      if !IsKeyShape(key) then Err(InvalidMapKey(path + ".key"))
      else
        match FieldOf("key", key, path + ".key", depth + 1)
        case Err(e) => Err(e)
        case Ok(k) =>
          match FieldOf("value", value, path + ".value", depth + 1)
          case Err(e) => Err(e)
          case Ok(v) => Ok(MapOf(Entries(k, v), false))
  }

  function Entries(key: Field, value: Field): Field {
    Plain("entries", StructOf([key, value]), false)
  }

  /** The first `count` members of a struct, or the error of the earliest one that fails. */
  function FieldsOf(parent: TypeShape, path: string, depth: nat, count: nat): (r: Result<seq<Field>, MappingError>)
    requires parent.Struct? && count <= |parent.fields|
    ensures r.Ok? ==> |r.value| == count
    decreases parent, 0, count
  {
    if count == 0 then Ok([])
    else
      match FieldsOf(parent, path, depth, count - 1)
      case Err(e) => Err(e)
      case Ok(mapped) =>
        var field := parent.fields[count - 1];
        if NamedBefore(parent.fields, count - 1) then Err(DuplicateField(Child(path, field.name)))
        else
          match FieldOf(field.name, field.shape, Child(path, field.name), depth + 1)
          case Err(e) => Err(e)
          case Ok(f) => Ok(mapped + [f])
  }

  function SchemaOf(shape: TypeShape): Result<seq<Field>, MappingError> {
    if shape.Struct? then FieldsOf(shape, "", 0, |shape.fields|) else Err(RootNotStruct)
  }

  // ---------- the mapping as written ----------

  method Schema(shape: TypeShape) returns (r: Result<seq<Field>, MappingError>)
    ensures r == SchemaOf(shape)
  {
    if !shape.Struct? {
      return Err(RootNotStruct);
    }
    r := StructFields(shape, "", 0);
  }

  method StructFields(parent: TypeShape, path: string, depth: nat) returns (r: Result<seq<Field>, MappingError>)
    requires parent.Struct?
    ensures r == FieldsOf(parent, path, depth, |parent.fields|)
    decreases parent, 0
  {
    var mapped: seq<Field> := [];
    var index := 0;
    while index < |parent.fields|
      invariant 0 <= index <= |parent.fields|
      invariant FieldsOf(parent, path, depth, index) == Ok(mapped)
    {
      var field := parent.fields[index];
      var here := Child(path, field.name);
      var prior := 0;
      while prior < index && parent.fields[prior].name != field.name
        invariant 0 <= prior <= index
        invariant forall k :: 0 <= k < prior ==> parent.fields[k].name != field.name
      {
        prior := prior + 1;
      }
      if prior < index {
        assert NamedBefore(parent.fields, index);
        StuckAt(parent, path, depth, index + 1, |parent.fields|);
        return Err(DuplicateField(here));
      }
      var f := MapField(field.name, field.shape, here, depth + 1);
      if f.Err? {
        StuckAt(parent, path, depth, index + 1, |parent.fields|);
        return Err(f.error);
      }
      mapped := mapped + [f.value];
      index := index + 1;
    }
    return Ok(mapped);
  }

  /** Once a member fails, the members after it change nothing. */
  lemma {:induction false} StuckAt(parent: TypeShape, path: string, depth: nat, count: nat, more: nat)
    requires parent.Struct? && count <= more <= |parent.fields|
    requires FieldsOf(parent, path, depth, count).Err?
    ensures FieldsOf(parent, path, depth, more) == FieldsOf(parent, path, depth, count)
    decreases more
  {
    if count < more {
      StuckAt(parent, path, depth, count, more - 1);
    }
  }

  method MapField(name: string, shape: TypeShape, path: string, depth: nat) returns (r: Result<Field, MappingError>)
    ensures r == FieldOf(name, shape, path, depth)
    decreases shape, 1
  {
    if depth > MAX_DEPTH {
      return Err(DepthLimit(path));
    }
    var inner, nullable := shape, false;
    if shape.Optional? {
      inner, nullable := shape.inner, true;
    }
    var dataType: DataType;
    match inner {
      case Optional(_) => return Err(NestedOptional(path));
      case Primitive(p) =>
        var kind := PrimitiveKind(p);
        if kind.None? {
          return Err(UnsupportedPrimitive(path, p));
        }
        dataType := Flat(kind.value);
      case Sequence(item) =>
        var f := MapField("item", item, path + "[]", depth + 1);
        if f.Err? {
          return Err(f.error);
        }
        dataType := ListOf(f.value);
      case Struct(_) =>
        var mapped := StructFields(inner, path, depth);
        if mapped.Err? {
          return Err(mapped.error);
        }
        dataType := StructOf(mapped.value);
      case Map(key, value) =>
        if !IsKeyShape(key) {
          return Err(InvalidMapKey(path + ".key"));
        }
        var k := MapField("key", key, path + ".key", depth + 1);
        if k.Err? {
          return Err(k.error);
        }
        var v := MapField("value", value, path + ".value", depth + 1);
        if v.Err? {
          return Err(v.error);
        }
        dataType := MapOf(Plain("entries", StructOf([k.value, v.value]), false), false);
    }
    return Ok(Plain(name, dataType, nullable));
  }
}
