/** Everything that is wrong with a declaration, each fault with its path; the mapping reports the first. */
module ArrowFaults {
  import opened Wrappers
  import opened Shapes
  import opened ArrowSchema
  import opened ArrowLaws

  /** The primitives that can be map keys, whether or not they have an Arrow type. */
  const HASHABLE: set<string> :=
    {"bool", "String", "i8", "i16", "i32", "i64", "i128", "isize", "u8", "u16", "u32", "u64", "u128", "usize"}

  /** The faults of a field in the order a reader meets them. Nothing is looked for below the depth limit. */
  ghost function FieldFaults(shape: TypeShape, path: string, depth: nat): seq<MappingError>
    decreases shape, 1
  {
    if depth > 128 then [DepthLimit(path)]
    else TypeFaults(if shape.Optional? then shape.inner else shape, path, depth)
  }

  ghost function TypeFaults(shape: TypeShape, path: string, depth: nat): seq<MappingError>
    decreases shape, 0
  {
    match shape
    case Optional(_) => [NestedOptional(path)]
    case Primitive(p) => if p in SUPPORTED then [] else [UnsupportedPrimitive(path, p)]
    case Sequence(item) => FieldFaults(item, path + "[]", depth + 1)
    case Struct(fields) => MemberFaults(shape, path, depth, |fields|)
    case Map(key, value) =>
      (if key.Primitive? && key.name in HASHABLE then FieldFaults(key, path + ".key", depth + 1) else [InvalidMapKey(path + ".key")]) +
      FieldFaults(value, path + ".value", depth + 1)
  }

  /** The faults of the first `count` members; a repeated name is a fault of the later member. */
  ghost function MemberFaults(parent: TypeShape, path: string, depth: nat, count: nat): seq<MappingError>
    requires parent.Struct? && count <= |parent.fields|
    decreases parent, 0, count
  {
    if count == 0 then []
    else
      var i, f := count - 1, parent.fields[count - 1];
      var place := if path == "" then f.name else path + "." + f.name;
      MemberFaults(parent, path, depth, i) +
      if exists k :: 0 <= k < i && parent.fields[k].name == f.name then [DuplicateField(place)]
      else FieldFaults(f.shape, place, depth + 1)
  }

  ghost function SchemaFaults(shape: TypeShape): seq<MappingError> {
    if shape.Struct? then MemberFaults(shape, "", 0, |shape.fields|) else [RootNotStruct]
  }

  /** The result is an error exactly when there is a fault, and then it is the first one. */
  ghost predicate ReportsFirst<T>(r: Result<T, MappingError>, faults: seq<MappingError>) {
    if r.Ok? then faults == [] else faults != [] && r.error == faults[0]
  }

  lemma {:induction false} FieldReportsFirst(name: string, shape: TypeShape, path: string, depth: nat)
    ensures ReportsFirst(FieldOf(name, shape, path, depth), FieldFaults(shape, path, depth))
    decreases shape, 1
  {
    if depth <= MAX_DEPTH {
      TypeReportsFirst(if shape.Optional? then shape.inner else shape, path, depth);
    }
  }

  lemma {:induction false} TypeReportsFirst(shape: TypeShape, path: string, depth: nat)
    ensures ReportsFirst(TypeOf(shape, path, depth), TypeFaults(shape, path, depth))
    decreases shape, 0
  {
    match shape
    case Optional(_) =>
    case Primitive(p) => PrimitiveDomain(p);
    case Sequence(item) => FieldReportsFirst("item", item, path + "[]", depth + 1);
    case Struct(fields) => MembersReportFirst(shape, path, depth, |fields|);
    case Map(key, value) =>
      FieldReportsFirst("key", key, path + ".key", depth + 1);
      FieldReportsFirst("value", value, path + ".value", depth + 1);
  }

  lemma {:induction false} MembersReportFirst(parent: TypeShape, path: string, depth: nat, count: nat)
    requires parent.Struct? && count <= |parent.fields|
    ensures ReportsFirst(FieldsOf(parent, path, depth, count), MemberFaults(parent, path, depth, count))
    decreases parent, 0, count
  {
    if count > 0 {
      var f := parent.fields[count - 1];
      MembersReportFirst(parent, path, depth, count - 1);
      FieldReportsFirst(f.name, f.shape, Child(path, f.name), depth + 1);
    }
  }

  /** Mapping a declaration reports its first fault, and succeeds only without one. */
  lemma SchemaReportsFirst(shape: TypeShape)
    ensures ReportsFirst(SchemaOf(shape), SchemaFaults(shape))
  {
    if shape.Struct? {
      MembersReportFirst(shape, "", 0, |shape.fields|);
    }
  }
}
