/** Which declarations have an Arrow schema, and how much of them the schema keeps. */
module ArrowLaws {
  import opened Wrappers
  import opened Shapes
  import opened ArrowSchema

  // ---------- the domain ----------

  /** The primitives with an Arrow type, and those of them that can be map keys. */
  const SUPPORTED: set<string> :=
    {"bool", "i8", "i16", "i32", "i64", "u8", "u16", "u32", "u64", "f32", "f64", "str", "String"}
  const KEYS: set<string> := {"bool", "String", "i8", "i16", "i32", "i64", "u8", "u16", "u32", "u64"}

  lemma PrimitiveDomain(p: string)
    ensures PrimitiveKind(p).Some? <==> p in SUPPORTED
    ensures PrimitiveKind(p).Some? && p in KEY_PRIMITIVES <==> p in KEYS
  {
  }

  /** What a shape itself must meet, whatever stands below it. */
  ghost predicate Local(s: TypeShape) {
    match s
    case Primitive(p) => p in SUPPORTED
    case Optional(inner) => !inner.Optional?
    case Sequence(_) => true
    case Map(key, _) => key.Primitive? && key.name in KEYS
    case Struct(fields) => Unique(fields, false)
  }

  ghost predicate Everywhere(s: TypeShape) {
    Local(s) &&
    match s
    case Primitive(_) => true
    case Optional(inner) => Everywhere(inner)
    case Sequence(item) => Everywhere(item)
    case Map(key, value) => Everywhere(key) && Everywhere(value)
    case Struct(fields) => forall i :: 0 <= i < |fields| ==> Everywhere(fields[i].shape)
  }

  function Max(a: nat, b: nat): nat {
    if a < b then b else a
  }

  /** How many containers enclose the deepest part; an optional layer does not count. */
  function Height(s: TypeShape): nat
    decreases s, 0
  {
    match s
    case Primitive(_) => 0
    case Optional(inner) => Height(inner)
    case Sequence(item) => 1 + Height(item)
    case Map(key, value) => 1 + Max(Height(key), Height(value))
    case Struct(fields) => TallestOf(s, |fields|)
  }

  function TallestOf(parent: TypeShape, count: nat): (r: nat)
    requires parent.Struct? && count <= |parent.fields|
    ensures forall i :: 0 <= i < count ==> 1 + Height(parent.fields[i].shape) <= r
    ensures r == 0 <==> count == 0
    ensures count > 0 ==> exists i :: 0 <= i < count && r == 1 + Height(parent.fields[i].shape)
    decreases parent, 0, count
  {
    if count == 0 then 0
    else
      assert parent.fields[count - 1] in parent.fields;
      Max(TallestOf(parent, count - 1), 1 + Height(parent.fields[count - 1].shape))
  }

  lemma {:induction false} FieldDomain(name: string, s: TypeShape, path: string, depth: nat)
    ensures FieldOf(name, s, path, depth).Ok? <==> Everywhere(s) && depth + Height(s) <= MAX_DEPTH
    decreases s, 1
  {
    if depth <= MAX_DEPTH {
      if s.Optional? {
        TypeDomain(s.inner, path, depth);
      } else {
        TypeDomain(s, path, depth);
      }
    }
  }

  lemma {:induction false} TypeDomain(s: TypeShape, path: string, depth: nat)
    requires depth <= MAX_DEPTH
    ensures TypeOf(s, path, depth).Ok? <==> !s.Optional? && Everywhere(s) && depth + Height(s) <= MAX_DEPTH
    decreases s, 0
  {
    match s
    case Optional(_) =>
    case Primitive(p) => PrimitiveDomain(p);
    case Sequence(item) => FieldDomain("item", item, path + "[]", depth + 1);
    case Map(key, value) =>
      if key.Primitive? {
        PrimitiveDomain(key.name);
      }
      FieldDomain("key", key, path + ".key", depth + 1);
      FieldDomain("value", value, path + ".value", depth + 1);
    case Struct(fields) =>
      FieldsDomain(s, path, depth, |fields|);
      AllFit(s, depth);
  }

  lemma {:induction false} FieldsDomain(parent: TypeShape, path: string, depth: nat, count: nat)
    requires parent.Struct? && count <= |parent.fields| && depth <= MAX_DEPTH
    ensures FieldsOf(parent, path, depth, count).Ok? <==>
      forall i :: 0 <= i < count ==> Fits(parent, depth, i)
    decreases parent, 0, count + 1
  {
    if count > 0 {
      FieldsDomain(parent, path, depth, count - 1);
      MemberDomain(parent, path, depth, count - 1);
    }
  }

  lemma {:induction false} MemberDomain(parent: TypeShape, path: string, depth: nat, i: nat)
    requires parent.Struct? && i < |parent.fields| && depth <= MAX_DEPTH
    ensures FieldsOf(parent, path, depth, i + 1).Ok? <==> FieldsOf(parent, path, depth, i).Ok? && Fits(parent, depth, i)
    decreases parent, 0, 0
  {
    var f := parent.fields[i];
    FieldDomain(f.name, f.shape, Child(path, f.name), depth + 1);
  }

  ghost predicate Fits(parent: TypeShape, depth: nat, i: nat)
    requires parent.Struct? && i < |parent.fields|
  {
    !NamedBefore(parent.fields, i) && Everywhere(parent.fields[i].shape) &&
    depth + 1 + Height(parent.fields[i].shape) <= MAX_DEPTH
  }

  /** A struct's members all fit exactly when it is well formed and shallow enough itself. */
  lemma AllFit(s: TypeShape, depth: nat)
    requires s.Struct? && depth <= MAX_DEPTH
    ensures (forall i :: 0 <= i < |s.fields| ==> Fits(s, depth, i)) <==> Everywhere(s) && depth + Height(s) <= MAX_DEPTH
  {
    UniqueIsNotNamedBefore(s.fields);
    assert Height(s) == TallestOf(s, |s.fields|);
    if forall i :: 0 <= i < |s.fields| ==> Fits(s, depth, i) {
      forall i | 0 <= i < |s.fields|
        ensures !NamedBefore(s.fields, i) && Everywhere(s.fields[i].shape)
        ensures depth + 1 + Height(s.fields[i].shape) <= MAX_DEPTH
      {
        assert Fits(s, depth, i);
      }
    } else {
      var i :| 0 <= i < |s.fields| && !Fits(s, depth, i);
      assert NamedBefore(s.fields, i) || !Everywhere(s.fields[i].shape) || depth + 1 + Height(s.fields[i].shape) > MAX_DEPTH;
    }
  }

  lemma UniqueIsNotNamedBefore(fields: seq<FieldShape>)
    ensures Unique(fields, false) <==> forall i :: 0 <= i < |fields| ==> !NamedBefore(fields, i)
  {
    if forall i :: 0 <= i < |fields| ==> !NamedBefore(fields, i) {
      forall i, j | 0 <= i < j < |fields| ensures !SameName(fields[i].name, fields[j].name, false) {
        assert !NamedBefore(fields, j);
      }
    }
  }

  /** A declaration has a schema exactly when its shape is a well-formed struct no deeper than 128. */
  lemma SchemaDomain(s: TypeShape)
    ensures SchemaOf(s).Ok? <==> s.Struct? && Everywhere(s) && Height(s) <= 128
  {
    if s.Struct? {
      FieldsDomain(s, "", 0, |s.fields|);
      AllFit(s, 0);
    }
  }

  // ---------- what the schema remembers ----------

  /** The shape without defaults, and with one label for both string primitives. */
  function Canon(s: TypeShape): TypeShape {
    match s
    case Primitive(p) => if p == "str" then Primitive("String") else s
    case Optional(inner) => Optional(Canon(inner))
    case Sequence(item) => Sequence(Canon(item))
    case Map(key, value) => Map(Canon(key), Canon(value))
    case Struct(fields) =>
      Struct(seq(|fields|, i requires 0 <= i < |fields| => FieldShape(fields[i].name, Canon(fields[i].shape), false)))
  }

  function KindName(kind: Kind): string {
    match kind
    case Boolean => "bool"
    case Int8 => "i8"
    case Int16 => "i16"
    case Int32 => "i32"
    case Int64 => "i64"
    case UInt8 => "u8"
    case UInt16 => "u16"
    case UInt32 => "u32"
    case UInt64 => "u64"
    case Float32 => "f32"
    case Float64 => "f64"
    case Utf8 => "String"
    case Foreign(_) => ""
  }

  /** The declaration a field stands for. */
  function ShapeOf(f: Field): TypeShape
    decreases f, 1
  {
    if f.nullable then Optional(ShapeOfType(f.dataType)) else ShapeOfType(f.dataType)
  }

  function ShapeOfType(t: DataType): TypeShape
    decreases t, 0
  {
    match t
    case Flat(kind) => Primitive(KindName(kind))
    case ListOf(item) => Sequence(ShapeOf(item))
    case LargeListOf(_) => Primitive("")
    case StructOf(fields) => StructShape(fields)
    case MapOf(entries, _) =>
      if entries.dataType.StructOf? && |entries.dataType.fields| == 2
      then Map(ShapeOf(entries.dataType.fields[0]), ShapeOf(entries.dataType.fields[1]))
      else Primitive("")
  }

  function StructShape(fields: seq<Field>): TypeShape
    decreases fields
  {
    Struct(seq(|fields|, i requires 0 <= i < |fields| => FieldShape(fields[i].name, ShapeOf(fields[i]), false)))
  }

  lemma {:induction false} FieldRoundTrip(name: string, s: TypeShape, path: string, depth: nat)
    ensures FieldOf(name, s, path, depth).Ok? ==>
      FieldOf(name, s, path, depth).value.name == name && ShapeOf(FieldOf(name, s, path, depth).value) == Canon(s)
    decreases s, 1
  {
    if depth <= MAX_DEPTH {
      TypeRoundTrip(if s.Optional? then s.inner else s, path, depth);
    }
  }

  lemma {:induction false} TypeRoundTrip(s: TypeShape, path: string, depth: nat)
    ensures TypeOf(s, path, depth).Ok? ==> ShapeOfType(TypeOf(s, path, depth).value) == Canon(s)
    decreases s, 0
  {
    match s
    case Optional(_) =>
    case Primitive(_) =>
    case Sequence(item) => FieldRoundTrip("item", item, path + "[]", depth + 1);
    case Map(key, value) =>
      FieldRoundTrip("key", key, path + ".key", depth + 1);
      FieldRoundTrip("value", value, path + ".value", depth + 1);
    case Struct(fields) =>
      FieldsRoundTrip(s, path, depth, |fields|);
  }

  lemma {:induction false} FieldsRoundTrip(parent: TypeShape, path: string, depth: nat, count: nat)
    requires parent.Struct? && count <= |parent.fields|
    ensures FieldsOf(parent, path, depth, count).Ok? ==>
      StructShape(FieldsOf(parent, path, depth, count).value).fields == Canon(parent).fields[..count]
    decreases parent, 0, count
  {
    if count > 0 {
      FieldsRoundTrip(parent, path, depth, count - 1);
      var f := parent.fields[count - 1];
      FieldRoundTrip(f.name, f.shape, Child(path, f.name), depth + 1);
      var r := FieldsOf(parent, path, depth, count);
      if r.Ok? {
        var mapped := FieldsOf(parent, path, depth, count - 1).value;
        assert r.value[..count - 1] == mapped;
        forall i | 0 <= i < count ensures StructShape(r.value).fields[i] == Canon(parent).fields[i] {
          if i < count - 1 {
            assert StructShape(mapped).fields[i] == Canon(parent).fields[..count - 1][i];
          }
        }
      }
    }
  }

  /** The declaration can be read back from its schema, up to defaults and the string label. */
  lemma SchemaRoundTrip(s: TypeShape)
    ensures SchemaOf(s).Ok? ==> StructShape(SchemaOf(s).value) == Canon(s)
  {
    if s.Struct? {
      FieldsRoundTrip(s, "", 0, |s.fields|);
    }
  }

  // ---------- equal declarations, equal schemas ----------

  /** Defaults are invisible: not even the error reported depends on them. */
  lemma {:induction false} DefaultsInvisible(name: string, s: TypeShape, path: string, depth: nat)
    ensures FieldOf(name, EraseDefaults(s), path, depth) == FieldOf(name, s, path, depth)
    decreases s, 1
  {
    TypeDefaultsInvisible(if s.Optional? then s.inner else s, path, depth);
  }

  lemma {:induction false} TypeDefaultsInvisible(s: TypeShape, path: string, depth: nat)
    ensures TypeOf(EraseDefaults(s), path, depth) == TypeOf(s, path, depth)
    decreases s, 0
  {
    match s
    case Optional(_) =>
    case Primitive(_) =>
    case Sequence(item) => DefaultsInvisible("item", item, path + "[]", depth + 1);
    case Map(key, value) =>
      DefaultsInvisible("key", key, path + ".key", depth + 1);
      DefaultsInvisible("value", value, path + ".value", depth + 1);
    case Struct(fields) => MemberDefaultsInvisible(s, path, depth, |fields|);
  }

  lemma {:induction false} MemberDefaultsInvisible(parent: TypeShape, path: string, depth: nat, count: nat)
    requires parent.Struct? && count <= |parent.fields|
    ensures FieldsOf(EraseDefaults(parent), path, depth, count) == FieldsOf(parent, path, depth, count)
    decreases parent, 0, count
  {
    if count > 0 {
      var i := count - 1;
      MemberDefaultsInvisible(parent, path, depth, i);
      var f, g := parent.fields[i], EraseDefaults(parent).fields[i];
      DefaultsInvisible(f.name, f.shape, Child(path, f.name), depth + 1);
      assert g.name == f.name && g.shape == EraseDefaults(f.shape);
      SameNamesBefore(parent, EraseDefaults(parent), i);
    }
  }

  lemma SameNamesBefore(a: TypeShape, b: TypeShape, index: nat)
    requires a.Struct? && b.Struct? && |a.fields| == |b.fields| && index < |a.fields|
    requires forall k :: 0 <= k < |a.fields| ==> a.fields[k].name == b.fields[k].name
    ensures NamedBefore(a.fields, index) <==> NamedBefore(b.fields, index)
  {
    if NamedBefore(a.fields, index) {
      var k :| 0 <= k < index && a.fields[k].name == a.fields[index].name;
      assert b.fields[k].name == b.fields[index].name;
    }
  }

  /** Shapes that agree up to defaults have the same schema, or fail with the same error. */
  lemma SameShapeSameSchema(a: TypeShape, b: TypeShape)
    requires SameShape(a, b)
    ensures SchemaOf(a) == SchemaOf(b)
  {
    if a.Struct? {
      MemberDefaultsInvisible(a, "", 0, |a.fields|);
      MemberDefaultsInvisible(b, "", 0, |b.fields|);
      assert |EraseDefaults(a).fields| == |a.fields|;
    }
  }

  /** A declaration that maps at all maps to what its canonical form maps to. */
  lemma {:induction false} CanonMapsAlike(name: string, s: TypeShape, path: string, depth: nat)
    requires FieldOf(name, s, path, depth).Ok?
    ensures FieldOf(name, Canon(s), path, depth) == FieldOf(name, s, path, depth)
    decreases s, 1
  {
    TypeCanonMapsAlike(if s.Optional? then s.inner else s, path, depth);
  }

  lemma {:induction false} TypeCanonMapsAlike(s: TypeShape, path: string, depth: nat)
    requires TypeOf(s, path, depth).Ok?
    ensures TypeOf(Canon(s), path, depth) == TypeOf(s, path, depth)
    decreases s, 0
  {
    match s
    case Primitive(_) =>
    case Sequence(item) => CanonMapsAlike("item", item, path + "[]", depth + 1);
    case Map(key, value) =>
      CanonMapsAlike("key", key, path + ".key", depth + 1);
      CanonMapsAlike("value", value, path + ".value", depth + 1);
    case Struct(fields) => MembersCanonMapAlike(s, path, depth, |fields|);
  }

  lemma {:induction false} MembersCanonMapAlike(parent: TypeShape, path: string, depth: nat, count: nat)
    requires parent.Struct? && count <= |parent.fields|
    requires FieldsOf(parent, path, depth, count).Ok?
    ensures FieldsOf(Canon(parent), path, depth, count) == FieldsOf(parent, path, depth, count)
    decreases parent, 0, count
  {
    if count > 0 {
      var i := count - 1;
      MembersCanonMapAlike(parent, path, depth, i);
      var f, g := parent.fields[i], Canon(parent).fields[i];
      CanonMapsAlike(f.name, f.shape, Child(path, f.name), depth + 1);
      assert g.name == f.name && g.shape == Canon(f.shape);
      SameNamesBefore(parent, Canon(parent), i);
    }
  }

  /** Two mappable declarations share a schema exactly when they differ only in defaults and string labels. */
  lemma SchemaInjective(a: TypeShape, b: TypeShape)
    requires SchemaOf(a).Ok? && SchemaOf(b).Ok?
    ensures SchemaOf(a) == SchemaOf(b) <==> Canon(a) == Canon(b)
  {
    SchemaRoundTrip(a);
    SchemaRoundTrip(b);
    MembersCanonMapAlike(a, "", 0, |a.fields|);
    MembersCanonMapAlike(b, "", 0, |b.fields|);
    assert |Canon(a).fields| == |a.fields| && |Canon(b).fields| == |b.fields|;
  }

  // ---------- the range ----------

  /** The physical form the mapping produces: standard names, no metadata, no foreign type. */
  ghost predicate Standard(f: Field)
    decreases f, 1
  {
    f.metadata == map[] && StandardType(f.dataType)
  }

  ghost predicate StandardType(t: DataType)
    decreases t, 0
  {
    match t
    case Flat(kind) => !kind.Foreign?
    case ListOf(item) => item.name == "item" && Standard(item)
    case LargeListOf(_) => false
    case StructOf(fields) => StandardMembers(fields)
    case MapOf(entries, sorted) =>
      !sorted && entries.dataType.StructOf? && |entries.dataType.fields| == 2 &&
      var key, value := entries.dataType.fields[0], entries.dataType.fields[1];
      entries == Field("entries", StructOf([key, value]), false, map[]) &&
      key.name == "key" && !key.nullable && key.dataType.Flat? && !key.dataType.kind.Float32? && !key.dataType.kind.Float64? &&
      Standard(key) && value.name == "value" && Standard(value)
  }

  ghost predicate StandardMembers(fields: seq<Field>)
    decreases fields
  {
    (forall i, j :: 0 <= i < j < |fields| ==> fields[i].name != fields[j].name) &&
    (forall i :: 0 <= i < |fields| ==> Standard(fields[i]))
  }

  /** A field is one the mapping returns exactly when it is standard and shallow enough. */
  lemma {:induction false} FieldRange(f: Field, path: string, depth: nat)
    ensures FieldOf(f.name, ShapeOf(f), path, depth) == Ok(f) <==>
      Standard(f) && depth + Height(ShapeOf(f)) <= MAX_DEPTH
    decreases f, 1
  {
    FieldDomain(f.name, ShapeOf(f), path, depth);
    if depth <= MAX_DEPTH {
      TypeRange(f.dataType, path, depth);
    }
  }

  lemma {:induction false} TypeRange(t: DataType, path: string, depth: nat)
    requires depth <= MAX_DEPTH
    ensures TypeOf(ShapeOfType(t), path, depth) == Ok(t) <==>
      StandardType(t) && depth + Height(ShapeOfType(t)) <= MAX_DEPTH
    decreases t, 0
  {
    TypeDomain(ShapeOfType(t), path, depth);
    match t
    case Flat(kind) => KindRange(kind);
    case ListOf(item) => FieldRange(item, path + "[]", depth + 1);
    case LargeListOf(_) =>
    case StructOf(fields) => MembersRange(fields, path, depth);
    case MapOf(entries, _) =>
      if entries.dataType.StructOf? && |entries.dataType.fields| == 2 {
        MapRange(t, path, depth);
      }
  }

  lemma KindRange(kind: Kind)
    ensures PrimitiveKind(KindName(kind)) == Some(kind) <==> !kind.Foreign?
    ensures kind.Foreign? ==> PrimitiveKind(KindName(kind)) == None
  {
  }

  lemma KeyShape(key: Field)
    ensures IsKeyShape(ShapeOf(key)) <==>
      !key.nullable && key.dataType.Flat? && !key.dataType.kind.Foreign? &&
      !key.dataType.kind.Float32? && !key.dataType.kind.Float64?
  {
    match key.dataType
    case Flat(kind) => assert ShapeOfType(key.dataType) == Primitive(KindName(kind));
    case ListOf(item) => assert ShapeOfType(key.dataType) == Sequence(ShapeOf(item));
    case LargeListOf(_) => assert "" !in KEY_PRIMITIVES;
    case StructOf(fields) => assert ShapeOfType(key.dataType) == StructShape(fields);
    case MapOf(_, _) => assert "" !in KEY_PRIMITIVES;
  }

  lemma {:induction false} MapRange(t: DataType, path: string, depth: nat)
    requires depth <= MAX_DEPTH
    requires t.MapOf? && t.entries.dataType.StructOf? && |t.entries.dataType.fields| == 2
    ensures TypeOf(ShapeOfType(t), path, depth) == Ok(t) <==>
      StandardType(t) && depth + Height(ShapeOfType(t)) <= MAX_DEPTH
    decreases t.entries, 2
  {
    var key, value := t.entries.dataType.fields[0], t.entries.dataType.fields[1];
    var k, v := FieldOf("key", ShapeOf(key), path + ".key", depth + 1), FieldOf("value", ShapeOf(value), path + ".value", depth + 1);
    FieldRange(key, path + ".key", depth + 1);
    FieldRange(value, path + ".value", depth + 1);
    assert k.Ok? ==> k.value.name == "key";
    assert v.Ok? ==> v.value.name == "value";
    KeyShape(key);
    var r := TypeOf(ShapeOfType(t), path, depth);
    assert r == Ok(t) <==> IsKeyShape(ShapeOf(key)) && k == Ok(key) && v == Ok(value) && t == MapOf(Entries(key, value), false) by {
      if r == Ok(t) {
        assert r.value.entries == Entries(k.value, v.value);
      }
    }
  }

  lemma {:induction false} MembersRange(fields: seq<Field>, path: string, depth: nat)
    requires depth <= MAX_DEPTH
    ensures FieldsOf(StructShape(fields), path, depth, |fields|) == Ok(fields) <==>
      StandardMembers(fields) && depth + Height(StructShape(fields)) <= MAX_DEPTH
    decreases fields, 0
  {
    var s := StructShape(fields);
    forall i | 0 <= i < |fields|
      ensures Yields(s, path, depth, i, fields[i]) <==>
        !NamedBefore(s.fields, i) && Standard(fields[i]) && depth + 1 + Height(s.fields[i].shape) <= MAX_DEPTH
    {
      FieldRange(fields[i], Child(path, fields[i].name), depth + 1);
    }
    MembersAreFields(s, fields, path, depth, |fields|);
    assert fields[..|fields|] == fields;
    HeightOfMembers(s, depth);
    DistinctNames(fields, s.fields);
  }

  lemma HeightOfMembers(s: TypeShape, depth: nat)
    requires s.Struct? && depth <= MAX_DEPTH
    ensures depth + Height(s) <= MAX_DEPTH <==>
      forall i :: 0 <= i < |s.fields| ==> depth + 1 + Height(s.fields[i].shape) <= MAX_DEPTH
  {
    assert Height(s) == TallestOf(s, |s.fields|);
  }

  lemma DistinctNames(fields: seq<Field>, members: seq<FieldShape>)
    requires |members| == |fields|
    requires forall i :: 0 <= i < |fields| ==> members[i].name == fields[i].name
    ensures (forall i, j :: 0 <= i < j < |fields| ==> fields[i].name != fields[j].name) <==>
      forall i :: 0 <= i < |fields| ==> !NamedBefore(members, i)
  {
    if forall i :: 0 <= i < |fields| ==> !NamedBefore(members, i) {
      forall i, j | 0 <= i < j < |fields| ensures fields[i].name != fields[j].name {
        assert !NamedBefore(members, j);
      }
    }
  }

  /** The loop over the members succeeds with `fields` exactly when each member yields its field. */
  lemma {:induction false} MembersAreFields(parent: TypeShape, fields: seq<Field>, path: string, depth: nat, count: nat)
    requires parent.Struct? && |fields| == |parent.fields| && count <= |fields|
    ensures FieldsOf(parent, path, depth, count) == Ok(fields[..count]) <==>
      forall i :: 0 <= i < count ==> Yields(parent, path, depth, i, fields[i])
    decreases count
  {
    if count > 0 {
      MembersAreFields(parent, fields, path, depth, count - 1);
      assert fields[..count] == fields[..count - 1] + [fields[count - 1]];
      var r := FieldsOf(parent, path, depth, count);
      if r == Ok(fields[..count]) {
        var before := FieldsOf(parent, path, depth, count - 1);
        assert before.value == r.value[..count - 1] == fields[..count - 1];
        assert r.value[count - 1] == fields[count - 1];
      }
    }
  }

  ghost predicate Yields(parent: TypeShape, path: string, depth: nat, i: nat, f: Field)
    requires parent.Struct? && i < |parent.fields|
  {
    var member := parent.fields[i];
    !NamedBefore(parent.fields, i) &&
    FieldOf(member.name, member.shape, Child(path, member.name), depth + 1) == Ok(f)
  }
}
