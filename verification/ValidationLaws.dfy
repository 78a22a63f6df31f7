/** A batch passes validation exactly when its rows are values of the declared shape. */
module ValidationLaws {
  import opened Wrappers
  import opened Shapes
  import opened ArrowSchema
  import opened ArrowLaws
  import opened Columns
  import opened Validation

  // ---------- schemas agree up to metadata ----------

  /** Without metadata, as far as the comparison looks: not inside a large list. */
  function Bare(f: Field): Field
    decreases f, 1
  {
    Field(f.name, BareType(f.dataType), f.nullable, map[])
  }

  function BareType(t: DataType): DataType
    decreases t, 0
  {
    match t
    case Flat(_) => t
    case ListOf(item) => ListOf(Bare(item))
    case LargeListOf(_) => t
    case StructOf(fields) => StructOf(BareFields(fields))
    case MapOf(entries, sorted) => MapOf(Bare(entries), sorted)
  }

  function BareFields(fields: seq<Field>): seq<Field>
    decreases fields
  {
    seq(|fields|, i requires 0 <= i < |fields| => Bare(fields[i]))
  }

  lemma {:induction false} MatchIgnoresMetadata(a: Field, b: Field)
    ensures FieldMatches(a, b) <==> Bare(a) == Bare(b)
    decreases a
  {
    match (a.dataType, b.dataType)
    case (StructOf(x), StructOf(y)) => MatchAllIgnoresMetadata(x, y);
    case (ListOf(x), ListOf(y)) => MatchIgnoresMetadata(x, y);
    case (MapOf(x, _), MapOf(y, _)) => MatchIgnoresMetadata(x, y);
    case _ =>
  }

  /** Schemas match exactly when they are equal once all metadata is dropped. */
  lemma {:induction false} MatchAllIgnoresMetadata(a: seq<Field>, b: seq<Field>)
    ensures FieldsMatch(a, b) <==> BareFields(a) == BareFields(b)
    decreases a
  {
    if |a| == |b| {
      forall i | 0 <= i < |a| ensures FieldMatches(a[i], b[i]) <==> BareFields(a)[i] == BareFields(b)[i] {
        MatchIgnoresMetadata(a[i], b[i]);
      }
      if FieldsMatch(a, b) {
        assert BareFields(a) == BareFields(b);
      }
    } else {
      assert |BareFields(a)| != |BareFields(b)|;
    }
  }

  /** Physical type does not depend on metadata either. */
  lemma {:induction false} MatchedHasType(a: Array, x: DataType, y: DataType)
    requires TypeMatches(x, y) && HasType(a, y)
    ensures HasType(a, x)
    decreases x
  {
    match x
    case Flat(_) =>
    case LargeListOf(_) =>
    case ListOf(item) => MatchedHasType(a.values, item.dataType, y.item.dataType);
    case MapOf(entries, _) => MatchedHasType(a.entries, entries.dataType, y.entries.dataType);
    case StructOf(fields) =>
      forall i | 0 <= i < |fields| ensures HasType(a.columns[i], fields[i].dataType) {
        assert FieldMatches(fields[i], y.fields[i]);
        MatchedHasType(a.columns[i], fields[i].dataType, y.fields[i].dataType);
      }
  }

  // ---------- every active required null ----------

  /** Where, below a row, a required field is null and no null encloses it, in the order visited. */
  ghost function ActiveNulls(f: Field, path: string, a: Array, row: nat): seq<(string, nat)>
    requires Sound(a) && HasType(a, f.dataType) && row < Length(a)
    decreases f, 1, 0
  {
    if !a.valid[row] then
      if f.nullable then [] else [(path, row)]
    else
      match f.dataType
      case Flat(_) | LargeListOf(_) => []
      case StructOf(_) => NullsInColumns(f, path, a, row, 0)
      case ListOf(item) => NullsInRange(item, path + "[]", a.values, a.offsets[row], a.offsets[row + 1])
      case MapOf(entries, _) => NullsInRange(entries, path, a.entries, a.offsets[row], a.offsets[row + 1])
  }

  ghost function NullsInColumns(f: Field, path: string, a: Array, row: nat, from: nat): seq<(string, nat)>
    requires Sound(a) && f.dataType.StructOf? && HasType(a, f.dataType) && row < Length(a)
    requires from <= |f.dataType.fields|
    decreases f, 0, |f.dataType.fields| - from
  {
    if from == |f.dataType.fields| then []
    else
      var child := f.dataType.fields[from];
      ActiveNulls(child, path + "." + child.name, a.columns[from], row) + NullsInColumns(f, path, a, row, from + 1)
  }

  ghost function NullsInRange(f: Field, path: string, a: Array, from: nat, to: nat): seq<(string, nat)>
    requires Sound(a) && HasType(a, f.dataType) && to <= Length(a)
    decreases f, 2, to - from
  {
    if from >= to then []
    else ActiveNulls(f, path, a, from) + NullsInRange(f, path, a, from + 1, to)
  }

  ghost function FirstNull(nulls: seq<(string, nat)>): Verdict {
    if nulls == [] then Ok(()) else Err(RequiredNull(nulls[0].0, nulls[0].1))
  }

  /** The walk reports the first active required null, and nothing else. */
  lemma {:induction false} CheckReportsFirst(f: Field, path: string, a: Array, row: nat)
    requires Sound(a) && HasType(a, f.dataType) && row < Length(a)
    ensures Check(NewNode(f, path), a, row) == FirstNull(ActiveNulls(f, path, a, row))
    decreases f, 1, 0
  {
    if a.valid[row] {
      match f.dataType
      case Flat(_) | LargeListOf(_) =>
      case StructOf(_) => ColumnsReportFirst(f, path, a, row, 0);
      case ListOf(item) => RangeReportsFirst(item, path + "[]", a.values, a.offsets[row], a.offsets[row + 1]);
      case MapOf(entries, _) => RangeReportsFirst(entries, path, a.entries, a.offsets[row], a.offsets[row + 1]);
    }
  }

  lemma {:induction false} ColumnsReportFirst(f: Field, path: string, a: Array, row: nat, from: nat)
    requires Sound(a) && f.dataType.StructOf? && HasType(a, f.dataType) && row < Length(a)
    requires from <= |f.dataType.fields|
    ensures CheckColumns(NewNode(f, path), a, row, from) == FirstNull(NullsInColumns(f, path, a, row, from))
    decreases f, 0, |f.dataType.fields| - from
  {
    if from < |f.dataType.fields| {
      var child := f.dataType.fields[from];
      CheckReportsFirst(child, path + "." + child.name, a.columns[from], row);
      ColumnsReportFirst(f, path, a, row, from + 1);
    }
  }

  lemma {:induction false} RangeReportsFirst(f: Field, path: string, a: Array, from: nat, to: nat)
    requires Sound(a) && HasType(a, f.dataType) && to <= Length(a)
    ensures CheckRange(NewNode(f, path), a, from, to) == FirstNull(NullsInRange(f, path, a, from, to))
    decreases f, 2, to - from
  {
    if from < to {
      CheckReportsFirst(f, path, a, from);
      RangeReportsFirst(f, path, a, from + 1, to);
    }
  }

  // ---------- values a field admits ----------

  ghost predicate Admits(f: Field, v: Value)
    decreases f, 1
  {
    if v.Null? then f.nullable else TypeAdmits(f.dataType, v)
  }

  ghost predicate TypeAdmits(t: DataType, v: Value)
    decreases t, 0
  {
    match t
    case Flat(kind) => v.Scalar? && v.kind == kind
    case LargeListOf(_) => v.Scalar? && v.kind == LARGE_LIST
    case ListOf(item) => v.Items? && forall i :: 0 <= i < |v.items| ==> Admits(item, v.items[i])
    case StructOf(fields) =>
      v.Members? && |v.members| == |fields| && forall i :: 0 <= i < |fields| ==> Admits(fields[i], v.members[i])
    case MapOf(entries, _) => v.Pairs? && forall i :: 0 <= i < |v.pairs| ==> Admits(entries, v.pairs[i])
  }

  /** No active required null lies below a row exactly when the field admits the row's logical value. */
  lemma {:induction false} NoNullsMeansAdmitted(f: Field, path: string, a: Array, row: nat)
    requires Sound(a) && HasType(a, f.dataType) && row < Length(a)
    ensures ActiveNulls(f, path, a, row) == [] <==> Admits(f, Logical(a, row))
    decreases f, 1, 0
  {
    if a.valid[row] {
      match f.dataType
      case Flat(_) | LargeListOf(_) =>
      case StructOf(_) => ColumnsAdmitted(f, path, a, row, 0);
      case ListOf(item) =>
        RangeAdmitted(item, path + "[]", a.values, a.offsets[row], a.offsets[row + 1]);
        WindowAdmitted(item, a, row, Visible(a, row));
      case MapOf(entries, _) =>
        RangeAdmitted(entries, path, a.entries, a.offsets[row], a.offsets[row + 1]);
        WindowAdmitted(entries, a, row, Visible(a, row));
        assert Logical(a, row) == Pairs(Visible(a, row));
    }
  }

  lemma {:induction false} ColumnsAdmitted(f: Field, path: string, a: Array, row: nat, from: nat)
    requires Sound(a) && f.dataType.StructOf? && HasType(a, f.dataType) && row < Length(a)
    requires from <= |f.dataType.fields|
    ensures NullsInColumns(f, path, a, row, from) == [] <==>
      forall i :: from <= i < |f.dataType.fields| ==> Admits(f.dataType.fields[i], Logical(a.columns[i], row))
    decreases f, 0, |f.dataType.fields| - from
  {
    if from < |f.dataType.fields| {
      var child := f.dataType.fields[from];
      NoNullsMeansAdmitted(child, path + "." + child.name, a.columns[from], row);
      ColumnsAdmitted(f, path, a, row, from + 1);
    }
  }

  ghost predicate AllAdmitted(f: Field, a: Array, from: nat, to: nat)
    requires Sound(a) && to <= Length(a)
  {
    forall i :: from <= i < to ==> Admits(f, Logical(a, i))
  }

  lemma {:induction false} RangeAdmitted(f: Field, path: string, a: Array, from: nat, to: nat)
    requires Sound(a) && HasType(a, f.dataType) && to <= Length(a)
    ensures NullsInRange(f, path, a, from, to) == [] <==> AllAdmitted(f, a, from, to)
    decreases f, 2, to - from
  {
    if from < to {
      NoNullsMeansAdmitted(f, path, a, from);
      RangeAdmitted(f, path, a, from + 1, to);
    }
  }

  lemma WindowAdmitted(f: Field, a: Array, row: nat, seen: seq<Value>)
    requires Sound(a) && (a.ListArray? || a.MapArray?) && row < Length(a)
    requires seen == Visible(a, row)
    ensures AllAdmitted(f, Elements(a), a.offsets[row], a.offsets[row + 1]) <==>
      forall k :: 0 <= k < |seen| ==> Admits(f, seen[k])
  {
    var lo := a.offsets[row];
    assert forall k :: 0 <= k < |seen| ==> seen[k] == Logical(Elements(a), lo + k);
    if forall k :: 0 <= k < |seen| ==> Admits(f, seen[k]) {
      forall i | lo <= i < a.offsets[row + 1] ensures Admits(f, Logical(Elements(a), i)) {
        assert seen[i - lo] == Logical(Elements(a), i);
      }
    }
  }

  // ---------- values of a declared shape ----------

  /** `v` is a value of the declared shape: null appears only where the shape is optional. */
  ghost predicate Inhabits(v: Value, s: TypeShape)
    decreases s, 1
  {
    match s
    case Primitive(p) => v.Scalar? && PrimitiveKind(p) == Some(v.kind)
    case Optional(inner) => v.Null? || Inhabits(v, inner)
    case Sequence(item) => v.Items? && forall i :: 0 <= i < |v.items| ==> Inhabits(v.items[i], item)
    case Map(key, value) =>
      v.Pairs? && forall i :: 0 <= i < |v.pairs| ==> InhabitsPair(v.pairs[i], s)
    case Struct(fields) =>
      v.Members? && |v.members| == |fields| &&
      forall i :: 0 <= i < |fields| ==> Inhabits(v.members[i], fields[i].shape)
  }

  ghost predicate InhabitsPair(v: Value, s: TypeShape)
    requires s.Map?
    decreases s, 0
  {
    v.Members? && |v.members| == 2 && Inhabits(v.members[0], s.key) && Inhabits(v.members[1], s.value)
  }

  /** The Arrow field of a shape admits exactly the shape's values. */
  lemma {:induction false} FieldAdmitsShape(name: string, s: TypeShape, path: string, depth: nat, v: Value)
    requires FieldOf(name, s, path, depth).Ok?
    ensures Admits(FieldOf(name, s, path, depth).value, v) <==> Inhabits(v, s)
    decreases s, 1
  {
    var inner := if s.Optional? then s.inner else s;
    TypeAdmitsShape(inner, path, depth, v);
    if v.Null? && !inner.Optional? {
      assert !Inhabits(v, inner);
    }
  }

  lemma {:induction false} TypeAdmitsShape(s: TypeShape, path: string, depth: nat, v: Value)
    requires TypeOf(s, path, depth).Ok?
    ensures TypeAdmits(TypeOf(s, path, depth).value, v) <==> Inhabits(v, s)
    decreases s, 0
  {
    match s
    case Primitive(_) =>
    case Sequence(item) =>
      if v.Items? {
        var f := FieldOf("item", item, path + "[]", depth + 1).value;
        forall i | 0 <= i < |v.items| ensures Admits(f, v.items[i]) <==> Inhabits(v.items[i], item) {
          FieldAdmitsShape("item", item, path + "[]", depth + 1, v.items[i]);
        }
      }
    case Struct(fields) =>
      if v.Members? && |v.members| == |fields| {
        MembersAdmitShape(s, path, depth, |fields|, v);
      }
    case Map(key, value) =>
      if v.Pairs? {
        forall i | 0 <= i < |v.pairs|
          ensures Admits(TypeOf(s, path, depth).value.entries, v.pairs[i]) <==> InhabitsPair(v.pairs[i], s)
        {
          PairAdmitsShape(s, path, depth, v.pairs[i]);
        }
      }
  }

  lemma {:induction false} PairAdmitsShape(s: TypeShape, path: string, depth: nat, v: Value)
    requires s.Map? && TypeOf(s, path, depth).Ok?
    ensures Admits(TypeOf(s, path, depth).value.entries, v) <==> InhabitsPair(v, s)
    decreases s, 0, 0
  {
    var k := FieldOf("key", s.key, path + ".key", depth + 1).value;
    var x := FieldOf("value", s.value, path + ".value", depth + 1).value;
    assert TypeOf(s, path, depth).value.entries == Entries(k, x);
    var t := StructOf([k, x]);
    assert Entries(k, x).dataType == t && t.fields[0] == k && t.fields[1] == x;
    if v.Members? && |v.members| == 2 {
      FieldAdmitsShape("key", s.key, path + ".key", depth + 1, v.members[0]);
      FieldAdmitsShape("value", s.value, path + ".value", depth + 1, v.members[1]);
      assert TypeAdmits(t, v) <==> Admits(t.fields[0], v.members[0]) && Admits(t.fields[1], v.members[1]);
    }
  }

  lemma {:induction false} MembersAdmitShape(parent: TypeShape, path: string, depth: nat, count: nat, v: Value)
    requires parent.Struct? && count <= |parent.fields| && v.Members? && count <= |v.members|
    requires FieldsOf(parent, path, depth, count).Ok?
    ensures forall i :: 0 <= i < count ==>
      (Admits(FieldsOf(parent, path, depth, count).value[i], v.members[i]) <==> Inhabits(v.members[i], parent.fields[i].shape))
    decreases parent, 0, count
  {
    if count > 0 {
      MembersAdmitShape(parent, path, depth, count - 1, v);
      var f := parent.fields[count - 1];
      FieldAdmitsShape(f.name, f.shape, Child(path, f.name), depth + 1, v.members[count - 1]);
    }
  }

  // ---------- the verdict ----------

  ghost function RowValue(batch: RecordBatch, row: nat): Value
    requires WellFormed(batch) && row < batch.rows
  {
    Members(seq(|batch.columns|, i requires 0 <= i < |batch.columns| => Logical(batch.columns[i], row)))
  }

  /** Every row of the batch is a value of the declared shape. */
  ghost predicate RowsInhabit(batch: RecordBatch, declared: TypeShape)
    requires WellFormed(batch)
  {
    forall row: nat :: row < batch.rows ==> Inhabits(RowValue(batch, row), declared)
  }

  /** The batch is one the declaration describes: its schema, metadata aside, and all its rows. */
  ghost predicate Holds(batch: RecordBatch, declared: TypeShape) {
    WellFormed(batch) && SchemaOf(declared).Ok? &&
    BareFields(SchemaOf(declared).value) == BareFields(batch.schema) && RowsInhabit(batch, declared)
  }

  lemma ColumnsHaveDeclaredTypes(schema: seq<Field>, batch: RecordBatch)
    requires WellFormed(batch) && FieldsMatch(schema, batch.schema)
    ensures |schema| == |batch.columns|
    ensures forall i :: 0 <= i < |schema| ==> HasType(batch.columns[i], schema[i].dataType)
  {
    forall i | 0 <= i < |schema| ensures HasType(batch.columns[i], schema[i].dataType) {
      assert FieldMatches(schema[i], batch.schema[i]);
      MatchedHasType(batch.columns[i], schema[i].dataType, batch.schema[i].dataType);
    }
  }

  /** Columns from `from` on pass exactly when each admits all its rows; only a null can make one fail. */
  lemma {:induction false} FieldsVerdict(declared: TypeShape, batch: RecordBatch, from: nat)
    requires NewValidator(declared).Ok? && WellFormed(batch)
    requires var v := NewValidator(declared).value; FieldsMatch(v.schema, batch.schema) && from <= |v.fields|
    ensures var v := NewValidator(declared).value;
      CheckFields(v, batch, from).Ok? <==> forall i :: from <= i < |v.schema| ==> ColumnAdmitted(v.schema[i], batch, i)
    ensures var r := CheckFields(NewValidator(declared).value, batch, from); r.Err? ==> r.error.RequiredNull?
    decreases |batch.columns| - from
  {
    var v := NewValidator(declared).value;
    ColumnsHaveDeclaredTypes(v.schema, batch);
    if from < |v.fields| {
      FieldsVerdict(declared, batch, from + 1);
      ColumnVerdict(v.schema[from], batch, from);
      assert v.fields[from] == NewNode(v.schema[from], v.schema[from].name);
    }
  }

  lemma ColumnVerdict(f: Field, batch: RecordBatch, i: nat)
    requires WellFormed(batch) && i < |batch.columns| && HasType(batch.columns[i], f.dataType)
    ensures var r := CheckRange(NewNode(f, f.name), batch.columns[i], 0, batch.rows);
      (r.Ok? <==> ColumnAdmitted(f, batch, i)) && (r.Err? ==> r.error.RequiredNull?)
  {
    RangeReportsFirst(f, f.name, batch.columns[i], 0, batch.rows);
    RangeAdmitted(f, f.name, batch.columns[i], 0, batch.rows);
  }

  ghost predicate ColumnAdmitted(f: Field, batch: RecordBatch, i: nat)
    requires WellFormed(batch) && i < |batch.columns|
  {
    AllAdmitted(f, batch.columns[i], 0, batch.rows)
  }

  /** Once schemas match, the columns are admitted exactly when every row inhabits the declaration. */
  lemma AdmittedColumnsAreInhabitedRows(declared: TypeShape, batch: RecordBatch)
    requires SchemaOf(declared).Ok? && WellFormed(batch) && |SchemaOf(declared).value| == |batch.columns|
    ensures (forall i :: 0 <= i < |batch.columns| ==> ColumnAdmitted(SchemaOf(declared).value[i], batch, i)) <==>
      RowsInhabit(batch, declared)
  {
    var schema := SchemaOf(declared).value;
    forall row | 0 <= row < batch.rows
      ensures Inhabits(RowValue(batch, row), declared) <==>
        forall i :: 0 <= i < |schema| ==> Admits(schema[i], Logical(batch.columns[i], row))
    {
      var value := RowValue(batch, row);
      MembersAdmitShape(declared, "", 0, |declared.fields|, value);
      assert forall i :: 0 <= i < |schema| ==> value.members[i] == Logical(batch.columns[i], row);
    }
    if forall i :: 0 <= i < |batch.columns| ==> ColumnAdmitted(schema[i], batch, i) {
      forall row: nat | row < batch.rows ensures Inhabits(RowValue(batch, row), declared) {
        forall i | 0 <= i < |schema| ensures Admits(schema[i], Logical(batch.columns[i], row)) {
          assert ColumnAdmitted(schema[i], batch, i);
        }
      }
    }
    if RowsInhabit(batch, declared) {
      forall i | 0 <= i < |batch.columns| ensures ColumnAdmitted(schema[i], batch, i) {
        forall row | 0 <= row < batch.rows ensures Admits(schema[i], Logical(batch.columns[i], row)) {
          assert Inhabits(RowValue(batch, row), declared);
        }
      }
    }
  }

  /** Validation accepts exactly the batches the declaration describes. */
  lemma ValidateIsHolds(declared: TypeShape, batch: RecordBatch)
    requires NewValidator(declared).Ok? && WellFormed(batch)
    ensures Validate(NewValidator(declared).value, batch).Ok? <==> Holds(batch, declared)
    ensures var r := Validate(NewValidator(declared).value, batch); r.Err? ==> !r.error.Representation?
    ensures var r := Validate(NewValidator(declared).value, batch);
      r.Err? && r.error.RequiredNull? ==> BareFields(SchemaOf(declared).value) == BareFields(batch.schema)
  {
    var v := NewValidator(declared).value;
    MatchAllIgnoresMetadata(v.schema, batch.schema);
    if FieldsMatch(v.schema, batch.schema) {
      FieldsVerdict(declared, batch, 0);
      AdmittedColumnsAreInhabitedRows(declared, batch);
    }
  }

  /** The active required nulls of a whole batch: column by column, and in a column row by row. */
  ghost function BatchNulls(schema: seq<Field>, batch: RecordBatch, from: nat): seq<(string, nat)>
    requires WellFormed(batch) && |schema| == |batch.columns| && from <= |schema|
    requires forall i :: 0 <= i < |schema| ==> HasType(batch.columns[i], schema[i].dataType)
    decreases |schema| - from
  {
    if from == |schema| then []
    else NullsInRange(schema[from], schema[from].name, batch.columns[from], 0, batch.rows) + BatchNulls(schema, batch, from + 1)
  }

  lemma {:induction false} FieldsReportFirst(declared: TypeShape, batch: RecordBatch, from: nat)
    requires NewValidator(declared).Ok? && WellFormed(batch)
    requires var v := NewValidator(declared).value; FieldsMatch(v.schema, batch.schema) && from <= |v.fields|
    ensures var v := NewValidator(declared).value;
      && |v.schema| == |batch.columns| && (forall i :: 0 <= i < |v.schema| ==> HasType(batch.columns[i], v.schema[i].dataType))
      && CheckFields(v, batch, from) == FirstNull(BatchNulls(v.schema, batch, from))
    decreases |batch.columns| - from
  {
    var v := NewValidator(declared).value;
    ColumnsHaveDeclaredTypes(v.schema, batch);
    if from < |v.fields| {
      FieldsReportFirst(declared, batch, from + 1);
      RangeReportsFirst(v.schema[from], v.schema[from].name, batch.columns[from], 0, batch.rows);
      assert v.fields[from] == NewNode(v.schema[from], v.schema[from].name);
    }
  }

  /**
   * A refused batch is refused for its schema, naming the declared one and its own, or for the first active
   * required null, column by column, with its path and its index.
   */
  lemma ValidateReportsFirst(declared: TypeShape, batch: RecordBatch)
    requires NewValidator(declared).Ok? && WellFormed(batch)
    ensures var expected, r := SchemaOf(declared).value, Validate(NewValidator(declared).value, batch);
      if BareFields(expected) != BareFields(batch.schema) then
        r.Err? && r.error.SchemaMismatch? && r.error.expected == expected && r.error.found == batch.schema
      else
        && |expected| == |batch.columns|
        && (forall i :: 0 <= i < |expected| ==> HasType(batch.columns[i], expected[i].dataType))
        && r == FirstNull(BatchNulls(expected, batch, 0))
  {
    MatchAllIgnoresMetadata(SchemaOf(declared).value, batch.schema);
    if BareFields(SchemaOf(declared).value) == BareFields(batch.schema) {
      FieldsReportFirst(declared, batch, 0);
    }
  }

  /** Masked children, values outside the visible offsets and slicing cannot change the verdict. */
  lemma VerdictSeesOnlyLogicalRows(declared: TypeShape, a: RecordBatch, b: RecordBatch)
    requires NewValidator(declared).Ok? && WellFormed(a) && WellFormed(b)
    requires BareFields(a.schema) == BareFields(b.schema) && a.rows == b.rows
    requires forall row: nat :: row < a.rows ==> RowValue(a, row) == RowValue(b, row)
    ensures Validate(NewValidator(declared).value, a).Ok? == Validate(NewValidator(declared).value, b).Ok?
  {
    ValidateIsHolds(declared, a);
    ValidateIsHolds(declared, b);
    if RowsInhabit(a, declared) {
      forall row: nat | row < b.rows ensures Inhabits(RowValue(b, row), declared) {
        assert Inhabits(RowValue(a, row), declared);
      }
    }
    if RowsInhabit(b, declared) {
      forall row: nat | row < a.rows ensures Inhabits(RowValue(a, row), declared) {
        assert Inhabits(RowValue(b, row), declared);
      }
    }
  }

  ghost function SliceBatch(batch: RecordBatch, from: nat, count: nat): (r: RecordBatch)
    requires WellFormed(batch) && from + count <= batch.rows
    ensures WellFormed(r)
  {
    forall i | 0 <= i < |batch.columns|
      ensures HasType(Slice(batch.columns[i], from, count), batch.schema[i].dataType)
    {
      SliceKeepsType(batch.columns[i], from, count, batch.schema[i].dataType);
    }
    RecordBatch(batch.schema,
                seq(|batch.columns|, i requires 0 <= i < |batch.columns| => Slice(batch.columns[i], from, count)), count)
  }

  /** A slice is valid exactly when its own rows are, wherever it was cut from. */
  lemma SliceVerdict(declared: TypeShape, batch: RecordBatch, from: nat, count: nat)
    requires NewValidator(declared).Ok? && WellFormed(batch) && from + count <= batch.rows
    requires BareFields(SchemaOf(declared).value) == BareFields(batch.schema)
    ensures Validate(NewValidator(declared).value, SliceBatch(batch, from, count)).Ok? <==>
      forall row: nat :: from <= row < from + count ==> Inhabits(RowValue(batch, row), declared)
  {
    var s := SliceBatch(batch, from, count);
    ValidateIsHolds(declared, s);
    forall row: nat | row < count ensures RowValue(s, row) == RowValue(batch, from + row) {
      forall i | 0 <= i < |batch.columns| ensures Logical(s.columns[i], row) == Logical(batch.columns[i], from + row) {
        SliceKeepsValues(batch.columns[i], from, count, row);
      }
      assert RowValue(s, row).members == RowValue(batch, from + row).members;
    }
    if RowsInhabit(s, declared) {
      forall row: nat | from <= row < from + count ensures Inhabits(RowValue(batch, row), declared) {
        assert Inhabits(RowValue(s, row - from), declared);
      }
    }
  }

  /** An active row of an array laid out unlike its field is refused by its path; a null row is never looked into. */
  lemma ForeignLayout(n: Node, a: Array, row: nat)
    requires Sound(a) && row < Length(a)
    requires n.children.StructNode? || n.children.ListNode? || n.children.MapNode?
    requires (n.children.StructNode? ==> !a.StructArray?) && (n.children.ListNode? ==> !a.ListArray?) && (n.children.MapNode? ==> !a.MapArray?)
    ensures Check(n, a, row) ==
      if a.valid[row] then Err(Representation(n.path)) else if n.field.nullable then Ok(()) else Err(RequiredNull(n.path, row))
  {
  }
}
