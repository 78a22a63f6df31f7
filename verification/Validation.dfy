/** Prepared validation of a batch's schema and of its active required values. */
module Validation {
  import opened Wrappers
  import opened Shapes
  import opened ArrowSchema
  import opened Columns

  datatype ValidationError =
    | SchemaMismatch(expected: seq<Field>, found: seq<Field>)
    | RequiredNull(path: string, row: nat)
    | Representation(path: string)

  /** A batch: one column per schema field, all of the same number of rows. */
  datatype RecordBatch = RecordBatch(schema: seq<Field>, columns: seq<Array>, rows: nat)

  /** What Arrow checks when a batch is built, nulls aside. */
  predicate WellFormed(batch: RecordBatch) {
    |batch.schema| == |batch.columns| &&
    forall i :: 0 <= i < |batch.columns| ==>
      Sound(batch.columns[i]) && Length(batch.columns[i]) == batch.rows &&
      HasType(batch.columns[i], batch.schema[i].dataType)
  }

  // ---------- schemas compared without their metadata ----------

  predicate FieldMatches(a: Field, b: Field)
    decreases a, 1
  {
    a.name == b.name && a.nullable == b.nullable && TypeMatches(a.dataType, b.dataType)
  }

  predicate TypeMatches(a: DataType, b: DataType)
    decreases a, 0
  {
    match (a, b)
    case (StructOf(x), StructOf(y)) => FieldsMatch(x, y)
    case (ListOf(x), ListOf(y)) => FieldMatches(x, y)
    case (MapOf(x, sx), MapOf(y, sy)) => sx == sy && FieldMatches(x, y)
    case _ => a == b
  }

  predicate FieldsMatch(expected: seq<Field>, found: seq<Field>)
    decreases expected
  {
    |expected| == |found| &&
    forall i :: 0 <= i < |expected| ==> FieldMatches(expected[i], found[i])
  }

  // ---------- the prepared plan ----------

  datatype Node = Node(field: Field, path: string, children: Children)

  datatype Children =
    | LeafNode
    | StructNode(nodes: seq<Node>)
    | ListNode(item: Node)
    | MapNode(entry: Node)

  function NewNode(field: Field, path: string): Node
    decreases field
  {
    var children := match field.dataType
      case StructOf(fields) => StructNode(seq(|fields|, i requires 0 <= i < |fields| => NewNode(fields[i], path + "." + fields[i].name)))
      case ListOf(item) => ListNode(NewNode(item, path + "[]"))
      case MapOf(entries, _) => MapNode(NewNode(entries, path))
      case _ => LeafNode;
    Node(field, path, children)
  }

  datatype BatchValidator = BatchValidator(schema: seq<Field>, fields: seq<Node>)

  function NewValidator(declared: TypeShape): Result<BatchValidator, MappingError> {
    match SchemaOf(declared)
    case Err(e) => Err(e)
    case Ok(schema) => Ok(BatchValidator(schema, seq(|schema|, i requires 0 <= i < |schema| => NewNode(schema[i], schema[i].name))))
  }

  type Verdict = Result<(), ValidationError>

  function Check(n: Node, a: Array, row: nat): Verdict
    requires Sound(a) && row < Length(a)
    decreases n, 1, 0
  {
    if !a.valid[row] then
      if n.field.nullable then Ok(()) else Err(RequiredNull(n.path, row))
    else
      match n.children
      case LeafNode => Ok(())
      case StructNode(_) => if a.StructArray? then CheckColumns(n, a, row, 0) else Err(Representation(n.path))
      case ListNode(item) =>
        if a.ListArray? then CheckRange(item, a.values, a.offsets[row], a.offsets[row + 1])
        else Err(Representation(n.path))
      case MapNode(entry) =>
        if a.MapArray? then CheckRange(entry, a.entries, a.offsets[row], a.offsets[row + 1])
        else Err(Representation(n.path))
  }

  /** The columns from index `from` on, paired with their nodes while both last. */
  function CheckColumns(n: Node, a: Array, row: nat, from: nat): Verdict
    requires n.children.StructNode? && a.StructArray? && Sound(a) && row < Length(a)
    requires from <= |n.children.nodes|
    decreases n, 0, |n.children.nodes| - from
  {
    if from >= |n.children.nodes| || from >= |a.columns| then Ok(())
    else
      match Check(n.children.nodes[from], a.columns[from], row)
      case Err(e) => Err(e)
      case Ok(_) => CheckColumns(n, a, row, from + 1)
  }

  function CheckRange(n: Node, a: Array, from: nat, to: nat): Verdict
    requires Sound(a) && to <= Length(a)
    decreases n, 2, to - from
  {
    if from >= to then Ok(())
    else
      match Check(n, a, from)
      case Err(e) => Err(e)
      case Ok(_) => CheckRange(n, a, from + 1, to)
  }

  function CheckFields(v: BatchValidator, batch: RecordBatch, from: nat): Verdict
    requires WellFormed(batch) && from <= |v.fields|
    decreases |v.fields| - from
  {
    if from >= |v.fields| || from >= |batch.columns| then Ok(())
    else
      match CheckRange(v.fields[from], batch.columns[from], 0, batch.rows)
      case Err(e) => Err(e)
      case Ok(_) => CheckFields(v, batch, from + 1)
  }

  function Validate(v: BatchValidator, batch: RecordBatch): Verdict
    requires WellFormed(batch)
  {
    if FieldsMatch(v.schema, batch.schema) then CheckFields(v, batch, 0)
    else Err(SchemaMismatch(v.schema, batch.schema))
  }
}
