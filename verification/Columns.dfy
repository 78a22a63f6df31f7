/** Arrow arrays as validity, offsets and children, and the logical values they stand for. */
module Columns {
  import opened ArrowSchema

  /** The payload of one flat slot, whatever its bits mean. */
  type Payload = int

  datatype Array =
    | FlatArray(valid: seq<bool>, kind: Kind, payload: seq<Payload>)
    | ListArray(valid: seq<bool>, offsets: seq<nat>, values: Array)
    | StructArray(valid: seq<bool>, columns: seq<Array>)
    | MapArray(valid: seq<bool>, offsets: seq<nat>, entries: Array)

  datatype Value =
    | Null
    | Scalar(kind: Kind, payload: Payload)
    | Items(items: seq<Value>)
    | Members(members: seq<Value>)
    | Pairs(pairs: seq<Value>)

  function Length(a: Array): nat {
    |a.valid|
  }

  predicate Offsets(offsets: seq<nat>, rows: nat, limit: nat) {
    |offsets| == rows + 1 &&
    (forall i, j :: 0 <= i <= j <= rows ==> offsets[i] <= offsets[j]) &&
    offsets[rows] <= limit
  }

  /** What Arrow's array types guarantee about their own buffers. */
  predicate Sound(a: Array) {
    match a
    case FlatArray(valid, _, payload) => |payload| == |valid|
    case ListArray(valid, offsets, values) => Sound(values) && Offsets(offsets, |valid|, Length(values))
    case StructArray(valid, columns) =>
      forall i :: 0 <= i < |columns| ==> Sound(columns[i]) && Length(columns[i]) == |valid|
    case MapArray(valid, offsets, entries) => Sound(entries) && Offsets(offsets, |valid|, Length(entries))
  }

  /** Large lists are never looked into: their rows are opaque values. */
  const LARGE_LIST: Kind := Foreign("LargeList")

  /** The array is physically of the given type; its nulls are not looked at. */
  predicate HasType(a: Array, t: DataType)
    decreases t
  {
    match t
    case Flat(kind) => a.FlatArray? && a.kind == kind
    case ListOf(item) => a.ListArray? && HasType(a.values, item.dataType)
    case LargeListOf(_) => a.FlatArray? && a.kind == LARGE_LIST
    case StructOf(fields) =>
      a.StructArray? && |a.columns| == |fields| &&
      forall i :: 0 <= i < |fields| ==> HasType(a.columns[i], fields[i].dataType)
    case MapOf(entries, _) => a.MapArray? && HasType(a.entries, entries.dataType)
  }

  /** The logical value at a row: a null hides whatever lies beneath it. */
  function Logical(a: Array, row: nat): Value
    requires Sound(a) && row < Length(a)
    decreases a
  {
    if !a.valid[row] then Null
    else
      match a
      case FlatArray(_, kind, payload) => Scalar(kind, payload[row])
      case ListArray(_, offsets, values) => Items(Visible(a, row))
      case StructArray(_, columns) => Members(seq(|columns|, i requires 0 <= i < |columns| => Logical(columns[i], row)))
      case MapArray(_, offsets, entries) => Pairs(Visible(a, row))
  }

  function Elements(a: Array): Array
    requires a.ListArray? || a.MapArray?
  {
    if a.ListArray? then a.values else a.entries
  }

  /** The elements between a row's two offsets. */
  function Visible(a: Array, row: nat): seq<Value>
    requires Sound(a) && (a.ListArray? || a.MapArray?) && row < Length(a)
    decreases a, 0
  {
    var lo, hi := a.offsets[row], a.offsets[row + 1];
    seq(hi - lo, k requires 0 <= k < hi - lo => Logical(Elements(a), lo + k))
  }

  lemma VisibleAt(a: Array, row: nat, i: nat)
    requires Sound(a) && (a.ListArray? || a.MapArray?) && row < Length(a)
    requires a.offsets[row] <= i < a.offsets[row + 1]
    ensures Visible(a, row)[i - a.offsets[row]] == Logical(Elements(a), i)
  {
  }

  /** A zero-copy view of `count` rows: lists keep their values and move only their offsets. */
  function Slice(a: Array, from: nat, count: nat): (r: Array)
    requires Sound(a) && from + count <= Length(a)
    ensures Sound(r) && Length(r) == count
  {
    var valid := a.valid[from..from + count];
    match a
    case FlatArray(_, kind, payload) => FlatArray(valid, kind, payload[from..from + count])
    case ListArray(_, offsets, values) => ListArray(valid, offsets[from..from + count + 1], values)
    case StructArray(_, columns) =>
      StructArray(valid, seq(|columns|, i requires 0 <= i < |columns| => Slice(columns[i], from, count)))
    case MapArray(_, offsets, entries) => MapArray(valid, offsets[from..from + count + 1], entries)
  }

  /** Slicing moves rows and changes no logical value. */
  lemma {:induction false} SliceKeepsValues(a: Array, from: nat, count: nat, row: nat)
    requires Sound(a) && from + count <= Length(a) && row < count
    ensures Logical(Slice(a, from, count), row) == Logical(a, from + row)
  {
    var s := Slice(a, from, count);
    match a
    case FlatArray(_, _, _) =>
    case ListArray(_, _, _) => SameWindow(a, from + row, s, row);
    case MapArray(_, _, _) => SameWindow(a, from + row, s, row);
    case StructArray(_, columns) =>
      forall i | 0 <= i < |columns| ensures Logical(s.columns[i], row) == Logical(columns[i], from + row) {
        SliceKeepsValues(columns[i], from, count, row);
      }
      if a.valid[from + row] {
        assert Logical(s, row).members == Logical(a, from + row).members;
      }
  }

  lemma SameWindow(a: Array, i: nat, b: Array, j: nat)
    requires Sound(a) && (a.ListArray? || a.MapArray?) && i < Length(a)
    requires Sound(b) && (b.ListArray? || b.MapArray?) && j < Length(b)
    requires Elements(a) == Elements(b) && a.offsets[i] == b.offsets[j] && a.offsets[i + 1] == b.offsets[j + 1]
    ensures Visible(a, i) == Visible(b, j)
  {
  }

  lemma {:induction false} SliceKeepsType(a: Array, from: nat, count: nat, t: DataType)
    requires Sound(a) && from + count <= Length(a) && HasType(a, t)
    ensures HasType(Slice(a, from, count), t)
  {
    if a.StructArray? {
      forall i | 0 <= i < |a.columns| ensures HasType(Slice(a.columns[i], from, count), t.fields[i].dataType) {
        SliceKeepsType(a.columns[i], from, count, t.fields[i].dataType);
      }
    }
  }
}
