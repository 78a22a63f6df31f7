/**
 * An elementwise transform of a List<Struct<List<Struct<List<Float64>>>>> column, in one pass over the
 * innermost buffer and by rebuilding every row. The arithmetic is an arbitrary function of the leaf.
 */
module NestedTransform {
  import opened ArrowSchema
  import opened Columns

  type Leaf = Payload -> Payload

  // ---------- the five levels ----------

  predicate IsValues(l: Array) {
    l.ListArray? && l.values.FlatArray? && l.values.kind == Float64 &&
    |l.values.payload| == |l.values.valid| && Offsets(l.offsets, |l.valid|, |l.values.payload|)
  }

  predicate IsItem(s: Array) {
    s.StructArray? && |s.columns| == 1 && IsValues(s.columns[0]) && Length(s.columns[0]) == |s.valid|
  }

  predicate IsItems(l: Array) {
    l.ListArray? && IsItem(l.values) && Offsets(l.offsets, |l.valid|, Length(l.values))
  }

  predicate IsWrapper(s: Array) {
    s.StructArray? && |s.columns| == 1 && IsItems(s.columns[0]) && Length(s.columns[0]) == |s.valid|
  }

  predicate IsColumn(l: Array) {
    l.ListArray? && IsWrapper(l.values) && Offsets(l.offsets, |l.valid|, Length(l.values))
  }

  lemma ValuesSound(l: Array)
    requires IsValues(l)
    ensures Sound(l) && Sound(l.values)
  {
  }

  lemma ItemSound(s: Array)
    requires IsItem(s)
    ensures Sound(s) && Sound(s.columns[0])
  {
    ValuesSound(s.columns[0]);
  }

  lemma ItemsSound(l: Array)
    requires IsItems(l)
    ensures Sound(l) && Sound(l.values)
  {
    ItemSound(l.values);
  }

  lemma WrapperSound(s: Array)
    requires IsWrapper(s)
    ensures Sound(s) && Sound(s.columns[0])
  {
    ItemsSound(s.columns[0]);
  }

  lemma ColumnSound(l: Array)
    requires IsColumn(l)
    ensures Sound(l) && Sound(l.values)
  {
    WrapperSound(l.values);
  }

  // ---------- the columnar transform ----------

  function AllValid(n: nat): (r: seq<bool>)
    ensures |r| == n && forall i :: 0 <= i < n ==> r[i]
  {
    seq(n, _ => true)
  }

  function MapPayload(f: Leaf, payload: seq<Payload>): seq<Payload> {
    seq(|payload|, i requires 0 <= i < |payload| => f(payload[i]))
  }

  /** Transforms the flat buffer once; every level above keeps its own offsets and nulls. */
  function TransformColumnar(outer: Array, f: Leaf): (r: Array)
    requires IsColumn(outer)
    ensures IsColumn(r) && Length(r) == Length(outer)
  {
    var wrappers := outer.values;
    var items := wrappers.columns[0];
    var itemStructs := items.values;
    var values := itemStructs.columns[0];
    var leaf := values.values;
    var transformed := FlatArray(AllValid(|leaf.payload|), Float64, MapPayload(f, leaf.payload));
    var newValues := ListArray(values.valid, values.offsets, transformed);
    var newItemStructs := StructArray(itemStructs.valid, [newValues]);
    var newItems := ListArray(items.valid, items.offsets, newItemStructs);
    var newWrappers := StructArray(wrappers.valid, [newItems]);
    ListArray(outer.valid, outer.offsets, newWrappers)
  }

  /** `b` is `a` with the leaf buffer transformed. */
  ghost predicate ItemMapped(a: Array, b: Array, f: Leaf) {
    IsItem(a) && IsItem(b) && a.valid == b.valid && a.columns[0].valid == b.columns[0].valid &&
    a.columns[0].offsets == b.columns[0].offsets &&
    b.columns[0].values.payload == MapPayload(f, a.columns[0].values.payload) &&
    forall i :: 0 <= i < |b.columns[0].values.valid| ==> b.columns[0].values.valid[i]
  }

  ghost predicate WrapperMapped(a: Array, b: Array, f: Leaf) {
    IsWrapper(a) && IsWrapper(b) && a.valid == b.valid && a.columns[0].valid == b.columns[0].valid &&
    a.columns[0].offsets == b.columns[0].offsets && ItemMapped(a.columns[0].values, b.columns[0].values, f)
  }

  // ---------- what the offsets select ----------

  type Item = seq<Payload>
  type Wrapper = seq<Item>
  type Row = seq<Wrapper>

  function RawItem(values: Array, k: nat): Item
    requires IsValues(values) && k < Length(values)
  {
    values.values.payload[values.offsets[k]..values.offsets[k + 1]]
  }

  function RawWrapper(items: Array, w: nat): Wrapper
    requires IsItems(items) && w < Length(items)
  {
    var lo, hi := items.offsets[w], items.offsets[w + 1];
    seq(hi - lo, j requires 0 <= j < hi - lo => RawItem(items.values.columns[0], lo + j))
  }

  function RawRow(outer: Array, r: nat): Row
    requires IsColumn(outer) && r < Length(outer)
  {
    var lo, hi := outer.offsets[r], outer.offsets[r + 1];
    seq(hi - lo, j requires 0 <= j < hi - lo => RawWrapper(outer.values.columns[0], lo + j))
  }

  function MapItems(f: Leaf, items: Wrapper): Wrapper {
    seq(|items|, i requires 0 <= i < |items| => MapPayload(f, items[i]))
  }

  function MapRow(f: Leaf, row: Row): Row {
    seq(|row|, i requires 0 <= i < |row| => MapItems(f, row[i]))
  }

  // ---------- nested sequences as logical values ----------

  ghost function ItemList(item: Item): seq<Value> {
    seq(|item|, i requires 0 <= i < |item| => Scalar(Float64, item[i]))
  }

  ghost function WrapperList(wrapper: Wrapper): seq<Value> {
    seq(|wrapper|, i requires 0 <= i < |wrapper| => Members([Items(ItemList(wrapper[i]))]))
  }

  ghost function RowList(row: Row): seq<Value> {
    seq(|row|, i requires 0 <= i < |row| => Members([Items(WrapperList(row[i]))]))
  }

  // ---------- visible nulls above the leaves ----------

  ghost predicate WholeItem(s: Array, k: nat)
    requires IsItem(s) && k < Length(s)
  {
    s.valid[k] && s.columns[0].valid[k]
  }

  ghost predicate WholeWrapper(s: Array, w: nat)
    requires IsWrapper(s) && w < Length(s)
  {
    var items := s.columns[0];
    s.valid[w] && items.valid[w] &&
    forall j :: items.offsets[w] <= j < items.offsets[w + 1] ==> WholeItem(items.values, j)
  }

  /** No list or struct reached from this row is null; leaves may be. */
  ghost predicate WholeRow(outer: Array, r: nat)
    requires IsColumn(outer) && r < Length(outer)
  {
    outer.valid[r] && forall j :: outer.offsets[r] <= j < outer.offsets[r + 1] ==> WholeWrapper(outer.values, j)
  }

  /** A struct row holding one list, as a logical value. */
  lemma OneColumn(s: Array, k: nat)
    requires s.StructArray? && |s.columns| == 1 && s.columns[0].ListArray? && Sound(s) && k < Length(s)
    ensures Sound(s.columns[0]) && Length(s.columns[0]) == Length(s)
    ensures s.valid[k] && s.columns[0].valid[k] ==> Logical(s, k) == Members([Items(Visible(s.columns[0], k))])
    ensures !s.valid[k] ==> Logical(s, k) == Null
    ensures s.valid[k] && !s.columns[0].valid[k] ==> Logical(s, k) == Members([Null])
  {
    if s.valid[k] {
      assert Logical(s, k).members == [Logical(s.columns[0], k)];
    }
  }

  lemma ColumnarItem(a: Array, b: Array, f: Leaf, k: nat)
    requires ItemMapped(a, b, f) && k < Length(a) && Sound(b)
    ensures Logical(b, k) == Members([Items(ItemList(MapPayload(f, RawItem(a.columns[0], k))))]) <==> WholeItem(a, k)
  {
    var values := b.columns[0];
    OneColumn(b, k);
    ValuesSound(values);
    if WholeItem(a, k) {
      var item := ItemList(MapPayload(f, RawItem(a.columns[0], k)));
      var lo := values.offsets[k];
      forall i | 0 <= i < |item| ensures Visible(values, k)[i] == item[i] {
        VisibleAt(values, k, lo + i);
        assert RawItem(a.columns[0], k)[i] == a.columns[0].values.payload[lo + i];
      }
      assert Visible(values, k) == item;
    }
  }

  lemma ColumnarWrapper(a: Array, b: Array, f: Leaf, w: nat)
    requires WrapperMapped(a, b, f) && w < Length(a) && Sound(b)
    ensures Logical(b, w) == Members([Items(WrapperList(MapItems(f, RawWrapper(a.columns[0], w))))]) <==> WholeWrapper(a, w)
  {
    var items, was := b.columns[0], a.columns[0];
    OneColumn(b, w);
    ItemsSound(items);
    var wrapper := WrapperList(MapItems(f, RawWrapper(was, w)));
    var lo, hi := items.offsets[w], items.offsets[w + 1];
    if a.valid[w] && was.valid[w] {
      forall j | lo <= j < hi
        ensures Visible(items, w)[j - lo] == wrapper[j - lo] <==> WholeItem(was.values, j)
      {
        VisibleAt(items, w, j);
        ColumnarItem(was.values, items.values, f, j);
        assert RawWrapper(was, w)[j - lo] == RawItem(was.values.columns[0], j);
      }
      SamePointwise(Visible(items, w), wrapper, lo, hi, j requires lo <= j < hi => WholeItem(was.values, j));
    }
  }

  lemma SamePointwise(a: seq<Value>, b: seq<Value>, lo: nat, hi: nat, whole: nat --> bool)
    requires lo <= hi && |a| == |b| == hi - lo
    requires forall j :: lo <= j < hi ==> whole.requires(j)
    requires forall j :: lo <= j < hi ==> (a[j - lo] == b[j - lo] <==> whole(j))
    ensures a == b <==> forall j :: lo <= j < hi ==> whole(j)
  {
    if forall j :: lo <= j < hi ==> whole(j) {
      forall i | 0 <= i < |a| ensures a[i] == b[i] {
        assert whole(lo + i);
      }
    }
  }

  /** The columnar transform maps the leaves of a row exactly when no visible list or struct is null. */
  lemma ColumnarRow(outer: Array, f: Leaf, r: nat)
    requires IsColumn(outer) && r < Length(outer)
    ensures Sound(TransformColumnar(outer, f))
    ensures Logical(TransformColumnar(outer, f), r) == Items(RowList(MapRow(f, RawRow(outer, r)))) <==> WholeRow(outer, r)
  {
    var b := TransformColumnar(outer, f);
    ColumnSound(b);
    var row := RowList(MapRow(f, RawRow(outer, r)));
    var lo, hi := outer.offsets[r], outer.offsets[r + 1];
    if outer.valid[r] {
      forall j | lo <= j < hi
        ensures Visible(b, r)[j - lo] == row[j - lo] <==> WholeWrapper(outer.values, j)
      {
        VisibleAt(b, r, j);
        ColumnarWrapper(outer.values, b.values, f, j);
        assert RawRow(outer, r)[j - lo] == RawWrapper(outer.values.columns[0], j);
      }
      SamePointwise(Visible(b, r), row, lo, hi, j requires lo <= j < hi => WholeWrapper(outer.values, j));
    }
  }

  // ---------- rebuilding row by row ----------

  predicate Cuts(offsets: seq<nat>, limit: nat) {
    offsets != [] && Offsets(offsets, |offsets| - 1, limit)
  }

  /** The lists a builder's offsets have closed so far. */
  function Lists<T>(offsets: seq<nat>, inner: seq<T>): (r: seq<seq<T>>)
    requires Cuts(offsets, |inner|)
    ensures |r| == |offsets| - 1
  {
    seq(|offsets| - 1, k requires 0 <= k < |offsets| - 1 => inner[offsets[k]..offsets[k + 1]])
  }

  lemma ListsGrow<T>(offsets: seq<nat>, inner: seq<T>, more: seq<T>)
    requires Cuts(offsets, |inner|)
    ensures Lists(offsets, inner + more) == Lists(offsets, inner)
  {
    forall k | 0 <= k < |offsets| - 1 ensures Lists(offsets, inner + more)[k] == Lists(offsets, inner)[k] {
      assert (inner + more)[offsets[k]..offsets[k + 1]] == inner[offsets[k]..offsets[k + 1]];
    }
  }

  lemma ListsClose<T>(offsets: seq<nat>, inner: seq<T>)
    requires Cuts(offsets, |inner|)
    ensures Cuts(offsets + [|inner|], |inner|)
    ensures Lists(offsets + [|inner|], inner) == Lists(offsets, inner) + [inner[offsets[|offsets| - 1]..]]
  {
    var n, more := |offsets| - 1, offsets + [|inner|];
    forall k | 0 <= k <= n
      ensures Lists(more, inner)[k] == (Lists(offsets, inner) + [inner[offsets[n]..]])[k]
    {
      assert more[k] == offsets[k] && more[k + 1] == if k == n then |inner| else offsets[k + 1];
    }
  }

  /** Three nested list builders over one flat buffer; every element they append is valid. */
  class NestedBuilder {
    var leaf: seq<Payload>
    var valueOffsets: seq<nat>
    var itemOffsets: seq<nat>
    var rowOffsets: seq<nat>

    ghost predicate Valid()
      reads this
    {
      Cuts(valueOffsets, |leaf|) && Cuts(itemOffsets, |valueOffsets| - 1) && Cuts(rowOffsets, |itemOffsets| - 1)
    }

    ghost function Values(): seq<Item>
      requires Valid()
      reads this
    {
      Lists(valueOffsets, leaf)
    }

    ghost function Wrappers(): seq<Wrapper>
      requires Valid()
      reads this
    {
      Lists(itemOffsets, Values())
    }

    ghost function Rows(): seq<Row>
      requires Valid()
      reads this
    {
      Lists(rowOffsets, Wrappers())
    }

    /** Items of the wrapper being built. */
    ghost function OpenItems(): seq<Item>
      requires Valid()
      reads this
    {
      Values()[itemOffsets[|itemOffsets| - 1]..]
    }

    /** Wrappers of the row being built. */
    ghost function OpenWrappers(): seq<Wrapper>
      requires Valid()
      reads this
    {
      Wrappers()[rowOffsets[|rowOffsets| - 1]..]
    }

    /** Nothing below the leaf lists is half built. */
    ghost predicate LeafClosed()
      requires Valid()
      reads this
    {
      valueOffsets[|valueOffsets| - 1] == |leaf|
    }

    constructor ()
      ensures Valid() && LeafClosed() && Rows() == [] && OpenWrappers() == [] && OpenItems() == []
    {
      leaf, valueOffsets, itemOffsets, rowOffsets := [], [0], [0], [0];
    }

    method AppendItem(values: Item)
      requires Valid() && LeafClosed()
      modifies this
      ensures Valid() && LeafClosed()
      ensures OpenItems() == old(OpenItems()) + [values]
      ensures Wrappers() == old(Wrappers()) && Rows() == old(Rows()) && OpenWrappers() == old(OpenWrappers())
    {
      ghost var before := Values();
      ListsGrow(valueOffsets, leaf, values);
      ListsClose(valueOffsets, leaf + values);
      assert (leaf + values)[|leaf|..] == values;
      ListsGrow(itemOffsets, before, [values]);
      leaf := leaf + values;
      valueOffsets := valueOffsets + [|leaf|];
    }

    method AppendWrapper(items: Wrapper)
      requires Valid() && LeafClosed() && OpenItems() == []
      modifies this
      ensures Valid() && LeafClosed() && OpenItems() == []
      ensures OpenWrappers() == old(OpenWrappers()) + [items] && Rows() == old(Rows())
    {
      for k := 0 to |items|
        invariant Valid() && LeafClosed() && OpenItems() == items[..k]
        invariant Wrappers() == old(Wrappers()) && Rows() == old(Rows()) && OpenWrappers() == old(OpenWrappers())
      {
        AppendItem(items[k]);
      }
      assert items[..|items|] == items;
      CloseWrapper();
    }

    method CloseWrapper()
      requires Valid() && LeafClosed()
      modifies this`itemOffsets
      ensures Valid() && LeafClosed() && OpenItems() == []
      ensures OpenWrappers() == old(OpenWrappers()) + [old(OpenItems())] && Rows() == old(Rows())
    {
      ghost var before := Wrappers();
      ListsClose(itemOffsets, Values());
      ListsGrow(rowOffsets, before, [OpenItems()]);
      itemOffsets := itemOffsets + [|valueOffsets| - 1];
    }

    method AppendRow()
      requires Valid() && LeafClosed() && OpenItems() == []
      modifies this
      ensures Valid() && LeafClosed() && OpenItems() == [] && OpenWrappers() == []
      ensures Rows() == old(Rows()) + [old(OpenWrappers())]
    {
      ListsClose(rowOffsets, Wrappers());
      rowOffsets := rowOffsets + [|itemOffsets| - 1];
    }

    method Finish() returns (r: Array)
      requires Valid()
      ensures IsColumn(r) && Length(r) == |Rows()| && LeavesValid(r)
      ensures forall i :: 0 <= i < |Rows()| ==> WholeRow(r, i) && RawRow(r, i) == Rows()[i]
    {
      var values := FinishedValues(valueOffsets, leaf);
      var items := FinishedItems(itemOffsets, values, Values());
      r := FinishedRows(rowOffsets, items, Wrappers());
    }
  }

  /** An all-valid list array over a finished buffer. */
  function FinishedValues(offsets: seq<nat>, leaf: seq<Payload>): (values: Array)
    requires Cuts(offsets, |leaf|)
    ensures IsValues(values) && Length(values) == |offsets| - 1
    ensures values.values.valid == AllValid(|values.values.payload|)
    ensures forall k :: 0 <= k < Length(values) ==> values.valid[k] && RawItem(values, k) == Lists(offsets, leaf)[k]
  {
    ListArray(AllValid(|offsets| - 1), offsets, FlatArray(AllValid(|leaf|), Float64, leaf))
  }

  function FinishedItems(offsets: seq<nat>, values: Array, ghost contents: seq<Item>): (items: Array)
    requires IsValues(values) && Length(values) == |contents| && Cuts(offsets, |contents|)
    requires forall k :: 0 <= k < |contents| ==> values.valid[k] && RawItem(values, k) == contents[k]
    ensures IsItems(items) && Length(items) == |offsets| - 1 && items.values.columns == [values]
    ensures forall w :: 0 <= w < Length(items) ==> items.valid[w] && RawWrapper(items, w) == Lists(offsets, contents)[w]
    ensures forall k :: 0 <= k < Length(values) ==> WholeItem(items.values, k)
  {
    var items := ListArray(AllValid(|offsets| - 1), offsets, StructArray(values.valid, [values]));
    assert forall w :: 0 <= w < Length(items) ==> RawWrapper(items, w) == Lists(offsets, contents)[w];
    items
  }

  function FinishedRows(offsets: seq<nat>, items: Array, ghost contents: seq<Wrapper>): (rows: Array)
    requires IsItems(items) && Length(items) == |contents| && Cuts(offsets, |contents|)
    requires forall w :: 0 <= w < |contents| ==> items.valid[w] && RawWrapper(items, w) == contents[w]
    requires forall k :: 0 <= k < Length(items.values) ==> WholeItem(items.values, k)
    ensures IsColumn(rows) && Length(rows) == |offsets| - 1 && rows.values.columns == [items]
    ensures forall r :: 0 <= r < Length(rows) ==> WholeRow(rows, r) && RawRow(rows, r) == Lists(offsets, contents)[r]
  {
    var rows := ListArray(AllValid(|offsets| - 1), offsets, StructArray(items.valid, [items]));
    assert forall r :: 0 <= r < Length(rows) ==> RawRow(rows, r) == Lists(offsets, contents)[r];
    rows
  }

  lemma SliceOfItems(items: Array, from: nat, count: nat)
    requires IsItems(items) && from + count <= Length(items)
    ensures Sound(items) && IsItems(Slice(items, from, count))
    ensures forall w :: 0 <= w < count ==> RawWrapper(Slice(items, from, count), w) == RawWrapper(items, from + w)
  {
    ItemsSound(items);
    var s := Slice(items, from, count);
    forall w | 0 <= w < count ensures RawWrapper(s, w) == RawWrapper(items, from + w) {
      assert s.offsets[w] == items.offsets[from + w] && s.offsets[w + 1] == items.offsets[from + w + 1];
    }
  }

  lemma SliceOfValues(values: Array, from: nat, count: nat)
    requires IsValues(values) && from + count <= Length(values)
    ensures Sound(values) && IsValues(Slice(values, from, count))
    ensures forall k :: 0 <= k < count ==> RawItem(Slice(values, from, count), k) == RawItem(values, from + k)
  {
    ValuesSound(values);
    var s := Slice(values, from, count);
    forall k | 0 <= k < count ensures RawItem(s, k) == RawItem(values, from + k) {
      assert s.offsets[k] == values.offsets[from + k] && s.offsets[k + 1] == values.offsets[from + k + 1];
    }
  }

  /** The transformed items of one wrapper, copied out of its slice of the column. */
  method MaterializeWrapper(items: Array, w: nat, f: Leaf) returns (wrapper: Wrapper)
    requires IsItems(items) && w < Length(items)
    ensures wrapper == MapItems(f, RawWrapper(items, w))
  {
    var lo, hi := items.offsets[w], items.offsets[w + 1];
    ItemsSound(items);
    var itemRow := Slice(items.values, lo, hi - lo);
    var values := itemRow.columns[0];
    SliceOfValues(items.values.columns[0], lo, hi - lo);
    assert values == Slice(items.values.columns[0], lo, hi - lo);
    wrapper := [];
    for it := 0 to Length(itemRow)
      invariant wrapper == MapItems(f, RawWrapper(items, w))[..it]
    {
      ValuesSound(values);
      var leaf := Slice(values.values, values.offsets[it], values.offsets[it + 1] - values.offsets[it]);
      assert leaf.payload == RawItem(values, it) == RawWrapper(items, w)[it];
      wrapper := wrapper + [MapPayload(f, leaf.payload)];
    }
  }

  /** Walks rows, wrappers, items and leaves, and rebuilds everything from owned copies. */
  method TransformRowRoundTrip(outer: Array, f: Leaf) returns (r: Array)
    requires IsColumn(outer)
    ensures IsColumn(r) && Length(r) == Length(outer) && LeavesValid(r)
    ensures forall i :: 0 <= i < Length(outer) ==> WholeRow(r, i) && RawRow(r, i) == MapRow(f, RawRow(outer, i))
  {
    var builder := new NestedBuilder();
    for i := 0 to Length(outer)
      invariant builder.Valid() && builder.LeafClosed() && builder.OpenItems() == [] && builder.OpenWrappers() == []
      invariant |builder.Rows()| == i
      invariant forall k :: 0 <= k < i ==> builder.Rows()[k] == MapRow(f, RawRow(outer, k))
    {
      RebuildRow(outer, f, i, builder);
    }
    r := builder.Finish();
  }

  method RebuildRow(outer: Array, f: Leaf, i: nat, builder: NestedBuilder)
    requires IsColumn(outer) && i < Length(outer)
    requires builder.Valid() && builder.LeafClosed() && builder.OpenItems() == [] && builder.OpenWrappers() == []
    modifies builder
    ensures builder.Valid() && builder.LeafClosed() && builder.OpenItems() == [] && builder.OpenWrappers() == []
    ensures builder.Rows() == old(builder.Rows()) + [MapRow(f, RawRow(outer, i))]
  {
    var lo, hi := outer.offsets[i], outer.offsets[i + 1];
    ColumnSound(outer);
    var row := Slice(outer.values, lo, hi - lo);
    SliceOfItems(outer.values.columns[0], lo, hi - lo);
    assert row.columns[0] == Slice(outer.values.columns[0], lo, hi - lo);
    AppendWrappers(row.columns[0], f, RawRow(outer, i), builder);
    builder.AppendRow();
  }

  method AppendWrappers(items: Array, f: Leaf, ghost row: Row, builder: NestedBuilder)
    requires IsItems(items) && |row| == Length(items) && forall w :: 0 <= w < |row| ==> row[w] == RawWrapper(items, w)
    requires builder.Valid() && builder.LeafClosed() && builder.OpenItems() == [] && builder.OpenWrappers() == []
    modifies builder
    ensures builder.Valid() && builder.LeafClosed() && builder.OpenItems() == []
    ensures builder.OpenWrappers() == MapRow(f, row) && builder.Rows() == old(builder.Rows())
  {
    for w := 0 to Length(items)
      invariant builder.Valid() && builder.LeafClosed() && builder.OpenItems() == []
      invariant builder.OpenWrappers() == MapRow(f, row)[..w] && builder.Rows() == old(builder.Rows())
    {
      var wrapper := MaterializeWrapper(items, w, f);
      builder.AppendWrapper(wrapper);
    }
  }

  // ---------- the two transforms compared ----------

  function Same(p: Payload): Payload {
    p
  }

  function LeafBuffer(c: Array): Array
    requires IsColumn(c)
  {
    c.values.columns[0].values.columns[0].values
  }

  ghost predicate LeavesValid(c: Array)
    requires IsColumn(c)
  {
    LeafBuffer(c).valid == AllValid(|LeafBuffer(c).payload|)
  }

  lemma MapSame(payload: seq<Payload>)
    ensures MapPayload(Same, payload) == payload
  {
    forall i | 0 <= i < |payload| ensures MapPayload(Same, payload)[i] == payload[i] {
      assert Same(payload[i]) == payload[i];
    }
  }

  /** Transforming valid leaves by the identity changes nothing. */
  lemma IdentityTransform(c: Array)
    requires IsColumn(c) && LeavesValid(c)
    ensures TransformColumnar(c, Same) == c
  {
    var wrappers := c.values;
    var items := wrappers.columns[0];
    var itemStructs := items.values;
    var values := itemStructs.columns[0];
    MapSame(values.values.payload);
    assert ListArray(values.valid, values.offsets, values.values) == values;
    assert [values] == itemStructs.columns && [items] == wrappers.columns;
  }

  /** A whole column stands for the rows its offsets select. */
  lemma WholeColumnLogical(c: Array, r: nat)
    requires IsColumn(c) && LeavesValid(c) && r < Length(c) && WholeRow(c, r)
    ensures Sound(c) && Logical(c, r) == Items(RowList(RawRow(c, r)))
  {
    ColumnarRow(c, Same, r);
    IdentityTransform(c);
    var row := RawRow(c, r);
    forall w | 0 <= w < |row| ensures MapItems(Same, row[w]) == row[w] {
      forall k | 0 <= k < |row[w]| ensures MapItems(Same, row[w])[k] == row[w][k] {
        MapSame(row[w][k]);
      }
    }
    assert MapRow(Same, row) == row;
  }

  /**
   * The one-pass transform and the row-by-row rebuild agree on a row exactly when no list or struct
   * visible in it is null. Null leaves, hidden values and empty lists make no difference.
   */
  lemma TransformsAgree(outer: Array, f: Leaf, rebuilt: Array, r: nat)
    requires IsColumn(outer) && IsColumn(rebuilt) && LeavesValid(rebuilt) && Length(rebuilt) == Length(outer)
    requires r < Length(outer) && WholeRow(rebuilt, r) && RawRow(rebuilt, r) == MapRow(f, RawRow(outer, r))
    ensures Sound(TransformColumnar(outer, f)) && Sound(rebuilt)
    ensures Logical(TransformColumnar(outer, f), r) == Logical(rebuilt, r) <==> WholeRow(outer, r)
  {
    ColumnarRow(outer, f, r);
    WholeColumnLogical(rebuilt, r);
  }

  // ---------- what both mean, in logical values ----------

  /** `b` is `a` with every leaf mapped: same lists, same structs, same order, no nulls. */
  ghost predicate Mapped(f: Leaf, a: Value, b: Value) {
    match (a, b)
    case (Scalar(k, x), Scalar(l, y)) => k == l && y == f(x)
    case (Items(xs), Items(ys)) => |xs| == |ys| && forall i :: 0 <= i < |xs| ==> Mapped(f, xs[i], ys[i])
    case (Members(xs), Members(ys)) => |xs| == |ys| && forall i :: 0 <= i < |xs| ==> Mapped(f, xs[i], ys[i])
    case (_, _) => false
  }

  /** There is no null anywhere in the value. */
  ghost predicate NullFree(v: Value) {
    match v
    case Null => false
    case Scalar(_, _) => true
    case Items(items) => forall i :: 0 <= i < |items| ==> NullFree(items[i])
    case Members(members) => forall i :: 0 <= i < |members| ==> NullFree(members[i])
    case Pairs(pairs) => forall i :: 0 <= i < |pairs| ==> NullFree(pairs[i])
  }

  lemma {:induction false} MappedIsNullFree(f: Leaf, a: Value, b: Value)
    requires Mapped(f, a, b)
    ensures NullFree(a)
  {
    match (a, b)
    case (Scalar(_, _), Scalar(_, _)) =>
    case (Items(xs), Items(ys)) =>
      forall i | 0 <= i < |xs| ensures NullFree(xs[i]) {
        MappedIsNullFree(f, xs[i], ys[i]);
      }
    case (Members(xs), Members(ys)) =>
      forall i | 0 <= i < |xs| ensures NullFree(xs[i]) {
        MappedIsNullFree(f, xs[i], ys[i]);
      }
  }

  /** A struct row holding one list is free of nulls only if it, the list and everything listed are there. */
  lemma NullFreeStruct(s: Array, k: nat)
    requires s.StructArray? && |s.columns| == 1 && s.columns[0].ListArray? && Sound(s) && k < Length(s)
    requires NullFree(Logical(s, k))
    ensures Sound(s.columns[0]) && Length(s.columns[0]) == Length(s) && s.valid[k] && s.columns[0].valid[k]
    ensures Logical(s, k) == Members([Items(Visible(s.columns[0], k))])
    ensures forall i :: 0 <= i < |Visible(s.columns[0], k)| ==> NullFree(Visible(s.columns[0], k)[i])
  {
    OneColumn(s, k);
    assert NullFree(Logical(s, k).members[0]);
  }

  lemma NullFreeItem(s: Array, k: nat)
    requires IsItem(s) && Sound(s) && k < Length(s) && NullFree(Logical(s, k))
    ensures Logical(s, k) == Members([Items(ItemList(RawItem(s.columns[0], k)))]) && WholeItem(s, k)
  {
    NullFreeStruct(s, k);
    var values := s.columns[0];
    var lo, seen, item := values.offsets[k], Visible(values, k), RawItem(values, k);
    forall i | 0 <= i < |item| ensures seen[i] == ItemList(item)[i] {
      VisibleAt(values, k, lo + i);
      assert NullFree(seen[i]) && item[i] == values.values.payload[lo + i];
    }
    assert seen == ItemList(item);
  }

  lemma NullFreeWrapper(s: Array, w: nat)
    requires IsWrapper(s) && Sound(s) && w < Length(s) && NullFree(Logical(s, w))
    ensures Logical(s, w) == Members([Items(WrapperList(RawWrapper(s.columns[0], w)))]) && WholeWrapper(s, w)
  {
    NullFreeStruct(s, w);
    var items := s.columns[0];
    var lo, hi, seen, wrapper := items.offsets[w], items.offsets[w + 1], Visible(items, w), RawWrapper(items, w);
    forall i | 0 <= i < hi - lo ensures seen[i] == WrapperList(wrapper)[i] {
      VisibleAt(items, w, lo + i);
      NullFreeItem(items.values, lo + i);
    }
    forall j | lo <= j < hi ensures WholeItem(items.values, j) {
      VisibleAt(items, w, j);
      assert NullFree(seen[j - lo]);
      NullFreeItem(items.values, j);
    }
    assert seen == WrapperList(wrapper);
  }

  /** A row without nulls stands for the nested sequences its offsets select. */
  lemma NullFreeRow(c: Array, r: nat)
    requires IsColumn(c) && Sound(c) && r < Length(c) && NullFree(Logical(c, r))
    ensures Logical(c, r) == Items(RowList(RawRow(c, r))) && WholeRow(c, r)
  {
    var lo, hi, seen, row := c.offsets[r], c.offsets[r + 1], Visible(c, r), RawRow(c, r);
    assert Logical(c, r) == Items(seen);
    forall i | 0 <= i < hi - lo ensures seen[i] == RowList(row)[i] {
      VisibleAt(c, r, lo + i);
      NullFreeWrapper(c.values, lo + i);
    }
    forall j | lo <= j < hi ensures WholeWrapper(c.values, j) {
      VisibleAt(c, r, j);
      assert NullFree(seen[j - lo]);
      NullFreeWrapper(c.values, j);
    }
    assert seen == RowList(row);
  }

  lemma MappedOne(f: Leaf, xs: seq<Value>, ys: seq<Value>)
    requires Mapped(f, Items(xs), Items(ys))
    ensures Mapped(f, Members([Items(xs)]), Members([Items(ys)]))
  {
  }

  lemma MappedItems(f: Leaf, wrapper: Wrapper)
    ensures Mapped(f, Items(WrapperList(wrapper)), Items(WrapperList(MapItems(f, wrapper))))
  {
    forall i | 0 <= i < |wrapper|
      ensures Mapped(f, WrapperList(wrapper)[i], WrapperList(MapItems(f, wrapper))[i])
    {
      MappedOne(f, ItemList(wrapper[i]), ItemList(MapPayload(f, wrapper[i])));
    }
  }

  lemma MappedRow(f: Leaf, row: Row)
    ensures Mapped(f, Items(RowList(row)), Items(RowList(MapRow(f, row))))
  {
    forall i | 0 <= i < |row| ensures Mapped(f, RowList(row)[i], RowList(MapRow(f, row))[i]) {
      MappedItems(f, row[i]);
      MappedOne(f, WrapperList(row[i]), WrapperList(MapItems(f, row[i])));
    }
  }

  /** The one-pass transform maps exactly the leaves of a row, each once, exactly when the row has no null. */
  lemma ColumnarMaps(outer: Array, f: Leaf, r: nat)
    requires IsColumn(outer) && r < Length(outer)
    ensures Sound(outer) && Sound(TransformColumnar(outer, f))
    ensures Mapped(f, Logical(outer, r), Logical(TransformColumnar(outer, f), r)) <==> NullFree(Logical(outer, r))
  {
    ColumnSound(outer);
    ColumnarRow(outer, f, r);
    if NullFree(Logical(outer, r)) {
      NullFreeRow(outer, r);
      MappedRow(f, RawRow(outer, r));
    } else if Mapped(f, Logical(outer, r), Logical(TransformColumnar(outer, f), r)) {
      MappedIsNullFree(f, Logical(outer, r), Logical(TransformColumnar(outer, f), r));
    }
  }

  /** So does the row-by-row rebuild. */
  lemma RebuiltMaps(outer: Array, f: Leaf, rebuilt: Array, r: nat)
    requires IsColumn(outer) && IsColumn(rebuilt) && LeavesValid(rebuilt) && Length(rebuilt) == Length(outer)
    requires r < Length(outer) && WholeRow(rebuilt, r) && RawRow(rebuilt, r) == MapRow(f, RawRow(outer, r))
    ensures Sound(outer) && Sound(rebuilt)
    ensures Mapped(f, Logical(outer, r), Logical(rebuilt, r)) <==> NullFree(Logical(outer, r))
  {
    ColumnSound(outer);
    WholeColumnLogical(rebuilt, r);
    if NullFree(Logical(outer, r)) {
      NullFreeRow(outer, r);
      MappedRow(f, RawRow(outer, r));
    } else if Mapped(f, Logical(outer, r), Logical(rebuilt, r)) {
      MappedIsNullFree(f, Logical(outer, r), Logical(rebuilt, r));
    }
  }

  /** Both transforms on one column, with the rows on which they agree and what they make of them. */
  method TransformBoth(outer: Array, f: Leaf) returns (columnar: Array, rebuilt: Array)
    requires IsColumn(outer)
    ensures Sound(outer) && Sound(columnar) && Sound(rebuilt) && Length(columnar) == Length(rebuilt) == Length(outer)
    ensures forall r :: 0 <= r < Length(outer) ==> (Logical(columnar, r) == Logical(rebuilt, r) <==> WholeRow(outer, r))
    ensures forall r :: 0 <= r < Length(outer) ==> Logical(rebuilt, r) == Items(RowList(MapRow(f, RawRow(outer, r))))
    ensures forall r :: 0 <= r < Length(outer) ==>
      (Mapped(f, Logical(outer, r), Logical(columnar, r)) <==> NullFree(Logical(outer, r))) &&
      (Mapped(f, Logical(outer, r), Logical(rebuilt, r)) <==> NullFree(Logical(outer, r)))
  {
    ColumnSound(outer);
    columnar := TransformColumnar(outer, f);
    rebuilt := TransformRowRoundTrip(outer, f);
    ColumnSound(columnar);
    ColumnSound(rebuilt);
    forall r | 0 <= r < Length(outer)
      ensures Logical(columnar, r) == Logical(rebuilt, r) <==> WholeRow(outer, r)
      ensures Logical(rebuilt, r) == Items(RowList(MapRow(f, RawRow(outer, r))))
      ensures Mapped(f, Logical(outer, r), Logical(columnar, r)) <==> NullFree(Logical(outer, r))
      ensures Mapped(f, Logical(outer, r), Logical(rebuilt, r)) <==> NullFree(Logical(outer, r))
    {
      ColumnarMaps(outer, f, r);
      RebuiltMaps(outer, f, rebuilt, r);
      TransformsAgree(outer, f, rebuilt, r);
      WholeColumnLogical(rebuilt, r);
    }
  }
}
