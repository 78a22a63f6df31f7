/** Rows cut into batches of a fixed size, in order. */
module Chunking {
  import opened Wrappers

  datatype Row = Row(id: int, name: string, note: Option<string>)

  type Batch = seq<Row>

  /** The batches a row sequence is cut into: all full, except that the last may be shorter. */
  function Chunks(rows: seq<Row>, size: nat): seq<Batch>
    requires size > 0
    decreases |rows|
  {
    if rows == [] then []
    else if |rows| <= size then [rows]
    else [rows[..size]] + Chunks(rows[size..], size)
  }

  function Flatten(batches: seq<Batch>): seq<Row> {
    if batches == [] then [] else batches[0] + Flatten(batches[1..])
  }

  lemma {:induction false} FlattenAppend(a: seq<Batch>, b: seq<Batch>)
    ensures Flatten(a + b) == Flatten(a) + Flatten(b)
  {
    if a == [] {
      assert a + b == b;
    } else {
      FlattenAppend(a[1..], b);
      assert (a + b)[1..] == a[1..] + b && (a + b)[0] == a[0];
      assert a[0] + (Flatten(a[1..]) + Flatten(b)) == Flatten(a) + Flatten(b);
    }
  }

  lemma FlattenSnoc(a: seq<Batch>, b: Batch)
    ensures Flatten(a + [b]) == Flatten(a) + b
  {
    FlattenAppend(a, [b]);
    assert Flatten([b]) == b + Flatten([]);
  }

  ghost predicate AllFull(batches: seq<Batch>, size: nat) {
    forall k :: 0 <= k < |batches| ==> |batches[k]| == size
  }

  /** The only way to cut rows into full batches and a shorter rest is the one Chunks gives. */
  lemma {:induction false} CutsAreChunks(full: seq<Batch>, rest: Batch, size: nat)
    requires size > 0 && AllFull(full, size) && |rest| < size
    ensures Chunks(Flatten(full) + rest, size) == full + (if rest == [] then [] else [rest])
    decreases full
  {
    if full == [] {
      assert Flatten(full) + rest == rest;
    } else {
      CutsAreChunks(full[1..], rest, size);
      var rows := Flatten(full) + rest;
      assert rows[..size] == full[0];
      assert rows[size..] == Flatten(full[1..]) + rest;
      if |rows| == size {
        assert rows == full[0];
        assert Flatten(full[1..]) + rest == [];
        assert Chunks(rows[size..], size) == [];
        assert full == [full[0]] + full[1..];
      } else {
        assert full == [full[0]] + full[1..];
      }
    }
  }

  /** Cutting loses, repeats and reorders nothing. */
  lemma {:induction false} ChunksFlatten(rows: seq<Row>, size: nat)
    requires size > 0
    ensures Flatten(Chunks(rows, size)) == rows
    decreases |rows|
  {
    if |rows| > size {
      var rest := Chunks(rows[size..], size);
      ChunksFlatten(rows[size..], size);
      FlattenAppend([rows[..size]], rest);
      assert Flatten([rows[..size]]) == rows[..size] + Flatten([]);
      assert rows == rows[..size] + rows[size..];
    } else if rows != [] {
      assert Flatten([rows]) == rows + Flatten([]);
    }
  }

  /** Every batch but the last is full, and none is empty. */
  lemma {:induction false} ChunkSizes(rows: seq<Row>, size: nat)
    requires size > 0
    ensures forall k :: 0 <= k < |Chunks(rows, size)| ==> 0 < |Chunks(rows, size)[k]| <= size
    ensures forall k :: 0 <= k < |Chunks(rows, size)| - 1 ==> |Chunks(rows, size)[k]| == size
    decreases |rows|
  {
    if |rows| > size {
      ChunkSizes(rows[size..], size);
    }
  }
}
