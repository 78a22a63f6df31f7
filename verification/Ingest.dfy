/** Two ways of batching parsed records, which no consumer can tell apart. */
module Ingest {
  import opened Wrappers
  import opened Chunking

  type Cause = string

  type Record = seq<string>

  datatype IngestError =
    | ReadRecord(cause: Cause)
    | InvalidId(row: nat, value: string)
    | BuildBatch(cause: Cause)
    | Consumed(cause: Cause)

  /** The three columns of a batch. */
  datatype Table = Table(ids: seq<int>, names: seq<string>, notes: seq<Option<string>>)

  /** What the run cannot influence: the input, id syntax, batch construction and the consumer's answers. */
  datatype Setting = Setting(
    records: seq<Result<Record, Cause>>,
    parse: string -> Option<int>,
    build: Table -> Result<Table, Cause>,
    answer: seq<Table> -> Result<bool, Cause>,
    size: nat)

  function Get(record: Record, i: nat): string {
    if i < |record| then record[i] else ""
  }

  function Note(record: Record): Option<string> {
    if Get(record, 2) == "" then None else Some(Get(record, 2))
  }

  function ParseId(s: Setting, row: nat, record: Record): Result<int, IngestError> {
    match s.parse(Get(record, 0))
    case Some(id) => Ok(id)
    case None => Err(InvalidId(row, Get(record, 0)))
  }

  function ParseRow(s: Setting, row: nat, record: Result<Record, Cause>): Result<Row, IngestError> {
    match record
    case Err(cause) => Err(ReadRecord(cause))
    case Ok(r) =>
      match ParseId(s, row, r)
      case Err(e) => Err(e)
      case Ok(id) => Ok(Row(id, Get(r, 1), Note(r)))
  }

  /** Fields that a short record lacks count as empty, and an empty note is none. */
  lemma RowRead(s: Setting, row: nat, fields: Record, r: Row)
    ensures ParseRow(s, row, Ok(fields)) == Ok(r) <==>
      && s.parse(if |fields| > 0 then fields[0] else "") == Some(r.id)
      && r.name == (if |fields| > 1 then fields[1] else "")
      && r.note == (if |fields| > 2 && fields[2] != "" then Some(fields[2]) else None)
    ensures s.parse(if |fields| > 0 then fields[0] else "") == None ==>
      ParseRow(s, row, Ok(fields)) == Err(InvalidId(row, if |fields| > 0 then fields[0] else ""))
    ensures forall cause :: ParseRow(s, row, Err(cause)) == Err(ReadRecord(cause))
  {
  }

  lemma ColumnsAt(rows: seq<Row>, i: nat)
    requires i < |rows|
    ensures var t := Columns(rows); |t.ids| == |t.names| == |t.notes| == |rows| && Row(t.ids[i], t.names[i], t.notes[i]) == rows[i]
  {
  }

  function Columns(rows: seq<Row>): Table {
    Table(seq(|rows|, i requires 0 <= i < |rows| => rows[i].id),
          seq(|rows|, i requires 0 <= i < |rows| => rows[i].name),
          seq(|rows|, i requires 0 <= i < |rows| => rows[i].note))
  }

  // ---------- what batching is meant to do ----------

  /** The rows up to the first record that fails, and that failure. */
  datatype Parsed = Parsed(rows: seq<Row>, failure: Option<IngestError>)

  ghost function ParsedFrom(s: Setting, row: nat): Parsed
    requires row <= |s.records|
    decreases |s.records| - row
  {
    if row == |s.records| then Parsed([], None)
    else
      match ParseRow(s, row, s.records[row])
      case Err(e) => Parsed([], Some(e))
      case Ok(r) =>
        var rest := ParsedFrom(s, row + 1);
        Parsed([r] + rest.rows, rest.failure)
  }

  ghost function FullChunks(rows: seq<Row>, size: nat): seq<Batch>
    requires size > 0
    decreases |rows|
  {
    if |rows| < size then [] else [rows[..size]] + FullChunks(rows[size..], size)
  }

  /** A failure discards the rows of the batch it falls into; the end of the input does not. */
  ghost function Batches(p: Parsed, size: nat): seq<Batch>
    requires size > 0
  {
    if p.failure.None? then Chunks(p.rows, size) else FullChunks(p.rows, size)
  }

  datatype Outcome = Outcome(calls: seq<Table>, result: Result<(), IngestError>)

  /** Offers the batches in order until the consumer declines or fails. */
  ghost function Feed(s: Setting, batches: seq<Batch>, failure: Option<IngestError>, calls: seq<Table>): Outcome
    decreases |batches|
  {
    if batches == [] then Outcome(calls, if failure.None? then Ok(()) else Err(failure.value))
    else
      match s.build(Columns(batches[0]))
      case Err(cause) => Outcome(calls, Err(BuildBatch(cause)))
      case Ok(table) =>
        match s.answer(calls + [table])
        case Err(cause) => Outcome(calls + [table], Err(Consumed(cause)))
        case Ok(more) =>
          if more then Feed(s, batches[1..], failure, calls + [table]) else Outcome(calls + [table], Ok(()))
  }

  ghost function Meant(s: Setting): Outcome
    requires s.size > 0
  {
    var p := ParsedFrom(s, 0);
    Feed(s, Batches(p, s.size), p.failure, [])
  }

  /** What is left to do, with `buffer` read but not yet offered. */
  ghost function Ahead(s: Setting, buffer: Batch, row: nat, calls: seq<Table>): Outcome
    requires s.size > 0 && row <= |s.records|
  {
    var rest := ParsedFrom(s, row);
    Feed(s, Batches(Parsed(buffer + rest.rows, rest.failure), s.size), rest.failure, calls)
  }

  lemma AheadTakesRow(s: Setting, buffer: Batch, row: nat, calls: seq<Table>)
    requires s.size > 0 && row < |s.records| && ParseRow(s, row, s.records[row]).Ok?
    ensures Ahead(s, buffer, row, calls) == Ahead(s, buffer + [ParseRow(s, row, s.records[row]).value], row + 1, calls)
  {
    var r := ParseRow(s, row, s.records[row]).value;
    assert buffer + ([r] + ParsedFrom(s, row + 1).rows) == buffer + [r] + ParsedFrom(s, row + 1).rows;
  }

  lemma AheadFails(s: Setting, buffer: Batch, row: nat, calls: seq<Table>)
    requires s.size > 0 && row < |s.records| && ParseRow(s, row, s.records[row]).Err? && |buffer| < s.size
    ensures Ahead(s, buffer, row, calls) == Outcome(calls, Err(ParseRow(s, row, s.records[row]).error))
  {
    assert buffer + [] == buffer;
  }

  lemma AheadEnds(s: Setting, buffer: Batch, calls: seq<Table>)
    requires s.size > 0 && |buffer| < s.size
    ensures Ahead(s, buffer, |s.records|, calls) == Feed(s, if buffer == [] then [] else [buffer], None, calls)
  {
    assert buffer + [] == buffer;
  }

  lemma AheadOffers(s: Setting, buffer: Batch, row: nat, calls: seq<Table>)
    requires s.size > 0 && row <= |s.records| && |buffer| == s.size
    ensures Ahead(s, buffer, row, calls) ==
      var rest := ParsedFrom(s, row); Feed(s, [buffer] + Batches(rest, s.size), rest.failure, calls)
  {
    var rest := ParsedFrom(s, row);
    var rows := buffer + rest.rows;
    assert rows[..s.size] == buffer && rows[s.size..] == rest.rows;
    if rest.rows == [] {
      assert rows == buffer;
      assert [buffer] + [] == [buffer];
    }
  }

  lemma AheadEmpty(s: Setting, row: nat, calls: seq<Table>)
    requires s.size > 0 && row <= |s.records|
    ensures var rest := ParsedFrom(s, row); Ahead(s, [], row, calls) == Feed(s, Batches(rest, s.size), rest.failure, calls)
  {
    assert [] + ParsedFrom(s, row).rows == ParsedFrom(s, row).rows;
  }

  // ---------- the consumer ----------

  /** A stateful consumer: what it answers may depend on everything it was given. */
  class Consumer {
    const s: Setting
    var calls: seq<Table>

    constructor (s: Setting)
      ensures this.s == s && calls == []
    {
      this.s := s;
      calls := [];
    }

    method Consume(table: Table) returns (r: Result<bool, IngestError>)
      modifies this
      ensures calls == old(calls) + [table]
      ensures r == match s.answer(calls) { case Ok(more) => Ok(more) case Err(cause) => Err(Consumed(cause)) }
    {
      calls := calls + [table];
      match s.answer(calls)
      case Ok(more) => r := Ok(more);
      case Err(cause) => r := Err(Consumed(cause));
    }
  }

  /** Builds one batch and offers it; what follows is decided by the answer alone. */
  method Flush(c: Consumer, table: Table, ghost rows: Batch, ghost more: seq<Batch>, ghost failure: Option<IngestError>)
    returns (r: Result<bool, IngestError>)
    requires table == Columns(rows)
    modifies c
    ensures var meant := Feed(c.s, [rows] + more, failure, old(c.calls));
      if r == Ok(true) then meant == Feed(c.s, more, failure, c.calls)
      else meant == Outcome(c.calls, if r.Ok? then Ok(()) else Err(r.error))
  {
    assert ([rows] + more)[1..] == more;
    var built := c.s.build(table);
    if built.Err? {
      return Err(BuildBatch(built.error));
    }
    r := c.Consume(built.value);
  }

  lemma ColumnsGrow(rows: Batch, r: Row)
    ensures Columns(rows + [r]) ==
      Table(Columns(rows).ids + [r.id], Columns(rows).names + [r.name], Columns(rows).notes + [r.note])
  {
  }

  // ---------- column builders filled record by record ----------

  /** Reads up to one batch straight into column builders. */
  method FillBuilders(s: Setting, start: nat, ghost calls: seq<Table>)
    returns (table: Table, row: nat, failure: Option<IngestError>, ghost rows: Batch)
    requires s.size > 0 && start <= |s.records|
    ensures start <= row <= |s.records| && |rows| == row - start <= s.size && table == Columns(rows)
    ensures failure.Some? ==> Ahead(s, [], start, calls) == Outcome(calls, Err(failure.value))
    ensures failure.None? ==> Ahead(s, [], start, calls) == Ahead(s, rows, row, calls)
    ensures failure.None? ==> |rows| == s.size || row == |s.records|
  {
    table, row, failure, rows := Table([], [], []), start, None, [];
    while |table.ids| < s.size
      invariant start <= row <= |s.records| && |rows| == row - start <= s.size && table == Columns(rows)
      invariant Ahead(s, [], start, calls) == Ahead(s, rows, row, calls)
      decreases |s.records| - row
    {
      if row == |s.records| {
        break;
      }
      if s.records[row].Err? {
        AheadFails(s, rows, row, calls);
        failure := Some(ReadRecord(s.records[row].error));
        return;
      }
      var record := s.records[row].value;
      var id := ParseId(s, row, record);
      if id.Err? {
        AheadFails(s, rows, row, calls);
        failure := Some(id.error);
        return;
      }
      AheadTakesRow(s, rows, row, calls);
      ghost var taken := Row(id.value, Get(record, 1), Note(record));
      ColumnsGrow(rows, taken);
      table := Table(table.ids + [id.value], table.names + [Get(record, 1)], table.notes + [Note(record)]);
      rows := rows + [taken];
      row := row + 1;
    }
  }

  method DirectBatches(c: Consumer) returns (r: Result<(), IngestError>)
    requires c.calls == [] && c.s.size > 0
    modifies c
    ensures Outcome(c.calls, r) == Meant(c.s)
  {
    var row := 0;
    AheadEmpty(c.s, 0, []);
    while true
      invariant row <= |c.s.records| && Meant(c.s) == Ahead(c.s, [], row, c.calls)
      decreases |c.s.records| - row
    {
      var table, next, failure;
      ghost var rows;
      table, next, failure, rows := FillBuilders(c.s, row, c.calls);
      if failure.Some? {
        return Err(failure.value);
      }
      row := next;
      if |table.ids| == 0 {
        AheadEnds(c.s, [], c.calls);
        return Ok(());
      }
      ghost var rest := ParsedFrom(c.s, row);
      if |rows| == c.s.size {
        AheadOffers(c.s, rows, row, c.calls);
      } else {
        AheadEnds(c.s, rows, c.calls);
        assert [rows] + Batches(rest, c.s.size) == [rows];
      }
      var more := Flush(c, table, rows, Batches(rest, c.s.size), rest.failure);
      if more.Err? {
        return Err(more.error);
      }
      if !more.value {
        return Ok(());
      }
      AheadEmpty(c.s, row, c.calls);
    }
  }

  // ---------- rows collected first, columns built on flush ----------

  method RowBatches(c: Consumer) returns (r: Result<(), IngestError>)
    requires c.calls == [] && c.s.size > 0
    modifies c
    ensures Outcome(c.calls, r) == Meant(c.s)
  {
    var rows: Batch := [];
    AheadEmpty(c.s, 0, []);
    for row := 0 to |c.s.records|
      invariant |rows| < c.s.size && Meant(c.s) == Ahead(c.s, rows, row, c.calls)
    {
      var parsed := ParseRow(c.s, row, c.s.records[row]);
      if parsed.Err? {
        AheadFails(c.s, rows, row, c.calls);
        return Err(parsed.error);
      }
      AheadTakesRow(c.s, rows, row, c.calls);
      rows := rows + [parsed.value];
      if |rows| == c.s.size {
        ghost var rest := ParsedFrom(c.s, row + 1);
        AheadOffers(c.s, rows, row + 1, c.calls);
        var more := Flush(c, Columns(rows), rows, Batches(rest, c.s.size), rest.failure);
        if more.Err? {
          return Err(more.error);
        }
        if !more.value {
          return Ok(());
        }
        rows := [];
        AheadEmpty(c.s, row + 1, c.calls);
      }
    }
    AheadEnds(c.s, rows, c.calls);
    if rows != [] {
      assert [rows] + [] == [rows];
      var more := Flush(c, Columns(rows), rows, [], None);
      if more.Err? {
        return Err(more.error);
      }
    }
    return Ok(());
  }

  /** Given equal settings the two make the same calls and return the same result. */
  method Compare(s: Setting) returns (direct: Outcome, rows: Outcome)
    requires s.size > 0
    ensures direct == rows == Meant(s)
  {
    var a := new Consumer(s);
    var b := new Consumer(s);
    var x := DirectBatches(a);
    var y := RowBatches(b);
    direct, rows := Outcome(a.calls, x), Outcome(b.calls, y);
  }

  // ---------- what the meaning promises ----------

  /** Whatever happens, the calls are a prefix of the batches of the rows before the first failure. */
  lemma {:induction false} FeedOffersInOrder(s: Setting, batches: seq<Batch>, failure: Option<IngestError>, calls: seq<Table>)
    ensures var o := Feed(s, batches, failure, calls);
      |calls| <= |o.calls| <= |calls| + |batches| && o.calls[..|calls|] == calls
    ensures var o := Feed(s, batches, failure, calls);
      forall k :: 0 <= k < |o.calls| - |calls| ==> s.build(Columns(batches[k])) == Ok(o.calls[|calls| + k])
    ensures var o := Feed(s, batches, failure, calls);
      o.result.Err? && (o.result.error.ReadRecord? || o.result.error.InvalidId?) ==>
        failure == Some(o.result.error) && |o.calls| == |calls| + |batches|
    decreases |batches|
  {
    if batches != [] && s.build(Columns(batches[0])).Ok? {
      var table := s.build(Columns(batches[0])).value;
      if s.answer(calls + [table]) == Ok(true) {
        FeedOffersInOrder(s, batches[1..], failure, calls + [table]);
        var o := Feed(s, batches[1..], failure, calls + [table]);
        assert o.calls[..|calls|] == o.calls[..|calls| + 1][..|calls|] == calls;
        assert o.calls[|calls|] == o.calls[..|calls| + 1][|calls|] == table;
        forall k | 0 <= k < |o.calls| - |calls|
          ensures s.build(Columns(batches[k])) == Ok(o.calls[|calls| + k])
        {
          if k > 0 {
            assert batches[1..][k - 1] == batches[k];
          }
        }
      }
    }
  }
}
