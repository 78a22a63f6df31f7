/** The running digest: row hashes summed modulo 2^64, whatever the hash. */
module Digest {
  import opened Chunking

  const MODULUS: nat := 0x1_0000_0000_0000_0000

  type Hash = Row -> nat

  /** The digest after more rows, taken one by one. */
  function Accumulate(hash: Hash, running: nat, rows: seq<Row>): (r: nat)
    requires running < MODULUS
    ensures r < MODULUS
  {
    if rows == [] then running
    else (Accumulate(hash, running, rows[..|rows| - 1]) + hash(rows[|rows| - 1])) % MODULUS
  }

  method AccumulateBatchDigest(hash: Hash, running: nat, batch: Batch) returns (r: nat)
    requires running < MODULUS
    ensures r == Accumulate(hash, running, batch)
  {
    r := running;
    for row := 0 to |batch|
      invariant r == Accumulate(hash, running, batch[..row])
    {
      assert batch[..row + 1][..row] == batch[..row];
      r := (r + hash(batch[row])) % MODULUS;
    }
    assert batch[..|batch|] == batch;
  }

  /** The unbounded total of all row hashes. */
  ghost function Total(hash: Hash, rows: seq<Row>): nat {
    if rows == [] then 0 else Total(hash, rows[..|rows| - 1]) + hash(rows[|rows| - 1])
  }

  lemma {:induction false} AccumulateIsTotal(hash: Hash, running: nat, rows: seq<Row>)
    requires running < MODULUS
    ensures Accumulate(hash, running, rows) == (running + Total(hash, rows)) % 18446744073709551616
  {
    if rows != [] {
      var before, last := rows[..|rows| - 1], hash(rows[|rows| - 1]);
      AccumulateIsTotal(hash, running, before);
      AddMod(running + Total(hash, before), last);
    }
  }

  lemma AddMod(a: nat, b: nat)
    ensures (a % MODULUS + b) % MODULUS == (a + b) % MODULUS
  {
    var q := a / MODULUS;
    assert a == q * MODULUS + a % MODULUS;
    ModPlus(a % MODULUS + b, q);
  }

  lemma {:induction false} ModPlus(x: nat, q: nat)
    ensures (x + q * MODULUS) % MODULUS == x % MODULUS
  {
    if q > 0 {
      ModPlus(x, q - 1);
      assert x + q * MODULUS == (x + (q - 1) * MODULUS) + MODULUS;
    }
  }

  lemma {:induction false} TotalAppend(hash: Hash, a: seq<Row>, b: seq<Row>)
    ensures Total(hash, a + b) == Total(hash, a) + Total(hash, b)
  {
    if b == [] {
      assert a + b == a;
    } else {
      TotalAppend(hash, a, b[..|b| - 1]);
      assert (a + b)[..|a + b| - 1] == a + b[..|b| - 1];
    }
  }

  /** The total only counts rows; their order is irrelevant. */
  lemma {:induction false} TotalOfMultiset(hash: Hash, a: seq<Row>, b: seq<Row>)
    requires multiset(a) == multiset(b)
    ensures Total(hash, a) == Total(hash, b)
    decreases |a|
  {
    if a == [] {
      assert |multiset(b)| == |b|;
    } else {
      var last := a[|a| - 1];
      assert last in multiset(b);
      var i :| 0 <= i < |b| && b[i] == last;
      var rest := b[..i] + b[i + 1..];
      assert a == a[..|a| - 1] + [last];
      assert b == b[..i] + ([last] + b[i + 1..]);
      assert multiset(rest) == multiset(b) - multiset{last};
      TotalOfMultiset(hash, a[..|a| - 1], rest);
      TotalAppend(hash, b[..i], [last] + b[i + 1..]);
      TotalAppend(hash, [last], b[i + 1..]);
      TotalAppend(hash, b[..i], b[i + 1..]);
      assert Total(hash, [last]) == Total(hash, []) + hash(last);
    }
  }

  /** The digest of the rows is a function of their multiset alone. */
  lemma DigestOfMultiset(hash: Hash, a: seq<Row>, b: seq<Row>)
    requires multiset(a) == multiset(b)
    ensures Accumulate(hash, 0, a) == Accumulate(hash, 0, b)
  {
    TotalOfMultiset(hash, a, b);
    AccumulateIsTotal(hash, 0, a);
    AccumulateIsTotal(hash, 0, b);
  }

  lemma {:induction false} AccumulateAppend(hash: Hash, running: nat, a: seq<Row>, b: seq<Row>)
    requires running < MODULUS
    ensures Accumulate(hash, running, a + b) == Accumulate(hash, Accumulate(hash, running, a), b)
  {
    if b == [] {
      assert a + b == a;
    } else {
      AccumulateAppend(hash, running, a, b[..|b| - 1]);
      assert (a + b)[..|a + b| - 1] == a + b[..|b| - 1];
    }
  }

  datatype PipelineReport = PipelineReport(batches: nat, rows: nat, digest: nat)

  /** What a report says about the batches written. */
  ghost function ReportOf(hash: Hash, written: seq<Batch>): PipelineReport {
    PipelineReport(|written|, |Flatten(written)|, Accumulate(hash, 0, Flatten(written)))
  }

  method AccumulateBatchStats(hash: Hash, report: PipelineReport, batch: Batch, ghost written: seq<Batch>)
    returns (r: PipelineReport)
    requires report == ReportOf(hash, written)
    ensures r == ReportOf(hash, written + [batch])
  {
    var digest := AccumulateBatchDigest(hash, report.digest, batch);
    FlattenSnoc(written, batch);
    AccumulateAppend(hash, 0, Flatten(written), batch);
    r := PipelineReport(report.batches + 1, report.rows + |batch|, digest);
  }

  /** Row count and digest depend on the rows alone, not on how they were batched or in which order. */
  lemma ReportIgnoresBatching(hash: Hash, a: seq<Batch>, b: seq<Batch>)
    requires multiset(Flatten(a)) == multiset(Flatten(b))
    ensures ReportOf(hash, a).rows == ReportOf(hash, b).rows && ReportOf(hash, a).digest == ReportOf(hash, b).digest
  {
    DigestOfMultiset(hash, Flatten(a), Flatten(b));
    assert |multiset(Flatten(a))| == |Flatten(a)| && |multiset(Flatten(b))| == |Flatten(b)|;
  }
}
