/** The local pipeline followed by remote publication of what it wrote. */
module RemotePipeline {
  import opened Wrappers
  import opened Chunking
  import opened Digest
  import B = BoundedProtocol
  import BoundedLaws
  import BoundedPipeline
  import opened Manifest
  import P = PublicationProtocol
  import opened RemoteStore
  import opened CompletedRead
  import Publication

  datatype Tuning = Tuning(
    batchSize: nat,
    capacity: nat,
    build: Batch -> Result<Batch, B.Cause>,
    transform: (nat, Batch) -> Result<Batch, B.Cause>,
    check: Batch -> Result<(), B.Cause>)

  /** What is outside the model: reading text as records, and encoding batches as a file. */
  datatype Codec = Codec(parse: Bytes -> seq<Result<Row, B.Cause>>, encode: seq<Batch> -> Bytes)

  datatype RemoteError =
    | Cancelled
    | NoTemporaryDirectory
    | Download(io: IoError)
    | Local(failure: B.Failure)
    | Publish(error: Publication.PublishError)

  function JobFor(codec: Codec, tuning: Tuning, input: Bytes): B.Job {
    B.Job(Ok(codec.parse(input)), tuning.batchSize, tuning.capacity, tuning.build, tuning.transform, tuning.check)
  }

  /** Where an output comes from: the run's tuning, the object downloaded, its bytes, and the batches made of them. */
  datatype Derivation = Derivation(tuning: Tuning, source: P.Object, input: Bytes, batches: seq<Batch>)

  /** Every record of the bytes parses, and the batches are the built, transformed and checked chunks of those rows. */
  ghost predicate Made(codec: Codec, tuning: Tuning, input: Bytes, batches: seq<Batch>) {
    BoundedLaws.MadeFrom(codec.parse(input), tuning.batchSize, tuning.build, tuning.transform, tuning.check, batches)
  }

  /** The job reads these bytes and is tuned like this. */
  ghost predicate Reads(job: B.Job, codec: Codec, tuning: Tuning, input: Bytes) {
    && job.input == Ok(codec.parse(input)) && job.batchSize == tuning.batchSize && job.capacity == tuning.capacity
    && job.build == tuning.build && job.transform == tuning.transform && job.check == tuning.check
  }

  /**
   * The run's output encodes every row, transformed, of an object that was stored under its input key and
   * that its input metadata describe; its row count and digest are those of the output.
   */
  ghost predicate Derived(w: P.World, codec: Codec, hash: Hash, run: Run, d: Derivation) {
    && (run.inputKey, d.source) in w.written && P.Describes(run.inputMeta, d.source)
    && (d.source.body.Data? ==> d.input == d.source.body.bytes)
    && Made(codec, d.tuning, d.input, d.batches)
    && run.local == codec.encode(d.batches)
    && run.rows == |Flatten(d.batches)| && run.digest == Accumulate(hash, 0, Flatten(d.batches))
  }

  /** Every run that ever began has such an output, each with a tuning of its own. */
  ghost predicate AllDerived(w: P.World, codec: Codec, hash: Hash) {
    forall id | id in w.runs :: exists d :: Derived(w, codec, hash, w.runs[id], d)
  }

  lemma AllDerivedGrows(w: P.World, w': P.World, codec: Codec, hash: Hash)
    requires w.written <= w'.written && w'.runs == w.runs
    ensures AllDerived(w, codec, hash) ==> AllDerived(w', codec, hash)
  {
    if AllDerived(w, codec, hash) {
      forall id | id in w'.runs ensures exists d :: Derived(w', codec, hash, w'.runs[id], d) {
        var d :| Derived(w, codec, hash, w.runs[id], d);
        assert Derived(w', codec, hash, w'.runs[id], d);
      }
    }
  }

  lemma OneMoreDerived(w: P.World, w': P.World, codec: Codec, hash: Hash, run: Run, d: Derivation)
    requires AllDerived(w, codec, hash) && w.written <= w'.written
    requires w'.runs == w.runs || w'.runs == w.runs[run.id := run]
    requires Derived(w', codec, hash, run, d)
    ensures AllDerived(w', codec, hash)
  {
    AllDerivedGrows(w, w'.(runs := w.runs), codec, hash);
    forall id | id in w'.runs ensures exists d' :: Derived(w', codec, hash, w'.runs[id], d') {
      if w'.runs[id] != run {
        var d' :| Derived(w'.(runs := w.runs), codec, hash, w.runs[id], d');
        assert Derived(w', codec, hash, w'.runs[id], d');
      }
    }
  }

  /**
   * What happens around the local run: the flag when it starts and when it is over, the directory, the run's
   * identifier, and whether its record can be serialized.
   */
  datatype Around = Around(cancelledFirst: bool, directoryMade: bool, cancelledAfter: bool, runId: string, serializes: bool)

  /** Why a run failed: the first cause in the order of the steps. A local run means that the download succeeded. */
  ghost predicate Explains(around: Around, local: Option<BoundedPipeline.Machine>, error: RemoteError)
    reads if local.Some? then {local.value} else {}
  {
    if around.cancelledFirst then error == Cancelled
    else if !around.directoryMade then error == NoTemporaryDirectory
    else if local.None? then error.Download?
    else
      match error
      case Local(failure) => local.value.s.consumer == B.Finished(Err(failure))
      case Cancelled => local.value.s.consumer == B.Finished(Ok(())) && (local.value.s.cancelled || around.cancelledAfter)
      case Publish(_) => local.value.s.consumer == B.Finished(Ok(())) && !local.value.s.cancelled && !around.cancelledAfter
      case _ => false
  }

  /** The local run on a downloaded input, and the look at the flag after it. */
  method RunLocally(machine: BoundedPipeline.Machine, codec: Codec, hash: Hash, around: Around)
    returns (r: Result<PipelineReport, RemoteError>, batches: seq<Batch>)
    requires machine.Valid() && machine.s.consumer.Starting? && !around.cancelledFirst && around.directoryMade
    modifies machine
    ensures machine.Valid()
    ensures r.Ok? ==> BoundedLaws.Complete(machine.job, batches) && r.value == ReportOf(hash, batches)
    ensures r.Ok? ==> !around.cancelledAfter && forall e :: Explains(around, Some(machine), Publish(e))
    ensures r.Err? ==> !r.error.Publish? && !r.error.Download? && Explains(around, Some(machine), r.error)
  {
    batches := [];
    var report := BoundedPipeline.RunBoundedPipeline(machine, hash);
    if report.Err? {
      return Err(Local(report.error)), batches;
    }
    if machine.s.cancelled || around.cancelledAfter {
      return Err(Cancelled), batches;
    }
    return Ok(report.value), machine.s.output.batches;
  }

  /** No call has failed since, the record serializes, and the captured metadata identify the output. */
  ghost predicate Undisturbed(store: ObjectStore, before: seq<IoError>, around: Around, run: Run)
    reads store
  {
    around.serializes && store.failures == before && Publication.Accepts(store.described, run, store.out)
  }

  /** Publishes what a local run wrote. */
  method PublishBatches(
      store: ObjectStore, codec: Codec, hash: Hash, around: Around, inputKey: Key, meta: ObjectMeta,
      batches: seq<Batch>, report: PipelineReport, ghost d: Derivation, ghost before: P.World)
    returns (r: Result<(), Publication.PublishError>, ghost run: Run)
    requires store.Valid() && store.world.writer.Idle? && report == ReportOf(hash, batches) && d.batches == batches
    requires (inputKey, d.source) in store.world.written && P.Describes(meta, d.source)
    requires d.source.body.Data? ==> d.input == d.source.body.bytes
    requires Made(codec, d.tuning, d.input, batches) && store.Aside(before, store.world)
    modifies store
    ensures store.Valid() && old(store.trace) <= store.trace && store.world.writer.Idle?
    ensures run.inputKey == inputKey && Derived(store.world, codec, hash, run, d)
    ensures Publication.Told(before, store.world, store.out, run, r)
    ensures r.Ok? || r.error.Remote? ==> (r.Ok? <==> Undisturbed(store, old(store.failures), around, run))
    ensures AllDerived(old(store.world), codec, hash) ==> AllDerived(store.world, codec, hash)
  {
    ghost var w := store.world;
    r, run := Publication.Publish(
      store, around.runId, codec.encode(batches), inputKey, meta, report.rows, report.digest, around.serializes);
    ToldOfAside(store, before, w, store.world, run, r);
    if AllDerived(w, codec, hash) {
      OneMoreDerived(w, store.world, codec, hash, run, d);
    }
  }

  /** What others did elsewhere before a publication changes nothing of what it tells. */
  lemma ToldOfAside(
      store: ObjectStore, before: P.World, w: P.World, after: P.World, run: Run, r: Result<(), Publication.PublishError>)
    requires store.Aside(before, w) && Publication.Told(w, after, store.out, run, r)
    ensures Publication.Told(before, after, store.out, run, r)
  {
    assert Owned(store.out, store.out);
  }

  /** Everything before publication: the checks, the download and the local run. The output is left alone. */
  method Prepare(conn: Connection, file: LocalFile, codec: Codec, tuning: Tuning, hash: Hash, inputKey: Key, around: Around)
    returns (r: Result<(PipelineReport, ObjectMeta), RemoteError>, batches: seq<Batch>, ghost d: Derivation,
      ghost local: Option<BoundedPipeline.Machine>)
    requires conn.store.Valid() && conn.alone && !conn.faulty && !file.failed && tuning.batchSize > 0
    modifies conn, conn.store`world, conn.store`trace, file
    ensures conn.After(old(conn.store.trace), old(conn.store.world))
    ensures AllDerived(old(conn.store.world), codec, hash) ==> AllDerived(conn.store.world, codec, hash)
    ensures local.Some? ==> fresh(local.value) && local.value.Valid() && Reads(local.value.job, codec, tuning, d.input)
    ensures d.tuning == tuning
    ensures r.Ok? ==> d.batches == batches && r.value.0 == ReportOf(hash, batches)
    ensures r.Ok? ==> (inputKey, d.source) in conn.store.world.written && P.Describes(r.value.1, d.source)
    ensures r.Ok? ==> Made(codec, tuning, d.input, batches)
    ensures r.Ok? ==> !around.cancelledFirst && !around.cancelledAfter && local.Some?
    ensures r.Ok? ==> forall e :: Explains(around, local, Publish(e))
    ensures d.source.body.Data? && (r.Ok? || !r.error.Download?) && local.Some? ==> d.input == d.source.body.bytes
    ensures r.Err? ==> !r.error.Publish? && Explains(around, local, r.error)
    ensures r.Err? && r.error.Download? && d.source.body.Data? && !conn.faulty && !file.failed ==>
      !HasIdentity(d.source.version, d.source.etag)
  {
    batches, local := [], None;
    d := Derivation(tuning, P.Object(Data([]), None, None), [], []);
    if around.cancelledFirst {
      return Err(Cancelled), batches, d, local;
    }
    if !around.directoryMade {
      return Err(NoTemporaryDirectory), batches, d, local;
    }
    var input, source := DownloadToTemp(conn, inputKey, file);
    d := Derivation(tuning, source, file.bytes, []);
    AllDerivedGrows(old(conn.store.world), conn.store.world, codec, hash);
    if input.Err? {
      return Err(Download(input.error)), batches, d, local;
    }
    var machine := new BoundedPipeline.Machine(JobFor(codec, tuning, file.bytes), around.cancelledFirst);
    local := Some(machine);
    var report;
    report, batches := RunLocally(machine, codec, hash, around);
    d := d.(batches := batches);
    r := if report.Ok? then Ok((report.value, input.value)) else Err(report.error);
  }

  /**
   * Downloads an input, runs the pipeline on it and publishes the output. On success the completion record
   * names an object derived from the input object it identifies; a failure before publication leaves the
   * store's output alone, every failure has its cause, and no run spoils the derivation of the others.
   */
  method RunBoundedPipelineS3(
      conn: Connection, file: LocalFile, codec: Codec, tuning: Tuning, hash: Hash, inputKey: Key, around: Around)
    returns (r: Result<PipelineReport, RemoteError>, ghost run: Run, ghost d: Derivation,
      ghost local: Option<BoundedPipeline.Machine>)
    requires conn.store.Valid() && conn.store.world.writer.Idle? && conn.alone && !conn.faulty && !file.failed
    requires tuning.batchSize > 0
    modifies conn, conn.store, file
    ensures conn.store.Valid() && old(conn.store.trace) <= conn.store.trace && conn.store.world.writer.Idle?
    ensures d.tuning == tuning
    ensures r.Ok? || r.error.Publish? ==> run.inputKey == inputKey && Derived(conn.store.world, codec, hash, run, d)
    ensures r.Ok? ==> r.value == ReportOf(hash, d.batches) && P.RecordNames(conn.store.world, conn.store.out, run)
    ensures r.Err? && r.error.Publish? ==>
      Publication.Told(old(conn.store.world), conn.store.world, conn.store.out, run, Err(r.error.error))
    ensures r.Err? && !r.error.Publish? ==> conn.store.Aside(old(conn.store.world), conn.store.world)
    ensures r.Ok? || (r.error.Publish? && r.error.error.Remote?) ==>
      (r.Ok? <==> Undisturbed(conn.store, old(conn.store.failures), around, run))
    ensures AllDerived(old(conn.store.world), codec, hash) ==> AllDerived(conn.store.world, codec, hash)
    ensures local.Some? ==> fresh(local.value) && local.value.Valid() && Reads(local.value.job, codec, tuning, d.input)
    ensures if r.Err? then Explains(around, local, r.error) else !around.cancelledFirst && !around.cancelledAfter
    ensures r.Err? && r.error.Download? && d.source.body.Data? && !conn.faulty && !file.failed ==>
      !HasIdentity(d.source.version, d.source.etag)
  {
    ghost var before := conn.store.world;
    run := Run("", [], 0, 0, inputKey, ObjectMeta("", 0, None, None, ""));
    var prepared, batches;
    prepared, batches, d, local := Prepare(conn, file, codec, tuning, hash, inputKey, around);
    if prepared.Err? {
      return Err(prepared.error), run, d, local;
    }
    var (report, meta) := prepared.value;
    var published;
    published, run := PublishBatches(conn.store, codec, hash, around, inputKey, meta, batches, report, d, before);
    r := if published.Ok? then Ok(report) else Err(Publish(published.error));
  }

  // ---------- reading the output back ----------

  /** The record and the bytes tell the same story, from the input object the record identifies to the output. */
  ghost predicate Told(w: P.World, codec: Codec, hash: Hash, m: CompletionManifest, bytes: Bytes, d: Derivation) {
    && (m.inputKey, d.source) in w.written
    && m.inputETag == d.source.etag && m.inputVersion == d.source.version
    && (d.source.body.Data? ==> d.input == d.source.body.bytes && m.inputSize == |d.input|)
    && Made(codec, d.tuning, d.input, d.batches)
    && bytes == codec.encode(d.batches)
    && m.rowCount == |Flatten(d.batches)| && m.contentDigest == Hex(Accumulate(hash, 0, Flatten(d.batches)), 16)
  }

  /**
   * Where every run is a pipeline run, whoever reads the completed output, at whatever moment and against
   * whatever replies, gets the encoding of the complete, transformed input that the record identifies.
   */
  method ReadPipelineOutput(conn: Connection, file: LocalFile, ghost codec: Codec, ghost hash: Hash)
    returns (r: Result<CompletionManifest, IoError>, ghost d: Option<Derivation>)
    requires conn.store.Valid() && !file.failed && !conn.faulty
    modifies conn, conn.store, file
    ensures conn.After(old(conn.store.trace), old(conn.store.world))
    ensures r.Ok? && AllDerived(conn.store.world, codec, hash) ==>
      d.Some? && Told(conn.store.world, codec, hash, r.value, file.bytes, d.value)
  {
    ghost var record;
    r, record := DownloadCompletedOutput(conn, file);
    d := None;
    if r.Ok? && AllDerived(conn.store.world, codec, hash) {
      var found := ReadIsDerived(conn.store.world, conn.store.out, codec, hash, r.value, file.bytes);
      d := Some(found);
    }
  }

  /** Where nothing is transformed, the output's rows are those that the source object's bytes parse to. */
  lemma UntransformedRows(w: P.World, codec: Codec, hash: Hash, m: CompletionManifest, bytes: Bytes, d: Derivation)
    requires Told(w, codec, hash, m, bytes, d) && d.source.body.Data?
    requires forall b :: d.tuning.build(b).Ok? ==> d.tuning.build(b).value == b
    requires forall k, b :: d.tuning.transform(k, b) == Ok(b)
    ensures var records := codec.parse(d.source.body.bytes);
      && |Flatten(d.batches)| == |records| == m.rowCount
      && forall i :: 0 <= i < |records| ==> records[i] == Ok(Flatten(d.batches)[i])
  {
    BoundedLaws.CompleteRows(JobFor(codec, d.tuning, d.input), d.batches);
  }

  lemma ReadIsDerived(w: P.World, out: Key, codec: Codec, hash: Hash, m: CompletionManifest, bytes: Bytes)
    returns (d: Derivation)
    requires ReadOf(w, out, m, bytes) && AllDerived(w, codec, hash)
    ensures Told(w, codec, hash, m, bytes, d)
  {
    var run := w.runs[m.runId.value];
    d :| Derived(w, codec, hash, run, d);
    var named :| (out, named) in w.written && P.Names(m, run, out, named);
  }
}
