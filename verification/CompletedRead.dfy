/** Identity-bound reads: an object is fetched in ranges while anyone may be replacing it. */
module CompletedRead {
  import opened Wrappers
  import opened Manifest
  import opened PublicationProtocol
  import opened RemoteStore

  const CHUNK_BYTES: u64 := 8 * 1024 * 1024

  /** The destination file of a download. */
  class LocalFile {
    var bytes: Bytes
    /** Some operation on the file has failed. */
    ghost var failed: bool

    constructor ()
      ensures bytes == [] && !failed
    {
      bytes := [];
      failed := false;
    }

    method Create() returns (ok: bool)
      modifies this
      ensures ok ==> bytes == []
      ensures failed == (old(failed) || !ok)
    {
      ok := *;
      bytes := if ok then [] else bytes;
      failed := failed || !ok;
    }

    method WriteAll(chunk: Bytes) returns (ok: bool)
      modifies this
      ensures ok ==> bytes == old(bytes) + chunk
      ensures failed == (old(failed) || !ok)
    {
      ok := *;
      if ok {
        bytes := bytes + chunk;
      } else {
        bytes := *;
      }
      failed := failed || !ok;
    }
  }

  datatype GetError = Precondition | NotModified | Other

  /** A reply: labels, the range it claims, and the chunks that arrive before the stream ends or breaks. */
  datatype Response = Response(meta: ObjectMeta, start: u64, end: u64, chunks: seq<Bytes>, broken: bool)

  function Concat(chunks: seq<Bytes>): Bytes {
    if chunks == [] then [] else Concat(chunks[..|chunks| - 1]) + chunks[|chunks| - 1]
  }

  /**
   * The labels describe the object the body comes from, and the body runs from where the reply claims
   * it starts. Nothing else is promised: the conditions of the request may have been ignored, the
   * range may be another one, and the body may be too short or too long.
   */
  predicate Delivers(response: Response, obj: Object) {
    && Describes(response.meta, obj)
    && (obj.body.Data? ==>
      response.start <= |obj.body.bytes| && Concat(response.chunks) <= obj.body.bytes[response.start..])
  }

  /** A reply may name any location and range, and stop anywhere in the object's bytes, broken or not. */
  lemma RepliesArePossible(obj: Object, response: Response, rest: Bytes)
    requires obj.body.Data? && response.start <= |obj.body.bytes|
    requires response.meta.size == |obj.body.bytes| && response.meta.etag == obj.etag && response.meta.version == obj.version
    requires Concat(response.chunks) + rest == obj.body.bytes[response.start..]
    ensures Delivers(response, obj)
  {
  }

  /** What a request asks for: maybe a range, and maybe a version or an ETag to insist on. */
  datatype Request = Request(key: Key, range: Option<(u64, u64)>, version: Option<string>, ifMatch: Option<string>)

  /** The reply is what was asked for: the right object, the right range, and all of it. */
  predicate Conforms(response: Response, request: Request, source: Object) {
    && response.meta.location == request.key
    && (request.version.Some? ==> response.meta.version == request.version)
    && (request.ifMatch.Some? ==> response.meta.etag == request.ifMatch)
    && (request.range.Some? ==>
      && (response.start, response.end) == request.range.value && response.start <= response.end && !response.broken
      && (source.body.Data? ==>
        response.end <= |source.body.bytes| && Concat(response.chunks) == source.body.bytes[response.start..response.end]))
  }

  /** A reader's connection. Replies that are errors or do not conform are remembered. */
  class Connection {
    const store: ObjectStore
    /** Nobody publishes to this output meanwhile. */
    const alone: bool
    ghost var faulty: bool
    /** The last reply to a conditional request. */
    ghost var last: Result<Response, GetError>

    constructor (store: ObjectStore, alone: bool)
      ensures this.store == store && this.alone == alone && !faulty
    {
      this.store := store;
      this.alone := alone;
      faulty := false;
      last := Err(Other);
    }

    /** The store has only moved on from an earlier state, along steps of the protocol. */
    ghost predicate After(trace: seq<World>, world: World)
      reads this, store
    {
      && store.Valid() && trace <= store.trace && Grows(world, store.world)
      && (alone ==> store.Aside(world, store.world))
    }

    /** Others take their steps. */
    method Wait()
      requires store.Valid()
      modifies store`world, store`trace
      ensures After(old(store.trace), old(store.world))
    {
      if alone {
        store.Elsewhere();
      } else {
        store.Interfere();
      }
    }

    /** A conditional request. The reply comes from some object ever stored under the key, `source`. */
    method GetOpts(request: Request) returns (r: Result<Response, GetError>, ghost source: Object)
      requires store.Valid()
      modifies this, store`world, store`trace
      ensures After(old(store.trace), old(store.world))
      ensures r.Ok? ==> (request.key, source) in store.world.written && Delivers(r.value, source)
      ensures faulty == (old(faulty) || r.Err? || !Conforms(r.value, request, source)) && last == r
    {
      Wait();
      var obj: Object := *;
      var response: Response := *;
      var error: GetError := *;
      source := obj;
      if (request.key, obj) in store.world.written && Delivers(response, obj) {
        r := Ok(response);
      } else {
        r := Err(error);
      }
      faulty := faulty || r.Err? || !Conforms(r.value, request, source);
      last := r;
    }

    /** Fetches the completion key: some body ever stored there. */
    method GetRecord(key: Key) returns (r: Result<Body, GetError>, ghost source: Object)
      requires store.Valid()
      modifies this, store`world, store`trace
      ensures After(old(store.trace), old(store.world))
      ensures r.Ok? ==> (key, source) in store.world.written && source.body == r.value
      ensures faulty == (old(faulty) || r.Err?)
    {
      Wait();
      var obj: Object := *;
      var error: GetError := *;
      source := obj;
      if (key, obj) in store.world.written {
        r := Ok(obj.body);
      } else {
        r := Err(error);
      }
      faulty := faulty || r.Err?;
    }
  }

  function ReadError(e: GetError): IoError {
    if e.Other? then DownloadObject else SnapshotPrecondition
  }

  /** What a failed range request means: each error names what is really wrong with the reply, or with the file. */
  ghost predicate ReadCause(e: IoError, reply: Result<Response, GetError>, key: Key, captured: ObjectMeta,
      offset: nat, end: nat, failed: bool)
  {
    match e
    case OpenOutput => failed
    case SnapshotPrecondition => reply.Err? && (reply.error.Precondition? || reply.error.NotModified?)
    case DownloadObject => if reply.Err? then reply.error.Other? else reply.value.broken
    case InvalidSnapshot(v) =>
      reply.Ok? &&
      (match v
       case Location => reply.value.meta.location != key
       case Size => reply.value.meta.size != captured.size
       case Identity =>
         if captured.version.Some? && captured.version.value != "" then reply.value.meta.version != captured.version
         else reply.value.meta.etag != captured.etag
       case Range => (reply.value.start, reply.value.end) != (offset, end)
       case Length => |Concat(reply.value.chunks)| != end - offset
       case MissingIdentity => false)
    case _ => false
  }

  function NonEmpty(s: Option<string>): Option<string> {
    if s.Some? && s.value != "" then s else None
  }

  lemma {:induction false} ConcatSnoc(chunks: seq<Bytes>, k: nat)
    requires k < |chunks|
    ensures Concat(chunks[..k + 1]) == Concat(chunks[..k]) + chunks[k]
    ensures |Concat(chunks[..k + 1])| <= |Concat(chunks)| && Concat(chunks[..k + 1]) <= Concat(chunks)
    decreases |chunks|
  {
    assert chunks[..k + 1][..k] == chunks[..k];
    var n := |chunks| - 1;
    if k == n {
      assert chunks[..k + 1] == chunks;
    } else {
      ConcatSnoc(chunks[..n], k);
      assert chunks[..n][..k + 1] == chunks[..k + 1] && chunks[..n][..k] == chunks[..k];
    }
  }

  /** Copies one response body to the file, refusing one of any other length than the range asked for. */
  method CopyBody(file: LocalFile, response: Response, expected: u64) returns (r: Result<(), IoError>)
    requires expected <= CHUNK_BYTES && !file.failed
    modifies file
    ensures r.Ok? ==> file.bytes == old(file.bytes) + Concat(response.chunks)
    ensures r.Ok? <==> |Concat(response.chunks)| == expected && !response.broken && !file.failed
    ensures r.Err? ==>
      || (r.error == InvalidSnapshot(Length) && |Concat(response.chunks)| != expected)
      || (r.error == DownloadObject && response.broken) || (r.error == OpenOutput && file.failed)
  {
    var received: u64 := 0;
    var k := 0;
    while k < |response.chunks|
      invariant 0 <= k <= |response.chunks| && !file.failed
      invariant received == |Concat(response.chunks[..k])| && received <= expected
      invariant file.bytes == old(file.bytes) + Concat(response.chunks[..k])
    {
      var chunk := response.chunks[k];
      ConcatSnoc(response.chunks, k);
      if |chunk| > U64_MAX {
        return Err(InvalidSnapshot(Length));
      }
      received := SaturatingAdd(received, |chunk|);
      if received > expected {
        return Err(InvalidSnapshot(Length));
      }
      var written := file.WriteAll(chunk);
      if !written {
        return Err(OpenOutput);
      }
      k := k + 1;
    }
    assert response.chunks[..k] == response.chunks;
    if response.broken {
      return Err(DownloadObject);
    }
    r := if received == expected then Ok(()) else Err(InvalidSnapshot(Length));
  }

  predicate HasIdentity(version: Option<string>, etag: Option<string>) {
    (version.Some? && version.value != "") || (etag.Some? && etag.value != "")
  }

  /**
   * Downloads the object that `captured` describes, range by range. Whatever happens to the key
   * meanwhile, success means the file holds that object's bytes and no others; and nothing but an
   * unusable identity, a non-conforming reply or a local failure prevents success.
   */
  method DownloadCaptured(conn: Connection, key: Key, file: LocalFile, captured: ObjectMeta, ghost obj: Object)
    returns (r: Result<ObjectMeta, IoError>)
    requires conn.store.Valid() && file.bytes == [] && !file.failed && (conn.faulty ==> captured.location != key)
    requires (key, obj) in conn.store.world.written && Describes(captured, obj)
    modifies conn, conn.store`world, conn.store`trace, file
    ensures conn.After(old(conn.store.trace), old(conn.store.world))
    ensures r.Ok? ==> r.value == captured && captured.location == key && HasIdentity(captured.version, captured.etag) && !conn.faulty && !file.failed
    ensures r.Ok? && obj.body.Data? ==> file.bytes == obj.body.bytes
    ensures old(conn.faulty) ==> conn.faulty
    ensures obj.body.Data? ==>
      (r.Ok? <==> captured.location == key && HasIdentity(captured.version, captured.etag) && !conn.faulty && !file.failed)
    ensures captured.location != key ==> r == Err(InvalidSnapshot(Location))
    ensures captured.location == key && !HasIdentity(captured.version, captured.etag) ==> r == Err(InvalidSnapshot(MissingIdentity))
    ensures captured.location == key && HasIdentity(captured.version, captured.etag) && r.Err? ==>
      exists offset: nat, end: nat :: offset < end <= captured.size && ReadCause(r.error, conn.last, key, captured, offset, end, file.failed)
  {
    if captured.location != key {
      return Err(InvalidSnapshot(Location));
    }
    var version, etag := NonEmpty(captured.version), NonEmpty(captured.etag);
    if version.None? && etag.None? {
      return Err(InvalidSnapshot(MissingIdentity));
    }
    var offset: u64 := 0;
    while offset < captured.size
      invariant conn.After(old(conn.store.trace), old(conn.store.world))
      invariant offset <= captured.size && !conn.faulty && !file.failed
      invariant obj.body.Data? ==> file.bytes == obj.body.bytes[..offset]
    {
      var end: u64 := Min(captured.size, SaturatingAdd(offset, CHUNK_BYTES));
      var fetched := FetchRange(conn, key, file, captured, version, etag, offset, end, obj);
      if fetched.Err? {
        return Err(fetched.error);
      }
      offset := end;
    }
    return Ok(captured);
  }

  /** A reply that passes the checks of one range request, or the error of the first check it fails. */
  function CheckReply(response: Response, key: Key, captured: ObjectMeta, version: Option<string>, etag: Option<string>,
      offset: u64, end: u64): Result<(), IoError> {
    if response.meta.location != key then Err(InvalidSnapshot(Location))
    else if response.meta.size != captured.size then Err(InvalidSnapshot(Size))
    else if !(if version.Some? then response.meta.version == version else response.meta.etag == etag)
    then Err(InvalidSnapshot(Identity))
    else if response.start != offset || response.end != end then Err(InvalidSnapshot(Range))
    else Ok(())
  }

  lemma CheckNamesCause(response: Response, key: Key, captured: ObjectMeta, version: Option<string>, etag: Option<string>,
      offset: u64, end: u64, failed: bool)
    requires version == NonEmpty(captured.version) && etag == NonEmpty(captured.etag) && (version.Some? || etag.Some?)
    requires CheckReply(response, key, captured, version, etag, offset, end).Err?
    ensures ReadCause(CheckReply(response, key, captured, version, etag, offset, end).error, Ok(response),
      key, captured, offset, end, failed)
  {
  }

  /** Two objects once stored under one key with one identity have the same bytes. */
  lemma SameObject(store: ObjectStore, key: Key, a: Object, b: Object)
    requires store.Valid() && (key, a) in store.world.written && (key, b) in store.world.written && SameIdentity(a, b)
    ensures a.body == b.body
  {
    store.ValidInv();
  }

  /** One conditional range request and its checks. */
  method FetchRange(conn: Connection, key: Key, file: LocalFile, captured: ObjectMeta,
      version: Option<string>, etag: Option<string>, offset: u64, end: u64, ghost obj: Object)
    returns (r: Result<(), IoError>)
    requires conn.store.Valid() && (key, obj) in conn.store.world.written && Describes(captured, obj)
    requires version == NonEmpty(captured.version) && etag == NonEmpty(captured.etag) && (version.Some? || etag.Some?)
    requires offset < end <= captured.size && end - offset <= 8388608
    requires !file.failed && !conn.faulty && (obj.body.Data? ==> file.bytes == obj.body.bytes[..offset])
    modifies conn, conn.store`world, conn.store`trace, file
    ensures conn.After(old(conn.store.trace), old(conn.store.world))
    ensures r.Ok? ==> !conn.faulty && !file.failed
    ensures obj.body.Data? && r.Ok? ==> file.bytes == obj.body.bytes[..end]
    ensures obj.body.Data? ==> (r.Ok? <==> !conn.faulty && !file.failed)
    ensures r.Err? ==> ReadCause(r.error, conn.last, key, captured, offset, end, file.failed)
  {
    var request := Request(key, Some((offset, end)), version, if version.None? then etag else None);
    var reply, source := conn.GetOpts(request);
    if reply.Err? {
      return Err(ReadError(reply.error));
    }
    var response := reply.value;
    if SameIdentity(source, obj) {
      SameObject(conn.store, key, source, obj);
    }
    var checked := CheckReply(response, key, captured, version, etag, offset, end);
    if checked.Err? {
      CheckNamesCause(response, key, captured, version, etag, offset, end, file.failed);
      return checked;
    }
    r := CopyBody(file, response, end - offset);
    if obj.body.Data? {
      SliceOfBytes(obj.body.bytes, offset, end, Concat(response.chunks));
    }
  }

  lemma SliceOfBytes(bytes: Bytes, offset: nat, end: nat, part: Bytes)
    requires offset <= end <= |bytes| && part <= bytes[offset..]
    ensures |part| == end - offset <==> part == bytes[offset..end]
    ensures bytes[..offset] + bytes[offset..end] == bytes[..end]
  {
    if |part| == end - offset {
      assert part == bytes[offset..][..end - offset] == bytes[offset..end];
    }
  }

  /**
   * Downloads the object that the metadata request finds. Success means the file holds the bytes of that one
   * object; an object with a usable identity is always delivered unless a reply or the file fails.
   */
  method DownloadToTemp(conn: Connection, key: Key, file: LocalFile) returns (r: Result<ObjectMeta, IoError>, ghost obj: Object)
    requires conn.store.Valid() && !file.failed && !conn.faulty
    modifies conn, conn.store`world, conn.store`trace, file
    ensures conn.After(old(conn.store.trace), old(conn.store.world))
    ensures r.Ok? ==> (key, obj) in conn.store.world.written && Describes(r.value, obj) && HasIdentity(obj.version, obj.etag)
    ensures r.Ok? && obj.body.Data? ==> file.bytes == obj.body.bytes && !conn.faulty && !file.failed
    ensures obj.body.Data? && !conn.faulty && !file.failed ==> (r.Ok? <==> HasIdentity(obj.version, obj.etag))
    ensures obj.body.Data? && !conn.faulty && !file.failed && r.Err? ==> r.error == InvalidSnapshot(MissingIdentity)
  {
    obj := Object(Data([]), None, None);
    var created := file.Create();
    if !created {
      return Err(OpenOutput), obj;
    }
    var head;
    head, obj := conn.GetOpts(Request(key, None, None, None));
    if head.Err? {
      return Err(DownloadObject), obj;
    }
    r := DownloadCaptured(conn, key, file, head.value.meta, obj);
  }

  /**
   * The file is the whole output of the run the record identifies, and the record is that run's: it names
   * the identity of an object with these bytes that was stored as the output.
   */
  ghost predicate ReadOf(w: World, out: Key, m: CompletionManifest, bytes: Bytes) {
    && TrueRecord(w, out, m)
    && var run := w.runs[m.runId.value];
      && bytes == run.local
      && m.schemaVersion == 2 && m.digestScheme == Some("legacy-ahash-wrapping-sum-v1")
      && m.rowCount == run.rows && m.contentDigest == Hex(run.digest, 16)
      && m.inputSize == run.inputMeta.size && m.inputLastModified == run.inputMeta.lastModified
      && m.inputETag == run.inputMeta.etag && m.inputVersion == run.inputMeta.version
      && m.outputKey == Some(out) && m.inputKey == run.inputKey
  }

  /** Every record of version 2 ever stored is the true record of some run, and names this output. */
  lemma RecordIsTrue(store: ObjectStore, record: Object)
    requires store.Valid() && (KeyFor(store.out), record) in store.world.written && IsVersion2(record.body)
    ensures TrueRecord(store.world, store.out, record.body.manifest)
    ensures record.body.manifest.outputKey == Some(store.out)
  {
    store.ValidInv();
  }

  /**
   * Reads the completed output. In every interleaving with publishing runs, failures and crashes,
   * success means the file holds exactly the output whose row count and digest the record carries; and a
   * record of version 2 is always read back in full unless a reply or the file fails.
   */
  method DownloadCompletedOutput(conn: Connection, file: LocalFile)
    returns (r: Result<CompletionManifest, IoError>, ghost record: Object)
    requires conn.store.Valid() && !file.failed && !conn.faulty
    modifies conn, conn.store`world, conn.store`trace, file
    ensures conn.After(old(conn.store.trace), old(conn.store.world))
    ensures r.Ok? ==> ReadOf(conn.store.world, conn.store.out, r.value, file.bytes)
    ensures r.Ok? ==> (KeyFor(conn.store.out), record) in conn.store.world.written && record.body == Record(r.value)
    ensures r.Ok? ==> !conn.faulty && !file.failed
    ensures !conn.faulty && !file.failed ==> (r.Ok? <==> Decode(record.body).Ok? && IsVersion2(record.body))
    ensures !conn.faulty && !file.failed && Decode(record.body).Err? ==> r == Err(Decode(record.body).error)
    ensures !conn.faulty && !file.failed && Decode(record.body).Ok? && Decode(record.body).value.schemaVersion != 2 ==>
      r == Err(CompletionIdentityRequired(Decode(record.body).value.schemaVersion))
  {
    var out := conn.store.out;
    var reply;
    reply, record := conn.GetRecord(KeyFor(out));
    if reply.Err? {
      return Err(DownloadObject), record;
    }
    var decoded := Decode(reply.value);
    if decoded.Err? {
      return Err(decoded.error), record;
    }
    var m := decoded.value;
    if m.schemaVersion != 2 {
      return Err(CompletionIdentityRequired(m.schemaVersion)), record;
    }
    RecordIsTrue(conn.store, record);
    if m.outputKey != Some(out) {
      return Err(InvalidManifest(OutputKeyMismatch)), record;
    }
    r := ReadIdentified(conn, file, m);
  }

  /** Captures the metadata of the output a record identifies, whatever is at the output key by now. */
  method HeadIdentified(conn: Connection, m: CompletionManifest, ghost run: Run, ghost named: Object)
    returns (r: Result<ObjectMeta, IoError>, ghost obj: Object)
    requires conn.store.Valid() && !conn.faulty
    requires (conn.store.out, named) in conn.store.world.written && Names(m, run, conn.store.out, named)
    modifies conn, conn.store`world, conn.store`trace
    ensures conn.After(old(conn.store.trace), old(conn.store.world))
    ensures r.Ok? ==> (conn.store.out, obj) in conn.store.world.written && obj.body == Data(run.local)
    ensures r.Ok? ==> Describes(r.value, obj) && HasIdentity(obj.version, obj.etag)
    ensures r.Ok? ==> (conn.faulty <==> r.value.location != conn.store.out)
    ensures r.Err? ==> conn.faulty
    ensures r.Err? ==>
      match r.error
      case SnapshotPrecondition => conn.last.Err? && (conn.last.error.Precondition? || conn.last.error.NotModified?)
      case DownloadObject => conn.last.Err? && conn.last.error.Other?
      case InvalidSnapshot(v) => v.Identity? && conn.last.Ok?
      case _ => false
  {
    var out := conn.store.out;
    NonBlankNonEmpty(named.version);
    NonBlankNonEmpty(named.etag);
    var head;
    head, obj := conn.GetOpts(Request(out, None, m.outputVersion, if m.outputVersion.None? then m.outputETag else None));
    if head.Err? {
      return Err(ReadError(head.error)), obj;
    }
    var captured := head.value.meta;
    var matches := if m.outputVersion.Some? then captured.version == m.outputVersion else captured.etag == m.outputETag;
    if !matches {
      return Err(InvalidSnapshot(Identity)), obj;
    }
    SameObject(conn.store, out, obj, named);
    r := Ok(captured);
  }

  /** Reads the output that a decoded record of version 2 identifies. */
  method ReadIdentified(conn: Connection, file: LocalFile, m: CompletionManifest) returns (r: Result<CompletionManifest, IoError>)
    requires conn.store.Valid() && !file.failed && !conn.faulty
    requires TrueRecord(conn.store.world, conn.store.out, m)
    modifies conn, conn.store`world, conn.store`trace, file
    ensures conn.After(old(conn.store.trace), old(conn.store.world))
    ensures r.Ok? ==> r.value == m && ReadOf(conn.store.world, conn.store.out, m, file.bytes)
    ensures r.Ok? <==> !conn.faulty && !file.failed
  {
    var out := conn.store.out;
    ghost var run := conn.store.world.runs[m.runId.value];
    ghost var named :| (out, named) in conn.store.world.written && Names(m, run, out, named);
    var head, obj := HeadIdentified(conn, m, run, named);
    if head.Err? {
      return Err(head.error);
    }
    var created := file.Create();
    if !created {
      return Err(OpenOutput);
    }
    var downloaded := DownloadCaptured(conn, out, file, head.value, obj);
    if downloaded.Err? {
      return Err(downloaded.error);
    }
    return Ok(m);
  }

  lemma NonBlankNonEmpty(s: Option<string>)
    ensures NonBlank(s).Some? ==> NonEmpty(s) == NonBlank(s) == s
  {
  }
}
