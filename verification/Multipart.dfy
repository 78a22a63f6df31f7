/** Streaming one file into a multipart upload: short reads, unordered part completion, one abort on failure. */
module Multipart {
  import opened Wrappers
  import opened Manifest

  const CHUNK_BYTES: nat := 8 * 1024 * 1024

  const MAX_UPLOAD_PARTS: nat := 2

  type Cause = string

  datatype UploadFailure = ReadFailed(cause: Cause) | StoreFailed(cause: Cause) | AbortFailed(source: UploadFailure, abort: Cause)

  datatype ReadResult = Filled(n: nat) | Interrupted | Failed(cause: Cause)

  /** A local file that may return short reads, be interrupted finitely often, or fail. */
  class Reader {
    const data: Bytes
    var pos: nat
    var interruptions: nat
    /** The last read error, if there was one. */
    ghost var fault: Option<Cause>

    ghost predicate Valid()
      reads this
    {
      pos <= |data|
    }

    constructor (data: Bytes, interruptions: nat)
      ensures Valid() && this.data == data && pos == 0 && fault == None
    {
      fault := None;
      this.data := data;
      this.pos := 0;
      this.interruptions := interruptions;
    }

    /** Reads into the free end of the buffer; zero bytes mean the end of the file. */
    method Read(buffer: array<byte>, filled: nat) returns (r: ReadResult)
      requires Valid() && filled < buffer.Length
      modifies this, buffer
      ensures Valid() && pos >= old(pos) && interruptions <= old(interruptions)
      ensures buffer[..filled] == old(buffer[..filled])
      ensures r.Filled? ==> filled + r.n <= buffer.Length && pos == old(pos) + r.n &&
                            buffer[filled..filled + r.n] == data[old(pos)..pos]
      ensures r.Filled? && r.n == 0 ==> pos == |data|
      ensures !r.Filled? ==> pos == old(pos)
      ensures r.Interrupted? ==> interruptions < old(interruptions)
      ensures fault == if r.Failed? then Some(r.cause) else old(fault)
    {
      var n: nat, failed: bool, cause: Cause := *, *, *;
      if failed {
        fault := Some(cause);
        return Failed(cause);
      }
      var interrupted: bool := *;
      if interrupted && interruptions > 0 {
        interruptions := interruptions - 1;
        return Interrupted;
      }
      n := if pos == |data| then 0 else Min(Min(n + 1, |data| - pos), buffer.Length - filled);
      for k := 0 to n
        modifies buffer
        invariant buffer[..filled] == old(buffer[..filled])
        invariant buffer[filled..filled + k] == data[pos..pos + k]
      {
        buffer[filled + k] := data[pos + k];
      }
      pos := pos + n;
      return Filled(n);
    }
  }

  // ---------- the upload ----------

  /** What is asked of the upload, and how it answers. */
  datatype Event =
    | PutPart(bytes: Bytes)
    | PartDone(index: nat, failure: Option<Cause>)
    | PartsDropped
    | CompleteCalled(failure: Option<Cause>)
    | AbortCalled(failure: Option<Cause>)

  /** The parts submitted, in part order. */
  ghost function Submitted(events: seq<Event>): seq<Bytes> {
    if events == [] then []
    else
      var e, before := events[|events| - 1], Submitted(events[..|events| - 1]);
      if e.PutPart? then before + [e.bytes] else before
  }

  /** The parts in flight: submitted, not yet done and not dropped. */
  ghost function Outstanding(events: seq<Event>): set<nat> {
    if events == [] then {}
    else
      var before := events[..|events| - 1];
      InFlight(Outstanding(before), |Submitted(before)|, events[|events| - 1])
  }

  ghost function InFlight(parts: set<nat>, next: nat, e: Event): set<nat> {
    match e
    case PutPart(_) => parts + {next}
    case PartDone(i, _) => parts - {i}
    case PartsDropped => {}
    case _ => parts
  }

  /** No part has failed so far. */
  ghost predicate NoFailure(events: seq<Event>) {
    forall k :: 0 <= k < |events| ==> events[k].PartDone? ==> events[k].failure.None?
  }

  ghost predicate Untouched(events: seq<Event>) {
    forall k :: 0 <= k < |events| ==> events[k].PutPart? || events[k].PartDone?
  }

  /** At every moment at most this many parts were in flight. */
  ghost predicate Bounded(events: seq<Event>) {
    forall k :: 0 <= k <= |events| ==> |Outstanding(events[..k])| <= 2
  }

  function Concat(parts: seq<Bytes>): Bytes {
    if parts == [] then [] else Concat(parts[..|parts| - 1]) + parts[|parts| - 1]
  }

  /** Every part is a full chunk, except that the last may be shorter; none is empty. */
  ghost predicate WellCut(parts: seq<Bytes>) {
    (forall k :: 0 <= k < |parts| - 1 ==> |parts[k]| == 8388608) &&
    (parts != [] ==> 0 < |parts[|parts| - 1]| <= 8388608)
  }

  lemma OneMore(events: seq<Event>, e: Event)
    ensures Submitted(events + [e]) == if e.PutPart? then Submitted(events) + [e.bytes] else Submitted(events)
    ensures Outstanding(events + [e]) == InFlight(Outstanding(events), |Submitted(events)|, e)
    ensures Bounded(events) ==> |Outstanding(events)| <= MAX_UPLOAD_PARTS
    ensures Bounded(events) && |Outstanding(events + [e])| <= MAX_UPLOAD_PARTS ==> Bounded(events + [e])
  {
    var more := events + [e];
    assert more[..|events|] == events && events[..|events|] == events;
    if Bounded(events) && |Outstanding(more)| <= MAX_UPLOAD_PARTS {
      forall k | 0 <= k <= |more| ensures |Outstanding(more[..k])| <= MAX_UPLOAD_PARTS {
        if k <= |events| {
          assert more[..k] == events[..k];
        } else {
          assert more[..k] == more;
        }
      }
    }
  }

  lemma {:induction false} OutstandingWereSubmitted(events: seq<Event>)
    ensures forall i :: i in Outstanding(events) ==> i < |Submitted(events)|
  {
    if events != [] {
      OutstandingWereSubmitted(events[..|events| - 1]);
    }
  }

  /** A multipart upload whose parts complete in any order. */
  class Upload {
    ghost var events: seq<Event>
    var pending: set<nat>
    var parts: seq<Bytes>
    /** The object that the store has put together, once a complete has taken effect. */
    var assembled: Option<Bytes>

    ghost predicate Valid()
      reads this
    {
      pending == Outstanding(events) && parts == Submitted(events) && Bounded(events)
    }

    constructor ()
      ensures Valid() && events == [] && assembled == None
    {
      events, pending, parts, assembled := [], {}, [], None;
    }

    method PutPart(bytes: Bytes)
      requires Valid() && |pending| < MAX_UPLOAD_PARTS
      modifies this`events, this`pending, this`parts
      ensures Valid() && events == old(events) + [Event.PutPart(bytes)]
    {
      OutstandingWereSubmitted(events);
      OneMore(events, Event.PutPart(bytes));
      events := events + [Event.PutPart(bytes)];
      pending := pending + {|parts|};
      parts := parts + [bytes];
    }

    /** Waits for whichever part in flight completes next. */
    method NextDone() returns (failure: Option<Cause>)
      requires Valid() && pending != {}
      modifies this`events, this`pending
      ensures Valid()
      ensures exists i: nat :: i in old(pending) && pending == old(pending) - {i} && events == old(events) + [PartDone(i, failure)]
    {
      failure := *;
      var i :| i in pending;
      OneMore(events, PartDone(i, failure));
      events := events + [PartDone(i, failure)];
      pending := pending - {i};
    }

    method DropParts()
      requires Valid()
      modifies this`events, this`pending
      ensures Valid() && events == old(events) + [PartsDropped] && pending == {}
    {
      OneMore(events, PartsDropped);
      events := events + [PartsDropped];
      pending := {};
    }

    /** Asks the store to put the parts together; an error leaves open whether it did. */
    method Complete() returns (failure: Option<Cause>)
      requires Valid()
      modifies this`events, this`assembled
      ensures Valid() && events == old(events) + [CompleteCalled(failure)]
      ensures failure.None? ==> assembled.Some?
      ensures assembled == old(assembled) || assembled == Some(Concat(parts))
    {
      var acts: bool := *;
      var lost: Option<Cause> := *;
      failure := lost;
      if acts {
        assembled := Some(Concat(parts));
      } else if failure.None? {
        failure := Some("");
      }
      OneMore(events, CompleteCalled(failure));
      events := events + [CompleteCalled(failure)];
    }

    method Abort() returns (failure: Option<Cause>)
      requires Valid()
      modifies this`events
      ensures Valid() && events == old(events) + [AbortCalled(failure)]
    {
      failure := *;
      OneMore(events, AbortCalled(failure));
      events := events + [AbortCalled(failure)];
    }
  }

  // ---------- the streaming loop ----------

  lemma Adjacent(data: Bytes, i: nat, j: nat, k: nat)
    requires i <= j <= k <= |data|
    ensures data[i..j] + data[j..k] == data[i..k]
  {
  }

  /** Fills the buffer as far as the file reaches, whatever the sizes of the individual reads. */
  method FillBuffer(reader: Reader, buffer: array<byte>) returns (r: Result<nat, UploadFailure>)
    requires reader.Valid() && buffer.Length == CHUNK_BYTES
    modifies reader, buffer
    ensures reader.Valid() && reader.pos >= old(reader.pos)
    ensures r.Ok? ==> r.value <= CHUNK_BYTES && reader.pos == old(reader.pos) + r.value
    ensures r.Ok? ==> buffer[..r.value] == reader.data[old(reader.pos)..reader.pos]
    ensures r.Ok? && r.value < CHUNK_BYTES ==> reader.pos == |reader.data|
    ensures r.Err? ==> r.error.ReadFailed? && reader.fault == Some(r.error.cause)
    ensures r.Ok? ==> reader.fault == old(reader.fault)
  {
    var filled := 0;
    while filled < buffer.Length
      invariant reader.Valid() && filled <= buffer.Length && reader.pos == old(reader.pos) + filled
      invariant buffer[..filled] == reader.data[old(reader.pos)..reader.pos]
      invariant reader.fault == old(reader.fault)
      decreases buffer.Length - filled, reader.interruptions
    {
      ghost var before := reader.pos;
      var read := reader.Read(buffer, filled);
      match read {
        case Filled(n) =>
          if n == 0 {
            break;
          }
          Adjacent(reader.data, old(reader.pos), before, reader.pos);
          assert buffer[..filled + n] == buffer[..filled] + buffer[filled..filled + n];
          filled := filled + n;
        case Interrupted =>
        case Failed(cause) => return Err(ReadFailed(cause));
      }
    }
    return Ok(filled);
  }

  /** What has been sent is exactly `read`, in well-cut parts, and nothing but parts has been asked for. */
  ghost predicate Sent(events: seq<Event>, read: Bytes) {
    Untouched(events) && Concat(Submitted(events)) == read && WellCut(Submitted(events))
  }

  /** And no part has failed. */
  ghost predicate Progress(events: seq<Event>, read: Bytes) {
    Sent(events, read) && NoFailure(events)
  }

  ghost predicate CompleteAt(events: seq<Event>, k: nat) {
    k < |events| && events[k].CompleteCalled?
  }

  /**
   * However it ended: a well-cut beginning of the file was submitted, and complete was asked for at most
   * once, when every part of the whole file was done.
   */
  ghost predicate Proper(events: seq<Event>, file: Bytes) {
    && WellCut(Submitted(events)) && Concat(Submitted(events)) <= file
    && (forall j: nat, k: nat :: CompleteAt(events, j) && CompleteAt(events, k) ==> j == k)
    && forall k: nat :: CompleteAt(events, k) ==> Progress(events[..k], file) && Outstanding(events[..k]) == {}
  }

  /** Nothing has been dropped, completed or aborted. */
  ghost predicate NotFinished(events: seq<Event>) {
    forall k :: 0 <= k < |events| ==> !events[k].AbortCalled? && !events[k].PartsDropped? && events[k] != CompleteCalled(None)
  }

  lemma SentIsProper(events: seq<Event>, read: Bytes, file: Bytes)
    requires Sent(events, read) && read <= file
    ensures Proper(events, file) && NotFinished(events)
  {
    forall k: nat ensures !CompleteAt(events, k) {
      if k < |events| {
        assert events[k].PutPart? || events[k].PartDone?;
      }
    }
  }

  lemma CompletedIsProper(events: seq<Event>, file: Bytes, failure: Option<Cause>)
    requires Progress(events, file) && Outstanding(events) == {}
    ensures Proper(events + [CompleteCalled(failure)], file)
  {
    OneMore(events, CompleteCalled(failure));
    var more := events + [CompleteCalled(failure)];
    forall k: nat ensures CompleteAt(more, k) ==> k == |events| {
      if k < |events| {
        assert more[k] == events[k];
      }
    }
    assert more[..|events|] == events;
  }

  /** Neither dropping the parts nor an abort changes that. */
  lemma ClosingIsProper(events: seq<Event>, e: Event, file: Bytes)
    requires Proper(events, file) && (e.PartsDropped? || e.AbortCalled?)
    ensures Proper(events + [e], file)
  {
    OneMore(events, e);
    var more := events + [e];
    forall k: nat | CompleteAt(more, k) ensures CompleteAt(events, k) && more[..k] == events[..k] {
      assert k < |events|;
    }
  }

  /** The upload ended well: the whole file in order, complete called once after every part was done. */
  ghost predicate Uploaded(events: seq<Event>, file: Bytes) {
    events != [] && events[|events| - 1] == CompleteCalled(None) &&
    var before := events[..|events| - 1];
    Progress(before, file) && Outstanding(before) == {}
  }

  /** The upload failed: parts were dropped, then abort was called once and nothing after it. */
  ghost predicate AbortedOnce(events: seq<Event>, abort: Option<Cause>) {
    |events| >= 2 && events[|events| - 1] == AbortCalled(abort) && events[|events| - 2] == PartsDropped &&
    forall k :: 0 <= k < |events| - 2 ==> !events[k].AbortCalled? && !events[k].PartsDropped? && events[k] != CompleteCalled(None)
  }

  ghost predicate AllFull(parts: seq<Bytes>) {
    forall k :: 0 <= k < |parts| ==> |parts[k]| == 8388608
  }

  lemma PutProgress(events: seq<Event>, read: Bytes, part: Bytes)
    requires Progress(events, read) && AllFull(Submitted(events)) && 0 < |part| <= CHUNK_BYTES
    ensures Progress(events + [PutPart(part)], read + part)
    ensures |part| == CHUNK_BYTES ==> AllFull(Submitted(events + [PutPart(part)]))
  {
    OneMore(events, PutPart(part));
    var parts := Submitted(events);
    assert (parts + [part])[..|parts|] == parts;
  }

  lemma DoneProgress(events: seq<Event>, read: Bytes, i: nat, failure: Option<Cause>)
    requires Progress(events, read)
    ensures Sent(events + [PartDone(i, failure)], read)
    ensures failure.None? ==> Progress(events + [PartDone(i, failure)], read)
    ensures Submitted(events + [PartDone(i, failure)]) == Submitted(events)
  {
    OneMore(events, PartDone(i, failure));
  }

  /** The reported cause is one a read, a part or the completion really failed with. */
  ghost predicate Justified(e: UploadFailure, events: seq<Event>, fault: Option<Cause>) {
    match e
    case ReadFailed(cause) => fault == Some(cause)
    case StoreFailed(cause) => exists k :: 0 <= k < |events| && FailsWith(events[k], cause)
    case AbortFailed(source, _) => false
  }

  ghost predicate FailsWith(e: Event, cause: Cause) {
    (e.PartDone? || e.CompleteCalled?) && e.failure == Some(cause)
  }

  /** Waits for one part in flight; an error there is the upload's. */
  method AwaitPart(upload: Upload, ghost read: Bytes) returns (failure: Option<UploadFailure>)
    requires upload.Valid() && upload.pending != {} && Progress(upload.events, read)
    modifies upload`events, upload`pending
    ensures upload.Valid() && Sent(upload.events, read)
    ensures failure.None? ==> Progress(upload.events, read) && |upload.pending| == |old(upload.pending)| - 1
    ensures failure.None? ==> Submitted(upload.events) == old(Submitted(upload.events))
    ensures failure.Some? ==> Justified(failure.value, upload.events, None)
  {
    ghost var events, pending := upload.events, upload.pending;
    var cause := upload.NextDone();
    ghost var i: nat :| upload.events == events + [PartDone(i, cause)] && upload.pending == pending - {i} && i in pending;
    DoneProgress(events, read, i, cause);
    if cause.Some? {
      assert FailsWith(upload.events[|events|], cause.value);
      return Some(StoreFailed(cause.value));
    }
    return None;
  }

  /** At the limit, waits until one part is done before another may be submitted. */
  method MakeRoom(upload: Upload, ghost read: Bytes) returns (failure: Option<UploadFailure>)
    requires upload.Valid() && Progress(upload.events, read)
    modifies upload`events, upload`pending
    ensures upload.Valid() && Sent(upload.events, read)
    ensures failure.None? ==> Progress(upload.events, read) && |upload.pending| < MAX_UPLOAD_PARTS
    ensures failure.None? ==> Submitted(upload.events) == old(Submitted(upload.events))
    ensures failure.Some? ==> Justified(failure.value, upload.events, None)
  {
    failure := None;
    if |upload.pending| == MAX_UPLOAD_PARTS {
      failure := AwaitPart(upload, read);
    } else {
      OneMore(upload.events, PartsDropped);
    }
  }

  /** One round: make room, fill a buffer, submit it. */
  method SendChunk(reader: Reader, upload: Upload) returns (r: Result<bool, UploadFailure>)
    requires reader.Valid() && upload.Valid()
    requires Progress(upload.events, reader.data[..reader.pos]) && AllFull(Submitted(upload.events))
    modifies reader, upload`events, upload`pending, upload`parts
    ensures reader.Valid() && upload.Valid() && Proper(upload.events, reader.data) && NotFinished(upload.events)
    ensures r.Ok? ==> Progress(upload.events, reader.data[..reader.pos])
    ensures r.Ok? && r.value ==> AllFull(Submitted(upload.events)) && reader.pos > old(reader.pos)
    ensures r.Ok? && !r.value ==> reader.pos == |reader.data|
    ensures r.Err? ==> Justified(r.error, upload.events, reader.fault)
    ensures r.Ok? ==> reader.fault == old(reader.fault)
  {
    ghost var start := reader.pos;
    ghost var read := reader.data[..start];
    var failure := MakeRoom(upload, read);
    SentIsProper(upload.events, read, reader.data);
    if failure.Some? {
      return Err(failure.value);
    }
    var buffer := new byte[CHUNK_BYTES];
    var filled := FillBuffer(reader, buffer);
    if filled.Err? {
      return Err(filled.error);
    }
    Adjacent(reader.data, 0, start, reader.pos);
    if filled.value != 0 {
      var part := buffer[..filled.value];
      PutProgress(upload.events, read, part);
      upload.PutPart(part);
    }
    SentIsProper(upload.events, reader.data[..reader.pos], reader.data);
    return Ok(filled.value == CHUNK_BYTES);
  }

  /** Waits for every part still in flight. */
  method Drain(upload: Upload, ghost read: Bytes) returns (failure: Option<UploadFailure>)
    requires upload.Valid() && Progress(upload.events, read)
    modifies upload`events, upload`pending
    ensures upload.Valid() && Sent(upload.events, read)
    ensures failure.None? ==> Progress(upload.events, read) && upload.pending == {}
    ensures failure.Some? ==> Justified(failure.value, upload.events, None)
  {
    while upload.pending != {}
      invariant upload.Valid() && Progress(upload.events, read)
      decreases |upload.pending|
    {
      failure := AwaitPart(upload, read);
      if failure.Some? {
        return;
      }
    }
    return None;
  }

  /** Sends the file in chunks and waits for all of them. */
  method SendAll(reader: Reader, upload: Upload) returns (failure: Option<UploadFailure>)
    requires reader.Valid() && reader.pos == 0 && upload.Valid() && upload.events == []
    modifies reader, upload`events, upload`pending, upload`parts
    ensures reader.Valid() && upload.Valid() && Proper(upload.events, reader.data) && NotFinished(upload.events)
    ensures failure.None? ==> Progress(upload.events, reader.data) && upload.pending == {} && reader.fault == old(reader.fault)
    ensures failure.Some? ==> Justified(failure.value, upload.events, reader.fault)
  {
    var more := true;
    while more
      invariant reader.Valid() && upload.Valid() && Progress(upload.events, reader.data[..reader.pos])
      invariant reader.fault == old(reader.fault)
      invariant if more then AllFull(Submitted(upload.events)) else reader.pos == |reader.data|
      decreases more, |reader.data| - reader.pos
    {
      var sent := SendChunk(reader, upload);
      if sent.Err? {
        return Some(sent.error);
      }
      more := sent.value;
    }
    assert reader.data[..|reader.data|] == reader.data;
    failure := Drain(upload, reader.data);
    SentIsProper(upload.events, reader.data, reader.data);
  }

  /** The fallible part of the upload, from the first read to complete. */
  method Stream(reader: Reader, upload: Upload) returns (failure: Option<UploadFailure>)
    requires reader.Valid() && reader.pos == 0 && upload.Valid() && upload.events == [] && upload.assembled == None
    modifies reader, upload
    ensures reader.Valid() && upload.Valid() && Proper(upload.events, reader.data)
    ensures failure.None? ==> Uploaded(upload.events, reader.data) && upload.assembled.Some?
    ensures failure.Some? ==> NotFinished(upload.events) && Justified(failure.value, upload.events, reader.fault)
    ensures failure.None? ==> reader.fault == old(reader.fault)
    ensures upload.assembled == None || upload.assembled == Some(reader.data)
  {
    failure := SendAll(reader, upload);
    if failure.Some? {
      return;
    }
    ghost var events := upload.events;
    var cause := upload.Complete();
    CompletedIsProper(events, reader.data, cause);
    assert upload.events[..|upload.events| - 1] == events;
    assert cause.Some? ==> FailsWith(upload.events[|events|], cause.value);
    failure := if cause.Some? then Some(StoreFailed(cause.value)) else None;
  }

  lemma MoreEvents(e: UploadFailure, events: seq<Event>, more: seq<Event>, fault: Option<Cause>)
    requires Justified(e, events, fault)
    ensures Justified(e, events + more, fault)
  {
    if e.StoreFailed? {
      var k :| 0 <= k < |events| && FailsWith(events[k], e.cause);
      assert (events + more)[k] == events[k];
    }
  }

  lemma AbortCloses(sent: seq<Event>, abort: Option<Cause>, file: Bytes)
    requires Proper(sent, file) && NotFinished(sent)
    ensures var all := sent + [PartsDropped] + [AbortCalled(abort)]; Proper(all, file) && AbortedOnce(all, abort)
  {
    ClosingIsProper(sent, PartsDropped, file);
    ClosingIsProper(sent + [PartsDropped], AbortCalled(abort), file);
    var all := sent + [PartsDropped] + [AbortCalled(abort)];
    assert forall k :: 0 <= k < |sent| ==> all[k] == sent[k];
  }

  /**
   * Uploads the rest of the file: on success the parts are the file, in order, and complete followed the
   * last of them; on failure exactly one abort was attempted and the cause is a real one. Either way only a
   * complete upload of the whole file can have produced an object.
   */
  method WriteMultipart(reader: Reader, upload: Upload) returns (r: Result<(), UploadFailure>)
    requires reader.Valid() && reader.pos == 0 && upload.Valid() && upload.events == [] && upload.assembled == None
    modifies reader, upload
    ensures upload.Valid() && Proper(upload.events, reader.data)
    ensures upload.assembled == None || upload.assembled == Some(reader.data)
    ensures r.Ok? ==> upload.assembled.Some?
    ensures r.Ok? ==> exists sent :: upload.events == sent + [PartsDropped] && Uploaded(sent, reader.data)
    ensures r.Err? ==> AbortedOnce(upload.events, if r.error.AbortFailed? then Some(r.error.abort) else None)
    ensures r.Err? ==> Justified(if r.error.AbortFailed? then r.error.source else r.error, upload.events, reader.fault)
    ensures r.Ok? ==> reader.fault == old(reader.fault)
  {
    var failure := Stream(reader, upload);
    ghost var sent := upload.events;
    upload.DropParts();
    ClosingIsProper(sent, PartsDropped, reader.data);
    if failure.None? {
      return Ok(());
    }
    var aborted := upload.Abort();
    AbortCloses(sent, aborted, reader.data);
    MoreEvents(failure.value, sent, [PartsDropped] + [AbortCalled(aborted)], reader.fault);
    assert upload.events == sent + ([PartsDropped] + [AbortCalled(aborted)]);
    return Err(if aborted.Some? then AbortFailed(failure.value, aborted.value) else failure.value);
  }
}
