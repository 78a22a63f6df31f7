/** Single-writer remote publication with owned staging and explicit recovery states. */
module Publication {
  import opened Wrappers
  import opened Manifest
  import opened PublicationProtocol
  import opened RemoteStore
  import opened Text

  datatype Phase =
    | UploadStaging
    | InvalidateCompletion
    | PublishOutput
    | CaptureOutputIdentity
    | WriteCompletion
    | CleanupStaging

  datatype Outcome =
    | OutcomeNotPublished
    | OutcomePublicationUnknown
    | OutcomePublishedWithoutCompletion
    | OutcomeCompletionUnknown
    | OutcomeCompletedCleanupUnknown

  datatype RemotePublicationError = RemotePublicationError(
    phase: Phase, outcome: Outcome, stagingKey: Key, source: IoError, cleanupError: Option<IoError>)

  datatype PublishError = Local(source: IoError) | Remote(error: RemotePublicationError)

  /** Which outcomes each failed phase may report. */
  predicate Agrees(phase: Phase, outcome: Outcome) {
    match phase
    case UploadStaging | InvalidateCompletion => outcome.OutcomeNotPublished?
    case PublishOutput => outcome.OutcomePublicationUnknown?
    case CaptureOutputIdentity => outcome.OutcomePublishedWithoutCompletion?
    case WriteCompletion => outcome.OutcomePublishedWithoutCompletion? || outcome.OutcomeCompletionUnknown?
    case CleanupStaging => outcome.OutcomeCompletedCleanupUnknown?
  }

  /** What the store is known to hold after each reported outcome. */
  ghost predicate Told(before: World, w: World, out: Key, run: Run, r: Result<(), PublishError>) {
    match r
    case Ok(_) => RecordNames(w, out, run) && StagingKey(out, run.id) !in w.objects
    case Err(Local(_)) => Get(w.objects, out) == Get(before.objects, out)
    case Err(Remote(e)) =>
      && e.stagingKey == StagingKey(out, run.id)
      && (e.phase != CleanupStaging && e.cleanupError.None? ==> e.stagingKey !in w.objects)
      && match e.outcome
         case OutcomeNotPublished =>
           e.phase in {UploadStaging, InvalidateCompletion} && Get(w.objects, out) == Get(before.objects, out)
         case OutcomePublicationUnknown =>
           e.phase == PublishOutput && NoRecord(w, out) && (Get(w.objects, out) == Get(before.objects, out) || OutputIs(w, out, run))
         case OutcomePublishedWithoutCompletion =>
           e.phase in {CaptureOutputIdentity, WriteCompletion} && NoRecord(w, out) && OutputIs(w, out, run)
         case OutcomeCompletionUnknown =>
           e.phase == WriteCompletion && OutputIs(w, out, run) && (NoRecord(w, out) || RecordNames(w, out, run))
         case OutcomeCompletedCleanupUnknown => e.phase == CleanupStaging && RecordNames(w, out, run)
  }

  /** The outcome reported for the standing the run reached. */
  function OutcomeOf(standing: Standing): Outcome {
    match standing
    case NotPublished => OutcomeNotPublished
    case PublicationUnknown => OutcomePublicationUnknown
    case PublishedWithoutCompletion => OutcomePublishedWithoutCompletion
    case CompletionUnknown => OutcomeCompletionUnknown
    case Completed => OutcomeCompletedCleanupUnknown
  }

  datatype Stopped = Stopped(phase: Phase, standing: Standing, source: IoError)

  // ---------- why a run stops ----------

  /** The identity last captured makes a record of this run. */
  ghost predicate Accepts(described: Option<ObjectMeta>, run: Run, out: Key) {
    described.Some? && NewV2(run, out, described.value).Ok?
  }

  /** The phase stopped at the only call that failed, at an identity it refuses, or at a record it cannot write. */
  ghost predicate Caused(
      phase: Phase, source: IoError, failures: seq<IoError>, described: Option<ObjectMeta>, serializes: bool, run: Run, out: Key)
  {
    match phase
    case UploadStaging | InvalidateCompletion | PublishOutput => failures == [source]
    case CaptureOutputIdentity =>
      failures == [source] || (failures == [] && described.Some? && NewV2(run, out, described.value) == Err(source))
    case WriteCompletion =>
      Accepts(described, run, out) && if serializes then failures == [source] else failures == [] && source == WriteManifest
    case CleanupStaging => Accepts(described, run, out) && serializes && failures == [source]
  }

  /** The errors of the calls made since `before`. */
  ghost function Since(before: seq<IoError>, failures: seq<IoError>): seq<IoError> {
    if |before| <= |failures| then failures[|before|..] else []
  }

  /** Checks, serializes and writes the completion record. `sent` says whether a request was made at all. */
  method PutManifest(store: ObjectStore, manifest: CompletionManifest, key: Key, serializes: bool)
    returns (r: Result<(), IoError>, ghost sent: bool, ghost stored: Option<Object>)
    modifies store`world, store`failures
    ensures sent <==> Validate(manifest).Ok? && serializes
    ensures store.failures == if sent then Noted(old(store.failures), r) else old(store.failures)
    ensures Validate(manifest).Ok? && !serializes ==> r == Err(WriteManifest)
    ensures store.world == Store(old(store.world), key, stored)
    ensures stored.Some? ==> sent && stored.value.body == Record(manifest) && IdentityFits(old(store.world).written, key, stored.value)
    ensures r.Ok? ==> stored.Some?
    ensures r.Err? ==> (sent <==> r.error == UploadObject)
    ensures sent ==> Validate(manifest).Ok?
    ensures Validate(manifest).Err? ==> r == Validate(manifest)
  {
    sent, stored := false, None;
    if Validate(manifest).Err? {
      r := Validate(manifest);
      ValidateNeverUploads(manifest);
    } else if !serializes {
      r := Err(WriteManifest);
    } else {
      r, stored := store.Put(key, Record(manifest));
      sent := true;
    }
  }

  lemma ValidateNeverUploads(m: CompletionManifest)
    ensures Validate(m) != Err(UploadObject)
  {
  }

  /** The run has ended at `phase` and only its staging object is left to remove. */
  ghost predicate StoppedAt(w: World, run: Run, before: Option<Object>, s: Stopped) {
    w.writer == Cleaning(run, before, s.standing) && Agrees(s.phase, OutcomeOf(s.standing)) && s.phase != CleanupStaging
  }

  /** The history grows, and no run begins. */
  ghost predicate Keeps(w: World, w': World) {
    w.written <= w'.written && w'.runs == w.runs
  }

  ghost function NotedStop<T>(failures: seq<IoError>, r: Result<T, Stopped>): seq<IoError> {
    if r.Ok? then failures else failures + [r.error.source]
  }

  method UploadRun(store: ObjectStore, run: Run, before: Option<Object>) returns (r: Result<(), Stopped>)
    requires store.Valid() && store.world.writer == Uploading(run, before)
    modifies store
    ensures store.Valid() && old(store.trace) <= store.trace && Keeps(old(store.world), store.world)
    ensures r.Ok? ==> store.world.writer == Invalidating(run, before)
    ensures r.Err? ==> r.error.phase == UploadStaging && StoppedAt(store.world, run, before, r.error) && r.error.standing.NotPublished?
    ensures store.failures == NotedStop(old(store.failures), r)
  {
    store.Elsewhere();
    var reply, stored := store.UploadFromTemp(StagingKey(store.out, run.id), run.local);
    match reply {
      case Err(e) =>
        store.Enter(Cleaning(run, before, NotPublished), Upload(false, stored));
        r := Err(Stopped(UploadStaging, NotPublished, e));
      case Ok(_) =>
        store.Enter(Invalidating(run, before), Upload(true, stored));
        r := Ok(());
    }
  }

  method InvalidateRecord(store: ObjectStore, run: Run, before: Option<Object>) returns (r: Result<(), Stopped>)
    requires store.Valid() && store.world.writer == Invalidating(run, before)
    modifies store
    ensures store.Valid() && old(store.trace) <= store.trace && Keeps(old(store.world), store.world)
    ensures r.Ok? ==> store.world.writer == Copying(run, before)
    ensures r.Err? ==> r.error.phase == InvalidateCompletion && StoppedAt(store.world, run, before, r.error) && r.error.standing.NotPublished?
    ensures store.failures == NotedStop(old(store.failures), r)
  {
    store.Elsewhere();
    var reply, took := store.DeleteObject(KeyFor(store.out));
    match reply {
      case Err(e) =>
        store.Enter(Cleaning(run, before, NotPublished), Invalidate(false, took));
        r := Err(Stopped(InvalidateCompletion, NotPublished, e));
      case Ok(_) =>
        store.Enter(Copying(run, before), Invalidate(true, took));
        r := Ok(());
    }
  }

  method CopyOutput(store: ObjectStore, run: Run, before: Option<Object>) returns (r: Result<(), Stopped>)
    requires store.Valid() && store.world.writer == Copying(run, before)
    modifies store
    ensures store.Valid() && old(store.trace) <= store.trace && Keeps(old(store.world), store.world)
    ensures r.Ok? ==> store.world.writer == Capturing(run)
    ensures r.Err? ==> r.error.phase == PublishOutput && StoppedAt(store.world, run, before, r.error) && r.error.standing.PublicationUnknown?
    ensures store.failures == NotedStop(old(store.failures), r)
  {
    store.Elsewhere();
    var reply, stored := store.CopyObject(StagingKey(store.out, run.id), store.out);
    match reply {
      case Err(e) =>
        store.Enter(Cleaning(run, before, PublicationUnknown), Copy(false, stored));
        r := Err(Stopped(PublishOutput, PublicationUnknown, e));
      case Ok(_) =>
        store.Enter(Capturing(run), Copy(true, stored));
        r := Ok(());
    }
  }

  method CaptureIdentity(store: ObjectStore, run: Run) returns (r: Result<CompletionManifest, Stopped>)
    requires store.Valid() && store.world.writer == Capturing(run)
    modifies store
    ensures store.Valid() && old(store.trace) <= store.trace && Keeps(old(store.world), store.world)
    ensures r.Ok? ==> store.world.writer == Completing(run, r.value)
    ensures r.Err? ==> r.error.phase == CaptureOutputIdentity && StoppedAt(store.world, run, None, r.error) && r.error.standing.PublishedWithoutCompletion?
    ensures r.Ok? ==> store.failures == old(store.failures) && store.described.Some?
    ensures r.Ok? ==> NewV2(run, store.out, store.described.value) == Ok(r.value)
    ensures r.Err? ==>
      store.failures == old(store.failures) + [r.error.source] ||
      (store.failures == old(store.failures) && store.described.Some? &&
       NewV2(run, store.out, store.described.value) == Err(r.error.source))
  {
    store.Elsewhere();
    var reply := store.HeadObject(store.out);
    match reply {
      case Err(e) =>
        store.Enter(Cleaning(run, None, PublishedWithoutCompletion), Capture(None));
        r := Err(Stopped(CaptureOutputIdentity, PublishedWithoutCompletion, e));
      case Ok(meta) =>
        var manifest := NewV2(run, store.out, meta);
        match manifest {
          case Err(e) =>
            store.Enter(Cleaning(run, None, PublishedWithoutCompletion), Capture(Some(meta)));
            r := Err(Stopped(CaptureOutputIdentity, PublishedWithoutCompletion, e));
          case Ok(m) =>
            store.Enter(Completing(run, m), Capture(Some(meta)));
            r := Ok(m);
        }
    }
  }

  method CompleteRecord(store: ObjectStore, run: Run, manifest: CompletionManifest, serializes: bool) returns (r: Result<(), Stopped>)
    requires store.Valid() && store.world.writer == Completing(run, manifest)
    modifies store
    ensures store.Valid() && old(store.trace) <= store.trace && Keeps(old(store.world), store.world)
    ensures r.Ok? ==> store.world.writer == Cleaning(run, None, Completed)
    ensures r.Err? ==> r.error.phase == WriteCompletion && StoppedAt(store.world, run, None, r.error)
    ensures r.Err? ==> r.error.standing == if r.error.source == UploadObject then CompletionUnknown else PublishedWithoutCompletion
    ensures r.Err? && Validate(manifest).Err? ==> r.error.source == Validate(manifest).error && r.error.source != UploadObject
    ensures Validate(manifest).Ok? && serializes ==> store.failures == NotedStop(old(store.failures), r)
    ensures Validate(manifest).Ok? && !serializes ==> store.failures == old(store.failures) && r.Err? && r.error.source == WriteManifest
    ensures store.described == old(store.described)
  {
    store.Elsewhere();
    var reply, sent, stored := PutManifest(store, manifest, KeyFor(store.out), serializes);
    match reply {
      case Err(e) =>
        var standing := if e == UploadObject then CompletionUnknown else PublishedWithoutCompletion;
        store.Enter(Cleaning(run, None, standing), Complete(sent, false, stored));
        r := Err(Stopped(WriteCompletion, standing, e));
      case Ok(_) =>
        store.Enter(Cleaning(run, None, Completed), Complete(sent, true, stored));
        r := Ok(());
    }
  }

  /** Stages, invalidates and copies: the output is in place, or nothing else was tried. */
  method PlaceOutput(store: ObjectStore, run: Run, before: Option<Object>) returns (r: Result<(), Stopped>)
    requires store.Valid() && store.world.writer == Uploading(run, before)
    modifies store
    ensures store.Valid() && old(store.trace) <= store.trace && Keeps(old(store.world), store.world)
    ensures r.Ok? ==> store.world.writer == Capturing(run)
    ensures r.Err? ==> StoppedAt(store.world, run, before, r.error)
    ensures r.Err? ==> r.error.standing.NotPublished? || r.error.standing.PublicationUnknown?
    ensures store.failures == NotedStop(old(store.failures), r)
  {
    r := UploadRun(store, run, before);
    if r.Err? {
      return;
    }
    r := InvalidateRecord(store, run, before);
    if r.Err? {
      return;
    }
    r := CopyOutput(store, run, before);
  }

  /** Captures the output's identity and writes the record. */
  method RecordOutput(store: ObjectStore, run: Run, serializes: bool) returns (r: Result<(), Stopped>)
    requires store.Valid() && store.world.writer == Capturing(run)
    modifies store
    ensures store.Valid() && old(store.trace) <= store.trace && Keeps(old(store.world), store.world)
    ensures r.Ok? ==> store.world.writer == Cleaning(run, None, Completed)
    ensures r.Err? ==> StoppedAt(store.world, run, None, r.error)
    ensures r.Err? ==> r.error.standing.PublishedWithoutCompletion? || r.error.standing.CompletionUnknown?
    ensures r.Ok? ==> store.failures == old(store.failures) && Accepts(store.described, run, store.out) && serializes
    ensures r.Err? ==>
      old(store.failures) <= store.failures &&
      Caused(r.error.phase, r.error.source, Since(old(store.failures), store.failures), store.described, serializes, run, store.out)
  {
    var manifest := CaptureIdentity(store, run);
    match manifest {
      case Err(s) => r := Err(s);
      case Ok(m) => r := CompleteRecord(store, run, m, serializes);
    }
  }

  /**
   * Runs the protocol up to, and not including, the removal of the staging object. Every store call is
   * one step of the protocol's state machine.
   */
  method Advance(store: ObjectStore, run: Run, serializes: bool) returns (r: Result<(), Stopped>)
    requires store.Valid() && store.world.writer == Uploading(run, Get(store.world.objects, store.out))
    modifies store
    ensures store.Valid() && old(store.trace) <= store.trace && Keeps(old(store.world), store.world)
    ensures r.Ok? ==> store.world.writer == Cleaning(run, None, Completed)
    ensures r.Err? ==> store.world.writer.Cleaning? && StoppedAt(store.world, run, store.world.writer.before, r.error)
    ensures r.Err? && (r.error.standing.NotPublished? || r.error.standing.PublicationUnknown?) ==>
      store.world.writer.before == Get(old(store.world.objects), store.out)
    ensures r.Ok? ==> store.failures == old(store.failures) && Accepts(store.described, run, store.out) && serializes
    ensures r.Err? ==>
      old(store.failures) <= store.failures &&
      Caused(r.error.phase, r.error.source, Since(old(store.failures), store.failures), store.described, serializes, run, store.out)
  {
    r := PlaceOutput(store, run, Get(store.world.objects, store.out));
    if r.Ok? {
      r := RecordOutput(store, run, serializes);
    }
  }

  /** Attempts to remove the run's own staging object; nothing else is touched. */
  method RemoveStaging(store: ObjectStore, run: Run) returns (r: Result<(), IoError>)
    requires store.Valid() && store.world.writer.Cleaning? && store.world.writer.run == run
    modifies store
    ensures store.Valid() && old(store.trace) <= store.trace && Keeps(old(store.world), store.world) && store.world.writer.Idle?
    ensures Honest(store.world, store.out, run, old(store.world.writer.before), old(store.world.writer.standing))
    ensures r.Ok? ==> StagingKey(store.out, run.id) !in store.world.objects
    ensures store.failures == Noted(old(store.failures), r) && store.described == old(store.described)
  {
    store.ValidInv();
    KeysDistinct(store.out, run.id);
    ghost var w := store.world;
    ghost var took;
    r, took := store.DeleteObject(StagingKey(store.out, run.id));
    store.Enter(Idle, Cleanup(took));
    AsideKeeps(w, store.out, store.world);
  }

  /** A failed publication names what failed in it, and then in its cleanup, and nothing else did. */
  ghost predicate Accounted(
      e: RemotePublicationError, failures: seq<IoError>, described: Option<ObjectMeta>, serializes: bool, run: Run, out: Key)
  {
    match e.cleanupError
    case None => Caused(e.phase, e.source, failures, described, serializes, run, out)
    case Some(c) =>
      failures != [] && failures[|failures| - 1] == c && e.phase != CleanupStaging &&
      Caused(e.phase, e.source, failures[..|failures| - 1], described, serializes, run, out)
  }

  /** Runs a run that has begun to its end, and removes its staging object whatever happened. */
  method Execute(store: ObjectStore, run: Run, serializes: bool) returns (r: Result<(), RemotePublicationError>)
    requires store.Valid() && store.world.writer == Uploading(run, Get(store.world.objects, store.out))
    modifies store
    ensures store.Valid() && old(store.trace) <= store.trace && Keeps(old(store.world), store.world) && store.world.writer.Idle?
    ensures Told(old(store.world), store.world, store.out, run, Outer(r))
    ensures r.Ok? ==> store.failures == old(store.failures) && Accepts(store.described, run, store.out) && serializes
    ensures r.Err? ==>
      old(store.failures) <= store.failures &&
      Accounted(r.error, Since(old(store.failures), store.failures), store.described, serializes, run, store.out)
  {
    var stopped := Advance(store, run, serializes);
    ghost var phase, failures := store.world.writer, store.failures;
    var removed := RemoveStaging(store, run);
    r := Reported(stopped, removed, StagingKey(store.out, run.id));
    ReportedIsTold(old(store.world), store.world, store.out, run, stopped, phase, removed);
    ReportedIsAccounted(old(store.failures), failures, stopped, removed, store.described, serializes, run, store.out);
  }

  /** What is reported when the run stopped as `stopped` says and its cleanup answered `removed`. */
  function Reported(stopped: Result<(), Stopped>, removed: Result<(), IoError>, staging: Key): Result<(), RemotePublicationError> {
    match stopped
    case Err(s) =>
      var cleanup := if removed.Err? then Some(removed.error) else None;
      Err(RemotePublicationError(s.phase, OutcomeOf(s.standing), staging, s.source, cleanup))
    case Ok(_) =>
      if removed.Ok? then Ok(())
      else Err(RemotePublicationError(CleanupStaging, OutcomeCompletedCleanupUnknown, staging, removed.error, None))
  }

  lemma ReportedIsTold(
      before: World, w: World, out: Key, run: Run, stopped: Result<(), Stopped>, phase: Writer, removed: Result<(), IoError>)
    requires phase.Cleaning? && Honest(w, out, run, phase.before, phase.standing)
    requires stopped.Ok? ==> phase.standing.Completed?
    requires stopped.Err? ==> phase.standing == stopped.error.standing && stopped.error.phase != CleanupStaging
    requires stopped.Err? ==> Agrees(stopped.error.phase, OutcomeOf(phase.standing))
    requires phase.standing.NotPublished? || phase.standing.PublicationUnknown? ==> phase.before == Get(before.objects, out)
    requires removed.Ok? ==> StagingKey(out, run.id) !in w.objects
    ensures Told(before, w, out, run, Outer(Reported(stopped, removed, StagingKey(out, run.id))))
  {
  }

  lemma ReportedIsAccounted(
      before: seq<IoError>, failures: seq<IoError>, stopped: Result<(), Stopped>, removed: Result<(), IoError>,
      described: Option<ObjectMeta>, serializes: bool, run: Run, out: Key)
    requires before <= failures
    requires stopped.Ok? ==> failures == before && Accepts(described, run, out) && serializes
    requires stopped.Err? ==>
      stopped.error.phase != CleanupStaging &&
      Caused(stopped.error.phase, stopped.error.source, Since(before, failures), described, serializes, run, out)
    ensures var r, all := Reported(stopped, removed, StagingKey(out, run.id)), Noted(failures, removed);
      && (r.Ok? ==> all == before && Accepts(described, run, out) && serializes)
      && (r.Err? ==> before <= all && Accounted(r.error, Since(before, all), described, serializes, run, out))
  {
    SinceNoted(before, failures, removed);
    if stopped.Err? && removed.Err? {
      assert (Since(before, failures) + [removed.error])[..|Since(before, failures)|] == Since(before, failures);
    }
  }

  function Outer(r: Result<(), RemotePublicationError>): Result<(), PublishError> {
    if r.Ok? then Ok(()) else Err(Remote(r.error))
  }

  /**
   * Publishes one local output under a run identifier; a blank or used one stands for a staging name that could
   * not be had. The store moves only along steps of the protocol, the result says truthfully what is known about
   * output and completion, and publication succeeds exactly when no call fails, the record serializes and the
   * captured metadata identify the output.
   */
  method Publish(
      store: ObjectStore, id: string, local: Bytes, inputKey: Key, inputMeta: ObjectMeta, rows: nat, digest: nat, serializes: bool)
    returns (r: Result<(), PublishError>, ghost run: Run)
    requires store.Valid() && store.world.writer.Idle?
    modifies store
    ensures store.Valid() && old(store.trace) <= store.trace && store.world.writer.Idle?
    ensures run == Run(id, local, rows, digest, inputKey, inputMeta)
    ensures Told(old(store.world), store.world, store.out, run, r)
    ensures old(store.world.written) <= store.world.written
    ensures store.world.runs == old(store.world.runs) ||
      (run.id !in old(store.world.runs) && store.world.runs == old(store.world.runs)[run.id := run])
    ensures r.Err? && r.error.Local? <==> !Enabled(old(store.world), store.out, Begin(run))
    ensures r.Ok? <==>
      && Enabled(old(store.world), store.out, Begin(run)) && serializes && store.failures == old(store.failures)
      && Accepts(store.described, run, store.out)
    ensures r.Err? && r.error.Remote? ==>
      old(store.failures) <= store.failures &&
      Accounted(r.error.error, Since(old(store.failures), store.failures), store.described, serializes, run, store.out)
  {
    var current := Run(id, local, rows, digest, inputKey, inputMeta);
    run := current;
    if !Enabled(store.world, store.out, Begin(current)) {
      return Err(Local(OpenOutput)), current;
    }
    store.Take(Begin(current));
    var executed := Execute(store, current, serializes);
    r := Outer(executed);
  }

  lemma SinceNoted<T>(before: seq<IoError>, failures: seq<IoError>, r: Result<T, IoError>)
    requires before <= failures
    ensures before <= Noted(failures, r)
    ensures Since(before, Noted(failures, r)) == if r.Ok? then Since(before, failures) else Since(before, failures) + [r.error]
  {
  }

  /** The captured metadata make a record exactly when they identify the output and the keys are not blank. */
  lemma AcceptsWhen(described: ObjectMeta, run: Run, out: Key)
    ensures Accepts(Some(described), run, out) <==> CheckIdentity(out, described).Ok? && !IsBlank(run.id) && !IsBlank(out)
  {
    NewV2Succeeds(run, out, described);
  }
}
