/**
 * One output key's publication protocol as a state machine: the store's objects, the history of
 * everything stored, and the single writer's phase. Any store call may fail before or after taking
 * effect, and a run may crash between any two steps.
 */
module PublicationProtocol {
  import opened Wrappers
  import opened Manifest
  import opened Text

  /** A stored object with the identity its store assigned. */
  datatype Object = Object(body: Body, etag: Option<string>, version: Option<string>)

  /** What is known about output and completion once a run stops making progress. */
  datatype Standing =
    | NotPublished
    | PublicationUnknown
    | PublishedWithoutCompletion
    | CompletionUnknown
    | Completed

  /** The single writer's position. `before` is the output object when its run began. */
  datatype Writer =
    | Idle
    | Uploading(run: Run, before: Option<Object>)
    | Invalidating(run: Run, before: Option<Object>)
    | Copying(run: Run, before: Option<Object>)
    | Capturing(run: Run)
    | Completing(run: Run, manifest: CompletionManifest)
    | Cleaning(run: Run, before: Option<Object>, standing: Standing)

  datatype World = World(
    objects: map<Key, Object>,
    written: set<(Key, Object)>,
    runs: map<string, Run>,
    writer: Writer)

  /**
   * One atomic step. `ok` is the reply the writer sees; `stored` and `took` say what the call did,
   * whatever the reply.
   */
  datatype Label =
    | Begin(run: Run)
    | Upload(ok: bool, stored: Option<Object>)
    | Invalidate(ok: bool, took: bool)
    | Copy(ok: bool, stored: Option<Object>)
    | Capture(reply: Option<ObjectMeta>)
    | Complete(sent: bool, ok: bool, stored: Option<Object>)
    | Cleanup(took: bool)
    | Crash
    | Foreign(key: Key, stored: Option<Object>)

  // ---------- storage ----------

  /** Both objects carry the same usable version or the same usable ETag. */
  predicate SameIdentity(a: Object, b: Object) {
    || (a.version.Some? && a.version.value != "" && a.version == b.version)
    || (a.etag.Some? && a.etag.value != "" && a.etag == b.etag)
  }

  /** Storing `obj` keeps the rule that an identity determines its bytes. */
  predicate IdentityFits(written: set<(Key, Object)>, key: Key, obj: Object) {
    forall e | e in written :: e.0 == key && SameIdentity(e.1, obj) ==> e.1.body == obj.body
  }

  function Get(objects: map<Key, Object>, key: Key): Option<Object> {
    if key in objects then Some(objects[key]) else None
  }

  /** The world after `stored`, if anything, has been stored under `key`. */
  function Store(w: World, key: Key, stored: Option<Object>): World {
    match stored
    case None => w
    case Some(obj) => w.(objects := w.objects[key := obj], written := w.written + {(key, obj)})
  }

  function Remove(w: World, key: Key): World {
    w.(objects := w.objects - {key})
  }

  /** The metadata tells the truth about the object, whatever location it names. */
  predicate Describes(meta: ObjectMeta, obj: Object) {
    && (obj.body.Data? ==> meta.size == |obj.body.bytes|)
    && meta.etag == obj.etag && meta.version == obj.version
  }

  // ---------- steps ----------

  predicate Enabled(w: World, out: Key, l: Label) {
    match l
    case Begin(run) =>
      && w.writer.Idle? && run.id !in w.runs && !IsBlank(run.id)
      && StagingKey(out, run.id) !in w.objects
      && (forall e | e in w.written :: e.0 != StagingKey(out, run.id))
    case Upload(ok, stored) =>
      && w.writer.Uploading?
      && (ok ==> stored.Some? && stored.value.body == Data(w.writer.run.local))
      && (stored.Some? ==> IdentityFits(w.written, StagingKey(out, w.writer.run.id), stored.value))
    case Invalidate(ok, took) =>
      w.writer.Invalidating? && (ok ==> took)
    case Copy(ok, stored) =>
      && w.writer.Copying? && (ok ==> stored.Some?)
      && (stored.Some? ==>
        && StagingKey(out, w.writer.run.id) in w.objects
        && stored.value.body == w.objects[StagingKey(out, w.writer.run.id)].body
        && IdentityFits(w.written, out, stored.value))
    case Capture(reply) =>
      w.writer.Capturing? && (reply.Some? ==> out in w.objects && Describes(reply.value, w.objects[out]))
    case Complete(sent, ok, stored) =>
      && w.writer.Completing? && (ok ==> stored.Some?) && (stored.Some? ==> sent)
      && (stored.Some? ==>
        stored.value.body == Record(w.writer.manifest) && IdentityFits(w.written, KeyFor(out), stored.value))
    case Cleanup(_) => w.writer.Cleaning?
    case Crash => !w.writer.Idle?
    case Foreign(key, stored) =>
      !Owned(out, key) && (stored.Some? ==> IdentityFits(w.written, key, stored.value))
  }

  /** The writer's next phase. */
  function Advance(w: World, out: Key, l: Label): Writer
    requires Enabled(w, out, l)
  {
    match l
    case Begin(run) => Uploading(run, Get(w.objects, out))
    case Upload(ok, _) =>
      if ok then Invalidating(w.writer.run, w.writer.before)
      else Cleaning(w.writer.run, w.writer.before, NotPublished)
    case Invalidate(ok, _) =>
      if ok then Copying(w.writer.run, w.writer.before)
      else Cleaning(w.writer.run, w.writer.before, NotPublished)
    case Copy(ok, _) =>
      if ok then Capturing(w.writer.run)
      else Cleaning(w.writer.run, w.writer.before, PublicationUnknown)
    case Capture(reply) =>
      (match reply
       case None => Cleaning(w.writer.run, None, PublishedWithoutCompletion)
       case Some(meta) =>
         match NewV2(w.writer.run, out, meta)
         case Err(_) => Cleaning(w.writer.run, None, PublishedWithoutCompletion)
         case Ok(manifest) => Completing(w.writer.run, manifest))
    case Complete(sent, ok, _) =>
      Cleaning(w.writer.run, None,
        if ok then Completed else if sent then CompletionUnknown else PublishedWithoutCompletion)
    case Cleanup(_) => Idle
    case Crash => Idle
    case Foreign(_, _) => w.writer
  }

  /** What the step does to the store. */
  function Effect(w: World, out: Key, l: Label): World
    requires Enabled(w, out, l)
  {
    match l
    case Begin(run) => w.(runs := w.runs[run.id := run])
    case Upload(_, stored) => Store(w, StagingKey(out, w.writer.run.id), stored)
    case Invalidate(_, took) => if took then Remove(w, KeyFor(out)) else w
    case Copy(_, stored) => Store(w, out, stored)
    case Capture(_) => w
    case Complete(_, _, stored) => Store(w, KeyFor(out), stored)
    case Cleanup(took) => if took then Remove(w, StagingKey(out, w.writer.run.id)) else w
    case Crash => w
    case Foreign(key, stored) => if stored.Some? then Store(w, key, stored) else Remove(w, key)
  }

  function Apply(w: World, out: Key, l: Label): World
    requires Enabled(w, out, l)
  {
    Effect(w, out, l).(writer := Advance(w, out, l))
  }

  /** No run has had this identifier, and its staging key was never written. */
  ghost predicate NeverUsed(w: World, out: Key, id: string) {
    !IsBlank(id) && id !in w.runs && StagingKey(out, id) !in w.objects && forall e | e in w.written :: e.0 != StagingKey(out, id)
  }

  /** Any run with an identifier of its own may begin, it may crash in any phase, and any key that is not this output's may change at any time. */
  lemma DisturbancesArePossible(w: World, out: Key, obj: Object, key: Key, run: Run)
    ensures w.writer.Idle? && NeverUsed(w, out, run.id) ==> Enabled(w, out, Begin(run))
    ensures !w.writer.Idle? ==> Enabled(w, out, Crash) && Apply(w, out, Crash) == w.(writer := Idle)
    ensures !Owned(out, key) ==> Enabled(w, out, Foreign(key, None)) && Apply(w, out, Foreign(key, None)) == Remove(w, key)
    ensures !Owned(out, key) && IdentityFits(w.written, key, obj) ==>
      Enabled(w, out, Foreign(key, Some(obj))) && Apply(w, out, Foreign(key, Some(obj))) == Store(w, key, Some(obj))
    ensures Owned(out, key) <==> key == out || key == out + ".manifest.json" || out + ".staging/" <= key
  {
  }

  /** Every call of the writer may fail without effect, fail after taking effect, or succeed. */
  lemma FailuresArePossible(w: World, out: Key, obj: Object)
    ensures w.writer.Uploading? ==> Enabled(w, out, Upload(false, None))
    ensures w.writer.Uploading? && IdentityFits(w.written, StagingKey(out, w.writer.run.id), obj) ==>
      && Enabled(w, out, Upload(false, Some(obj)))
      && (obj.body == Data(w.writer.run.local) ==> Enabled(w, out, Upload(true, Some(obj))))
    ensures w.writer.Invalidating? ==>
      Enabled(w, out, Invalidate(false, false)) && Enabled(w, out, Invalidate(false, true)) && Enabled(w, out, Invalidate(true, true))
    ensures w.writer.Copying? ==> Enabled(w, out, Copy(false, None))
    ensures w.writer.Copying? && IdentityFits(w.written, out, obj) ==>
      var staged := Get(w.objects, StagingKey(out, w.writer.run.id));
      staged.Some? && obj.body == staged.value.body ==>
        Enabled(w, out, Copy(false, Some(obj))) && Enabled(w, out, Copy(true, Some(obj)))
    ensures w.writer.Completing? ==> Enabled(w, out, Complete(true, false, None)) && Enabled(w, out, Complete(false, false, None))
    ensures w.writer.Completing? && obj.body == Record(w.writer.manifest) && IdentityFits(w.written, KeyFor(out), obj) ==>
      Enabled(w, out, Complete(true, false, Some(obj))) && Enabled(w, out, Complete(true, true, Some(obj)))
    ensures w.writer.Cleaning? ==> Enabled(w, out, Cleanup(false)) && Enabled(w, out, Cleanup(true))
  {
  }

  ghost predicate Step(w: World, out: Key, w': World) {
    exists l :: Enabled(w, out, l) && w' == Apply(w, out, l)
  }

  /** Nothing this protocol wrote is there yet; older objects and version-1 records may be. */
  ghost predicate Init(w: World, out: Key) {
    && w.writer.Idle? && w.runs == map[]
    && Consistent(w)
    && (forall e | e in w.written && e.0 == KeyFor(out) :: !IsVersion2(e.1.body))
  }

  ghost predicate IsTrace(trace: seq<World>, out: Key) {
    && |trace| > 0 && Init(trace[0], out)
    && forall i :: 0 <= i < |trace| - 1 ==> Step(trace[i], out, trace[i + 1])
  }

  // ---------- the invariant ----------

  predicate IsVersion2(body: Body) {
    body.Record? && body.manifest.schemaVersion == 2
  }

  /** Visible objects are in the history, where an identity determines its bytes. */
  ghost predicate Consistent(w: World) {
    && (forall k | k in w.objects :: (k, w.objects[k]) in w.written)
    && (forall a, b | a in w.written && b in w.written && a.0 == b.0 && SameIdentity(a.1, b.1) :: a.1.body == b.1.body)
  }

  /** `m` is the completion record of `run` for the output object `obj`, which holds the bytes of that run. */
  ghost predicate Names(m: CompletionManifest, run: Run, out: Key, obj: Object) {
    && obj.body == Data(run.local)
    && m == RecordOf(run, out, ObjectMeta(out, 0, obj.etag, obj.version, ""))
    && (m.outputVersion.Some? || m.outputETag.Some?)
  }

  /** `m` names some object that was stored as the output of the run it identifies. */
  ghost predicate TrueRecord(w: World, out: Key, m: CompletionManifest) {
    && m.runId.Some? && m.runId.value in w.runs
    && exists obj :: (out, obj) in w.written && Names(m, w.runs[m.runId.value], out, obj)
  }

  ghost predicate RecordsTrue(w: World, out: Key) {
    forall e | e in w.written && e.0 == KeyFor(out) && IsVersion2(e.1.body) :: TrueRecord(w, out, e.1.body.manifest)
  }

  ghost predicate NoRecord(w: World, out: Key) {
    KeyFor(out) !in w.objects
  }

  /** The output is this run's, and any record there names it as this run's. */
  ghost predicate OutputIs(w: World, out: Key, run: Run) {
    out in w.objects && w.objects[out].body == Data(run.local)
  }

  ghost predicate RecordNames(w: World, out: Key, run: Run) {
    && OutputIs(w, out, run)
    && KeyFor(out) in w.objects && w.objects[KeyFor(out)].body.Record?
    && Names(w.objects[KeyFor(out)].body.manifest, run, out, w.objects[out])
  }

  /** A version-2 record at the completion key names the object now at the output key. */
  ghost predicate CompletionCurrent(w: World, out: Key) {
    KeyFor(out) in w.objects && IsVersion2(w.objects[KeyFor(out)].body) ==>
      var m := w.objects[KeyFor(out)].body.manifest;
      m.runId.Some? && m.runId.value in w.runs && RecordNames(w, out, w.runs[m.runId.value])
  }

  /** What each reported standing promises. */
  ghost predicate Honest(w: World, out: Key, run: Run, before: Option<Object>, standing: Standing) {
    match standing
    case NotPublished => Get(w.objects, out) == before
    case PublicationUnknown => NoRecord(w, out) && (Get(w.objects, out) == before || OutputIs(w, out, run))
    case PublishedWithoutCompletion => NoRecord(w, out) && OutputIs(w, out, run)
    case CompletionUnknown => OutputIs(w, out, run) && (NoRecord(w, out) || RecordNames(w, out, run))
    case Completed => RecordNames(w, out, run)
  }

  ghost predicate Staged(w: World, out: Key, run: Run) {
    StagingKey(out, run.id) in w.objects && w.objects[StagingKey(out, run.id)].body == Data(run.local)
  }

  ghost predicate KnownRun(w: World, run: Run) {
    run.id in w.runs && w.runs[run.id] == run && !IsBlank(run.id)
  }

  ghost predicate PhaseInv(w: World, out: Key) {
    match w.writer
    case Idle => true
    case Uploading(run, before) => KnownRun(w, run) && Get(w.objects, out) == before
    case Invalidating(run, before) => KnownRun(w, run) && Staged(w, out, run) && Get(w.objects, out) == before
    case Copying(run, before) =>
      KnownRun(w, run) && Staged(w, out, run) && Get(w.objects, out) == before && NoRecord(w, out)
    case Capturing(run) => KnownRun(w, run) && OutputIs(w, out, run) && NoRecord(w, out)
    case Completing(run, m) =>
      KnownRun(w, run) && OutputIs(w, out, run) && NoRecord(w, out) && Names(m, run, out, w.objects[out])
    case Cleaning(run, before, standing) => KnownRun(w, run) && Honest(w, out, run, before, standing)
  }

  ghost predicate Inv(w: World, out: Key) {
    Consistent(w) && RecordsTrue(w, out) && CompletionCurrent(w, out) && PhaseInv(w, out)
  }

  /** Later worlds remember everything earlier ones stored, and every run. */
  ghost predicate Grows(w: World, w': World) {
    && w.written <= w'.written
    && (forall id | id in w.runs :: id in w'.runs && w'.runs[id] == w.runs[id])
  }

  lemma InitInv(w: World, out: Key)
    requires Init(w, out)
    ensures Inv(w, out)
  {
    if KeyFor(out) in w.objects {
      assert (KeyFor(out), w.objects[KeyFor(out)]) in w.written;
    }
  }

  lemma StoreConsistent(w: World, key: Key, stored: Option<Object>)
    requires Consistent(w) && (stored.Some? ==> IdentityFits(w.written, key, stored.value))
    ensures Consistent(Store(w, key, stored))
  {
  }

  /** True records stay true as the history and the runs grow. */
  lemma RecordsGrow(w: World, out: Key, w': World)
    requires RecordsTrue(w, out) && Grows(w, w')
    requires forall e | e in w'.written && e !in w.written && e.0 == KeyFor(out) && IsVersion2(e.1.body) ::
      TrueRecord(w', out, e.1.body.manifest)
    ensures RecordsTrue(w', out)
  {
    forall e | e in w.written && e.0 == KeyFor(out) && IsVersion2(e.1.body)
      ensures TrueRecord(w', out, e.1.body.manifest)
    {
      var m := e.1.body.manifest;
      assert TrueRecord(w, out, m);
      var obj :| (out, obj) in w.written && Names(m, w.runs[m.runId.value], out, obj);
    }
  }

  /** A change that touches neither the output nor its record keeps what is known about both. */
  lemma AsideKeeps(w: World, out: Key, w': World)
    requires RecordsTrue(w, out) && CompletionCurrent(w, out)
    requires Get(w'.objects, out) == Get(w.objects, out) && Get(w'.objects, KeyFor(out)) == Get(w.objects, KeyFor(out))
    requires Grows(w, w') && forall e | e in w'.written && e !in w.written :: e.0 != KeyFor(out)
    ensures RecordsTrue(w', out) && CompletionCurrent(w', out)
    ensures forall run, before, standing :: Honest(w, out, run, before, standing) ==> Honest(w', out, run, before, standing)
  {
    RecordsGrow(w, out, w');
  }

  lemma InvOwnSide(w: World, out: Key, l: Label)
    requires Inv(w, out) && Enabled(w, out, l)
    requires l.Upload? || l.Cleanup?
    ensures Inv(Apply(w, out, l), out)
  {
    var key := StagingKey(out, w.writer.run.id);
    KeysDistinct(out, w.writer.run.id);
    StoreConsistent(w, key, if l.Upload? then l.stored else None);
    AsideKeeps(w, out, Apply(w, out, l));
  }

  lemma InvBeginOrCrash(w: World, out: Key, l: Label)
    requires Inv(w, out) && Enabled(w, out, l) && (l.Begin? || l.Crash?)
    ensures Inv(Apply(w, out, l), out)
  {
    AsideKeeps(w, out, Apply(w, out, l));
  }

  lemma InvForeign(w: World, out: Key, l: Label)
    requires Inv(w, out) && Enabled(w, out, l) && l.Foreign?
    ensures Inv(Apply(w, out, l), out)
  {
    StoreConsistent(w, l.key, l.stored);
    AsideKeeps(w, out, Apply(w, out, l));
    if !w.writer.Idle? {
      KeysDistinct(out, w.writer.run.id);
      assert l.key != StagingKey(out, w.writer.run.id);
    }
  }

  lemma InvInvalidate(w: World, out: Key, l: Label)
    requires Inv(w, out) && Enabled(w, out, l) && l.Invalidate?
    ensures Inv(Apply(w, out, l), out)
  {
    var w' := Apply(w, out, l);
    KeysDistinct(out, w.writer.run.id);
    RecordsGrow(w, out, w');
  }

  lemma InvCopy(w: World, out: Key, l: Label)
    requires Inv(w, out) && Enabled(w, out, l) && l.Copy?
    ensures Inv(Apply(w, out, l), out)
  {
    var w' := Apply(w, out, l);
    KeysDistinct(out, w.writer.run.id);
    StoreConsistent(w, out, l.stored);
    RecordsGrow(w, out, w');
  }

  lemma InvCapture(w: World, out: Key, l: Label)
    requires Inv(w, out) && Enabled(w, out, l) && l.Capture?
    ensures Inv(Apply(w, out, l), out)
  {
    var w' := Apply(w, out, l);
    RecordsGrow(w, out, w');
  }

  lemma InvComplete(w: World, out: Key, l: Label)
    requires Inv(w, out) && Enabled(w, out, l) && l.Complete?
    ensures Inv(Apply(w, out, l), out)
  {
    var run := w.writer.run;
    if l.stored.Some? {
      RecordStored(w, out, run, l.stored.value);
    }
    WriterMoves(Store(w, KeyFor(out), l.stored), out, Advance(w, out, l));
  }

  /** Only the writer's phase depends on where the writer is. */
  lemma WriterMoves(w: World, out: Key, phase: Writer)
    requires Consistent(w) && RecordsTrue(w, out) && CompletionCurrent(w, out)
    requires phase.Cleaning? && KnownRun(w, phase.run) && Honest(w, out, phase.run, phase.before, phase.standing)
    ensures Inv(w.(writer := phase), out)
  {
    RecordsGrow(w, out, w.(writer := phase));
  }

  /** Storing the record of the output that is there makes it the current one. */
  lemma RecordStored(w: World, out: Key, run: Run, obj: Object)
    requires Inv(w, out) && w.writer.Completing? && w.writer.run == run
    requires obj.body == Record(w.writer.manifest) && IdentityFits(w.written, KeyFor(out), obj)
    ensures var w' := Store(w, KeyFor(out), Some(obj));
      Consistent(w') && RecordsTrue(w', out) && CompletionCurrent(w', out) && RecordNames(w', out, run) && KnownRun(w', run)
  {
    var w' := Store(w, KeyFor(out), Some(obj));
    KeysDistinct(out, run.id);
    StoreConsistent(w, KeyFor(out), Some(obj));
    assert (out, w.objects[out]) in w'.written;
    RecordsGrow(w, out, w');
  }

  /** Every step of every run, and of everyone else, keeps the invariant. */
  lemma InvStep(w: World, out: Key, w': World)
    requires Inv(w, out) && Step(w, out, w')
    ensures Inv(w', out)
  {
    var l :| Enabled(w, out, l) && w' == Apply(w, out, l);
    match l
    case Invalidate(_, _) => InvInvalidate(w, out, l);
    case Copy(_, _) => InvCopy(w, out, l);
    case Capture(_) => InvCapture(w, out, l);
    case Complete(_, _, _) => InvComplete(w, out, l);
    case Foreign(_, _) => InvForeign(w, out, l);
    case Upload(_, _) => InvOwnSide(w, out, l);
    case Cleanup(_) => InvOwnSide(w, out, l);
    case _ => InvBeginOrCrash(w, out, l);
  }

  /** Every state of every trace satisfies the invariant. */
  lemma {:induction false} TraceInv(trace: seq<World>, out: Key, i: nat)
    requires IsTrace(trace, out) && i < |trace|
    ensures Inv(trace[i], out)
  {
    if i == 0 {
      InitInv(trace[0], out);
    } else {
      TraceInv(trace, out, i - 1);
      assert Step(trace[i - 1], out, trace[i - 1 + 1]);
      InvStep(trace[i - 1], out, trace[i]);
    }
  }

  // ---------- what a reader may rely on ----------

  lemma StepGrows(w: World, out: Key, l: Label)
    requires Enabled(w, out, l)
    ensures Grows(w, Apply(w, out, l))
  {
  }

  /** No step of the protocol, and no one else, removes the output object. */
  lemma OutputNeverDeleted(w: World, out: Key, w': World)
    requires Step(w, out, w') && out in w.objects
    ensures out in w'.objects
  {
    var l :| Enabled(w, out, l) && w' == Apply(w, out, l);
    if !w.writer.Idle? {
      KeysDistinct(out, w.writer.run.id);
    }
    KeysDistinct(out, "");
    assert Owned(out, out);
  }

  /** After any history of runs, failures and crashes, a completion record names the object at the output key. */
  lemma CompletionAlwaysCurrent(trace: seq<World>, out: Key)
    requires IsTrace(trace, out)
    ensures forall i :: 0 <= i < |trace| ==> CompletionCurrent(trace[i], out)
  {
    forall i | 0 <= i < |trace|
      ensures CompletionCurrent(trace[i], out)
    {
      TraceInv(trace, out, i);
    }
  }
}
