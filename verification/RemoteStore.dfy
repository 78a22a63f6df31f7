/**
 * The store as its callers see it: calls that may fail before or after taking effect, and other
 * parties whose steps come between calls.
 */
module RemoteStore {
  import opened Wrappers
  import opened Manifest
  import opened PublicationProtocol
  import M = Multipart

  /** How a failed streamed upload is reported. */
  function UploadError(failure: M.UploadFailure): IoError {
    match failure
    case ReadFailed(_) => OpenInput
    case StoreFailed(_) => UploadObject
    case AbortFailed(source, _) => MultipartAbort(UploadError(source))
  }

  /** An unreadable file, a refused request, or a failed abort after either. */
  lemma UploadErrorKind(failure: M.UploadFailure)
    ensures failure.ReadFailed? ==> UploadError(failure) == OpenInput
    ensures failure.StoreFailed? ==> UploadError(failure) == UploadObject
    ensures failure.AbortFailed? ==> UploadError(failure) == MultipartAbort(UploadError(failure.source))
  {
  }

  /** The errors seen, once one more call has answered. */
  ghost function Noted<T>(failures: seq<IoError>, r: Result<T, IoError>): seq<IoError> {
    if r.Ok? then failures else failures + [r.error]
  }

  class ObjectStore {
    /** The output key whose protocol is followed. */
    const out: Key
    var world: World
    /** Every world so far, one protocol step apart. */
    ghost var trace: seq<World>
    /** The errors replied so far, and the last metadata replied. */
    ghost var failures: seq<IoError>
    ghost var described: Option<ObjectMeta>

    ghost predicate Valid()
      reads this
    {
      IsTrace(trace, out) && Last() == world
    }

    ghost function Last(): World
      requires IsTrace(trace, out)
      reads this
    {
      trace[|trace| - 1]
    }

    constructor (out: Key, world: World)
      requires Init(world, out)
      ensures Valid() && this.out == out && this.world == world && trace == [world]
      ensures failures == [] && described == None
    {
      failures, described := [], None;
      this.out := out;
      this.world := world;
      trace := [world];
    }

    lemma ValidInv()
      requires Valid()
      ensures Inv(world, out)
    {
      TraceInv(trace, out, |trace| - 1);
    }

    /** Closes one protocol step: the store has changed as `l` says, and the writer moves on. */
    method Enter(phase: Writer, ghost l: Label)
      requires IsTrace(trace, out) && Enabled(Last(), out, l)
      requires world == Effect(Last(), out, l) && phase == Advance(Last(), out, l)
      modifies this`world, this`trace
      ensures Valid() && trace == old(trace) + [Apply(old(Last()), out, l)]
      ensures world == old(world).(writer := phase)
    {
      world := world.(writer := phase);
      ghost var before := Last();
      assert Step(before, out, world);
      trace := trace + [world];
    }

    /** One whole step of anyone. */
    method Take(l: Label)
      requires Valid() && Enabled(world, out, l)
      modifies this`world, this`trace
      ensures Valid() && old(trace) <= trace && world == Apply(old(world), out, l)
    {
      ghost var before := world;
      world := Apply(world, out, l);
      assert Step(before, out, world);
      trace := trace + [world];
    }

    /** Any number of steps of anyone: runs, failures, crashes, new runs. */
    method Interfere()
      requires Valid()
      modifies this`world, this`trace
      ensures Valid() && old(trace) <= trace && Grows(old(world), world)
    {
      var steps: nat := *;
      while steps > 0
        invariant Valid() && old(trace) <= trace && Grows(old(world), world)
      {
        var l: Label := *;
        if Enabled(world, out, l) {
          StepGrows(world, out, l);
          Take(l);
        }
        steps := steps - 1;
      }
    }

    /** Any number of steps of parties other than this output's writer. */
    method Elsewhere()
      requires Valid()
      modifies this`world, this`trace
      ensures Valid() && old(trace) <= trace && Aside(old(world), world)
    {
      var steps: nat := *;
      while steps > 0
        invariant Valid() && old(trace) <= trace && Aside(old(world), world)
      {
        var l: Label := *;
        if l.Foreign? && Enabled(world, out, l) {
          StepGrows(world, out, l);
          Take(l);
        }
        steps := steps - 1;
      }
    }

    /** Nothing the protocol of this output owns has changed. */
    ghost predicate Aside(w: World, w': World) {
      && Grows(w, w') && w'.runs == w.runs && w'.writer == w.writer
      && forall key :: Owned(out, key) ==> Get(w'.objects, key) == Get(w.objects, key)
    }

    /** An unconditional write: an error leaves open whether it took effect. */
    method Put(key: Key, body: Body) returns (r: Result<(), IoError>, ghost stored: Option<Object>)
      modifies this`world, this`failures
      ensures failures == Noted(old(failures), r)
      ensures world == Store(old(world), key, stored)
      ensures stored.Some? ==> stored.value.body == body && IdentityFits(old(world).written, key, stored.value)
      ensures r.Ok? ==> stored.Some?
      ensures r.Err? ==> r.error == UploadObject
    {
      var candidate: Object := *;
      var lost: bool := *;
      if candidate.body == body && IdentityFits(world.written, key, candidate) {
        world := Store(world, key, Some(candidate));
        stored := Some(candidate);
        r := if lost then Err(UploadObject) else Ok(());
      } else {
        stored := None;
        r := Err(UploadObject);
      }
      failures := Noted(failures, r);
    }

    /**
     * A streamed upload of a local file. Success means the object holds the whole file; a failed upload
     * has left nothing new under its key, or the whole file all the same.
     */
    method UploadFromTemp(key: Key, local: Bytes) returns (r: Result<(), IoError>, ghost stored: Option<Object>)
      modifies this`world, this`failures
      ensures failures == Noted(old(failures), r)
      ensures world == Store(old(world), key, stored)
      ensures stored.Some? ==> stored.value.body == Data(local) && IdentityFits(old(world).written, key, stored.value)
      ensures r.Ok? ==> stored.Some?
      ensures r.Err? ==> r.error == OpenInput || r.error == UploadObject || r.error.MultipartAbort?
    {
      stored := None;
      var readable: bool, started: bool, interruptions: nat := *, *, *;
      if !readable {
        failures := failures + [OpenInput];
        return Err(OpenInput), stored;
      }
      var etag: Option<string>, version: Option<string> := *, *;
      if !started || !IdentityFits(world.written, key, Object(Data(local), etag, version)) {
        failures := failures + [UploadObject];
        return Err(UploadObject), stored;
      }
      var reader := new M.Reader(local, interruptions);
      var upload := new M.Upload();
      var sent := M.WriteMultipart(reader, upload);
      if upload.assembled.Some? {
        var candidate := Object(Data(upload.assembled.value), etag, version);
        world := Store(world, key, Some(candidate));
        stored := Some(candidate);
      }
      r := if sent.Ok? then Ok(()) else Err(UploadError(sent.error));
      failures := Noted(failures, r);
    }

    /** A server-side copy, which is one write of the destination. */
    method CopyObject(from: Key, to: Key) returns (r: Result<(), IoError>, ghost stored: Option<Object>)
      modifies this`world, this`failures
      ensures failures == Noted(old(failures), r)
      ensures world == Store(old(world), to, stored)
      ensures stored.Some? ==>
        && from in old(world).objects && stored.value.body == old(world).objects[from].body
        && IdentityFits(old(world).written, to, stored.value)
      ensures r.Ok? ==> stored.Some?
    {
      stored := None;
      r := Err(UploadObject);
      if from in world.objects {
        r, stored := Put(to, world.objects[from].body);
      } else {
        failures := failures + [UploadObject];
      }
    }

    /** A delete; a key that is already absent counts as deleted. */
    method DeleteObject(key: Key) returns (r: Result<(), IoError>, ghost took: bool)
      modifies this`world, this`failures
      ensures failures == Noted(old(failures), r)
      ensures world == if took then Remove(old(world), key) else old(world)
      ensures r.Ok? ==> took
    {
      var acts: bool := *;
      var lost: bool := *;
      took := acts;
      if acts {
        world := Remove(world, key);
      }
      r := if acts && !lost then Ok(()) else Err(IoError.DeleteObject);
      failures := Noted(failures, r);
    }

    /** Reads metadata. It describes the visible object, though it may name any location. */
    method HeadObject(key: Key) returns (r: Result<ObjectMeta, IoError>)
      modifies this`failures, this`described
      ensures failures == Noted(old(failures), r)
      ensures described == if r.Ok? then Some(r.value) else old(described)
      ensures r.Ok? ==> key in world.objects && Describes(r.value, world.objects[key])
      ensures r.Err? ==> r.error == IoError.HeadObject
    {
      var meta: ObjectMeta := *;
      if key in world.objects && Describes(meta, world.objects[key]) {
        r := Ok(meta);
        described := Some(meta);
      } else {
        r := Err(IoError.HeadObject);
      }
      failures := Noted(failures, r);
    }
  }
}
