/** Object metadata, output identities and the completion record that binds them. */
module Manifest {
  import opened Text
  import opened Wrappers

  newtype byte = b: int | 0 <= b < 256
  type Bytes = seq<byte>
  type Key = string

  const U64_MAX: nat := 0xFFFF_FFFF_FFFF_FFFF

  /** Unsigned 64-bit quantities. */
  type u64 = n: nat | n <= U64_MAX

  function SaturatingAdd(a: u64, b: u64): u64 {
    if a + b <= U64_MAX then a + b else U64_MAX
  }

  /** A sum that would not fit in 64 bits is the largest number that does. */
  lemma Saturates(a: u64, b: u64)
    ensures SaturatingAdd(a, b) == Min(a + b, 18446744073709551615)
  {
  }

  /** What a store reports about one object. */
  datatype ObjectMeta = ObjectMeta(
    location: Key, size: u64, etag: Option<string>, version: Option<string>, lastModified: string)

  /** A body is plain data or a serialized completion record. */
  datatype Body = Data(bytes: Bytes) | Record(manifest: CompletionManifest)

  datatype CompletionManifest = CompletionManifest(
    schemaVersion: nat,
    inputKey: string,
    inputSize: u64,
    inputETag: Option<string>,
    inputLastModified: string,
    rowCount: nat,
    contentDigest: string,
    runId: Option<string>,
    inputVersion: Option<string>,
    outputKey: Option<string>,
    outputETag: Option<string>,
    outputVersion: Option<string>,
    digestScheme: Option<string>)

  datatype ManifestViolation =
    | OutputKeyMismatch
    | MissingRunId
    | MissingOutputKey
    | MissingOutputIdentity
    | EmptyOutputIdentity
    | MissingDigestScheme

  datatype SnapshotViolation = MissingIdentity | Location | Identity | Size | Range | Length

  datatype IoError =
    | OpenInput
    | OpenOutput
    | DownloadObject
    | UploadObject
    | HeadObject
    | DeleteObject
    | MultipartAbort(source: IoError)
    | WriteManifest
    | ReadManifest
    | InvalidManifest(manifestViolation: ManifestViolation)
    | UnsupportedManifestVersion(version: nat)
    | UnsupportedDigestScheme
    | CompletionIdentityRequired(found: nat)
    | InvalidSnapshot(snapshotViolation: SnapshotViolation)
    | SnapshotPrecondition

  const LEGACY_DIGEST_SCHEME: string := "legacy-ahash-wrapping-sum-v1"

  // ---------- optional text ----------

  /** The text, if there is any that is not blank. */
  function NonBlank(s: Option<string>): Option<string> {
    if s.Some? && !IsBlank(s.value) then s else None
  }

  // ---------- digests in fixed-width hexadecimal ----------

  function HexDigit(d: nat): char
    requires d < 16
  {
    if d < 10 then '0' + d as char else 'a' + (d - 10) as char
  }

  /** `width` lowercase hexadecimal digits of `n`. */
  function Hex(n: nat, width: nat): string {
    if width == 0 then "" else Hex(n / 16, width - 1) + [HexDigit(n % 16)]
  }

  function Pow16(width: nat): nat {
    if width == 0 then 1 else 16 * Pow16(width - 1)
  }

  lemma HexDigitInjective(a: nat, b: nat)
    requires a < 16 && b < 16 && HexDigit(a) == HexDigit(b)
    ensures a == b
  {
  }

  /** Fixed-width digits determine the number they print. */
  lemma {:induction false} HexInjective(a: nat, b: nat, width: nat)
    requires a < Pow16(width) && b < Pow16(width) && Hex(a, width) == Hex(b, width)
    ensures a == b
  {
    if width > 0 {
      var x, y := Hex(a / 16, width - 1), Hex(b / 16, width - 1);
      HexLength(a / 16, width - 1);
      HexLength(b / 16, width - 1);
      assert (x + [HexDigit(a % 16)])[..width - 1] == x && (y + [HexDigit(b % 16)])[..width - 1] == y;
      HexInjective(a / 16, b / 16, width - 1);
      assert Hex(a, width)[width - 1] == HexDigit(a % 16) && Hex(b, width)[width - 1] == HexDigit(b % 16);
      HexDigitInjective(a % 16, b % 16);
    }
  }

  lemma {:induction false} HexLength(n: nat, width: nat)
    ensures |Hex(n, width)| == width
  {
    if width > 0 {
      HexLength(n / 16, width - 1);
    }
  }

  predicate IsHexDigit(c: char) {
    '0' <= c <= '9' || 'a' <= c <= 'f'
  }

  /** The number that lowercase hexadecimal digits spell, the first one weighing most. */
  ghost function ReadHex(s: string): nat
    requires forall i :: 0 <= i < |s| ==> IsHexDigit(s[i])
  {
    if s == "" then 0
    else
      var last := s[|s| - 1];
      assert IsHexDigit(last);
      16 * ReadHex(s[..|s| - 1]) + if last <= '9' then last as nat - 48 else last as nat - 87
  }

  /** A digest's text is sixteen lowercase hexadecimal digits, and reading them gives the digest. */
  lemma {:induction false} HexReadsBack(n: nat, width: nat)
    requires n < Pow16(width)
    ensures |Hex(n, width)| == width && forall i :: 0 <= i < width ==> IsHexDigit(Hex(n, width)[i])
    ensures ReadHex(Hex(n, width)) == n
  {
    if width > 0 {
      HexReadsBack(n / 16, width - 1);
      var before := Hex(n / 16, width - 1);
      assert Hex(n, width)[..width - 1] == before && Hex(n, width)[width - 1] == HexDigit(n % 16);
      assert forall i :: 0 <= i < width - 1 ==> Hex(n, width)[i] == before[i];
    }
  }

  // ---------- building and checking completion records ----------

  function Required(value: Option<string>, violation: ManifestViolation): Result<(), IoError> {
    if NonBlank(value).Some? then Ok(()) else Err(InvalidManifest(violation))
  }

  function Validate(m: CompletionManifest): Result<(), IoError> {
    if m.schemaVersion == 1 then Ok(())
    else if m.schemaVersion != 2 then Err(UnsupportedManifestVersion(m.schemaVersion))
    else if Required(m.runId, MissingRunId).Err? then Required(m.runId, MissingRunId)
    else if Required(m.outputKey, MissingOutputKey).Err? then Required(m.outputKey, MissingOutputKey)
    else if m.outputETag.None? && m.outputVersion.None? then Err(InvalidManifest(MissingOutputIdentity))
    else if (m.outputETag.Some? && IsBlank(m.outputETag.value)) || (m.outputVersion.Some? && IsBlank(m.outputVersion.value))
    then Err(InvalidManifest(EmptyOutputIdentity))
    else if Required(m.digestScheme, MissingDigestScheme).Err? then Required(m.digestScheme, MissingDigestScheme)
    else if m.digestScheme != Some(LEGACY_DIGEST_SCHEME) then Err(UnsupportedDigestScheme)
    else Ok(())
  }

  /** Decodes a stored body; only a supported, valid record is returned. */
  function Decode(body: Body): Result<CompletionManifest, IoError> {
    match body
    case Data(_) => Err(ReadManifest)
    case Record(m) =>
      match Validate(m)
      case Ok(_) => Ok(m)
      case Err(e) => Err(e)
  }

  /** What one pipeline run hands to publication. */
  datatype Run = Run(id: string, local: Bytes, rows: nat, digest: nat, inputKey: Key, inputMeta: ObjectMeta)

  /** The identity of a published output must name the requested object and carry a version or an ETag. */
  function CheckIdentity(key: Key, meta: ObjectMeta): Result<(), IoError> {
    if meta.location != key then Err(InvalidSnapshot(Location))
    else if NonBlank(meta.version).None? && NonBlank(meta.etag).None? then Err(InvalidSnapshot(MissingIdentity))
    else Ok(())
  }

  /** The version-2 record of `run` for the output object described by `meta`. */
  function RecordOf(run: Run, key: Key, meta: ObjectMeta): CompletionManifest {
    CompletionManifest(2, run.inputKey, run.inputMeta.size, run.inputMeta.etag, run.inputMeta.lastModified,
      run.rows, Hex(run.digest, 16), Some(run.id), run.inputMeta.version, Some(key),
      NonBlank(meta.etag), NonBlank(meta.version), Some(LEGACY_DIGEST_SCHEME))
  }

  function NewV2(run: Run, key: Key, meta: ObjectMeta): Result<CompletionManifest, IoError> {
    match CheckIdentity(key, meta)
    case Err(e) => Err(e)
    case Ok(_) =>
      match Validate(RecordOf(run, key, meta))
      case Err(e) => Err(e)
      case Ok(_) => Ok(RecordOf(run, key, meta))
  }

  /** The sibling key under which an output's completion record lives. */
  function KeyFor(output: Key): Key {
    output + ".manifest.json"
  }

  function StagingKey(output: Key, runId: string): Key {
    output + ".staging/" + runId
  }

  /** The keys one output's publication protocol may write. */
  predicate Owned(output: Key, key: Key) {
    key == output || key == KeyFor(output) || output + ".staging/" <= key
  }

  lemma KeysDistinct(output: Key, runId: string)
    ensures KeyFor(output) == output + ".manifest.json" && StagingKey(output, runId) == output + ".staging/" + runId
    ensures output != KeyFor(output) && StagingKey(output, runId) != output
    ensures StagingKey(output, runId) != KeyFor(output)
    ensures Owned(output, StagingKey(output, runId))
  {
    var n := |output|;
    assert KeyFor(output)[n + 1] == 'm';
    assert StagingKey(output, runId)[n + 1] == 's';
    assert StagingKey(output, runId)[..|output + ".staging/"|] == output + ".staging/";
  }

  /** A run with a proper identifier always yields a valid record once the identity checks pass and the key is not blank. */
  lemma NewV2Succeeds(run: Run, key: Key, meta: ObjectMeta)
    ensures NewV2(run, key, meta).Ok? <==> CheckIdentity(key, meta).Ok? && !IsBlank(run.id) && !IsBlank(key)
    ensures NewV2(run, key, meta).Ok? ==> Decode(Record(NewV2(run, key, meta).value)) == Ok(RecordOf(run, key, meta))
    ensures CheckIdentity(key, meta).Ok? <==> meta.location == key && (Named(meta.version) || Named(meta.etag))
    ensures meta.location != key ==> NewV2(run, key, meta) == Err(InvalidSnapshot(Location))
    ensures meta.location == key && !Named(meta.version) && !Named(meta.etag) ==>
      NewV2(run, key, meta) == Err(InvalidSnapshot(MissingIdentity))
    ensures CheckIdentity(key, meta).Ok? && IsBlank(run.id) ==> NewV2(run, key, meta) == Err(InvalidManifest(MissingRunId))
    ensures CheckIdentity(key, meta).Ok? && !IsBlank(run.id) && IsBlank(key) ==>
      NewV2(run, key, meta) == Err(InvalidManifest(MissingOutputKey))
  {
    assert !IsWhitespace(LEGACY_DIGEST_SCHEME[0]);
  }

  /** There is text, and not only whitespace. */
  ghost predicate Named(s: Option<string>) {
    s.Some? && !IsBlank(s.value)
  }

  /** A version-2 record names a run and an output, carries a usable identity and the one known digest scheme. */
  ghost predicate Usable(m: CompletionManifest) {
    && Named(m.runId) && Named(m.outputKey) && m.digestScheme == Some("legacy-ahash-wrapping-sum-v1")
    && (m.outputETag.Some? || m.outputVersion.Some?)
    && (m.outputETag.Some? ==> Named(m.outputETag)) && (m.outputVersion.Some? ==> Named(m.outputVersion))
  }

  /** Everything wrong with a record of version 2, in the order in which it is looked for. */
  ghost function Faults(m: CompletionManifest): seq<IoError> {
    (if Named(m.runId) then [] else [InvalidManifest(MissingRunId)])
    + (if Named(m.outputKey) then [] else [InvalidManifest(MissingOutputKey)])
    + (if m.outputETag.Some? || m.outputVersion.Some? then [] else [InvalidManifest(MissingOutputIdentity)])
    + (if m.outputETag.Some? && !Named(m.outputETag) then [InvalidManifest(EmptyOutputIdentity)] else [])
    + (if m.outputVersion.Some? && !Named(m.outputVersion) then [InvalidManifest(EmptyOutputIdentity)] else [])
    + (if Named(m.digestScheme) then [] else [InvalidManifest(MissingDigestScheme)])
    + (if m.digestScheme == Some("legacy-ahash-wrapping-sum-v1") then [] else [UnsupportedDigestScheme])
  }

  /** A record that is refused is refused for its first fault, or for its version. */
  lemma ValidationReportsFirst(m: CompletionManifest)
    ensures m.schemaVersion == 1 ==> Validate(m).Ok?
    ensures m.schemaVersion != 1 && m.schemaVersion != 2 ==> Validate(m) == Err(UnsupportedManifestVersion(m.schemaVersion))
    ensures m.schemaVersion == 2 ==> (Validate(m).Ok? <==> Faults(m) == [])
    ensures m.schemaVersion == 2 && Faults(m) != [] ==> Validate(m) == Err(Faults(m)[0])
  {
    assert !IsWhitespace(LEGACY_DIGEST_SCHEME[0]);
  }

  /** A stored body is read as a record exactly when it is one of version 1, or a usable one of version 2. */
  lemma DecodesExactly(body: Body, m: CompletionManifest)
    ensures Decode(body) == Ok(m) <==> body == Record(m) && (m.schemaVersion == 1 || (m.schemaVersion == 2 && Usable(m)))
    ensures body.Data? ==> Decode(body) == Err(ReadManifest)
    ensures body == Record(m) && Validate(m).Err? ==> Decode(body) == Err(Validate(m).error)
  {
    assert !IsWhitespace(LEGACY_DIGEST_SCHEME[0]);
  }
}
