# Data pipeline contracts: a verified model

This project models three connected parts of a Rust data-pipeline workspace and proves properties of them.

* **Publication and reading.** A single writer per output key stages a file, invalidates the old completion
  record, copies, captures the output's identity, writes a version-2 record and cleans up, while readers
  download in ranges. `PublicationProtocol` is the state machine of the store and the writer: any call may
  fail before or after it takes effect, and any run may crash between two steps. `RemoteStore`,
  `Publication` and `CompletedRead` are the code, whose every store call is one step of that machine, with
  anyone else's steps allowed between. `BoundedProtocol`, `BoundedLaws`, `BoundedCauses` and `BoundedPipeline` treat the two
  threads, the bounded channel (capacity zero is a rendezvous), local publication and the canceller in the
  same way; `Cancellation` does so for the token; `Multipart` is the streaming upload that staging uses;
  `RemotePipeline` puts download, local run and publication together, and follows the bytes from the input
  object that a record identifies to the output that a reader gets.
* **Schema compatibility.** `Shapes`, `Comparison` and `Policies` model the comparer: three traversals that
  fill a bounded array of differences, the unbounded list they abbreviate and the relation they decide.
  `DiffMeaning` says exactly which differences two shapes have; `PolicyLaws`, `ExactBijection` and
  `BackwardLaws` state what kind of relations the eight policies are.
* **Declarations and physical columns.** `ArrowSchema`, `ArrowLaws` and `ArrowFaults` model the partial mapping
  from shapes to Arrow fields, its domain, range, inverse and errors; `Columns`, `Validation` and `ValidationLaws` model arrays
  as validity, offsets and children, and prove the validator correct against logical values;
  `ContractPipeline` is the streaming loop that skips its last scan; `Codegen` goes from schemas back to
  declarations and `CodegenLaws` says what those declare; `NestedTransform`, `Ingest`, `TypeText`, `TypeGrammar` and `TypePrinting` treat the nested
  column transform, the two ingest loops and the type-name parser.

What is assumed of the outside world: a store reply is labelled with the metadata of the object it comes
from, and an identity (a version or an ETag) determines its bytes; one writer runs per output key; run
identifiers are fresh; a failed call has no later delayed effect. Readers do not rely on a store honouring
the version and If-Match conditions they send (section 13.1.1 of RFC 9110): a reply that ignored them is
refused by the checks that follow. Clocks, randomness, file systems, callbacks, hashing, CSV, JSON and
Parquet are parameters or nondeterministic choices.

Four properties turned out to hold only under a condition, and the code is modelled as it is:

* Backward is not transitive (`BackwardLaws.BackwardNotTransitive`); `BackwardLaws.BackwardComposesWhen`
  says exactly when it composes, `BackwardLaws.TightComposes` gives a condition on the two declarations
  alone, and `BackwardLaws.DualityCondition` says exactly when reading it backwards is Forward.
* A `cancel` that has returned does not mean that every registered control is cancelled
  (`Cancellation.TwoCancelsMayRace`): it is a guarantee exactly when no other `cancel` is still in progress
  (`Cancellation.GuaranteeCondition`), so over all schedules with a given number of cancels exactly when
  there is at most one (`Cancellation.CancelsGuarantee`).
* Generating declarations from a schema and mapping them back returns the schema exactly when its names are
  good (`CodegenLaws.RegenerateRoundTrip`, for any names the surrounding module already has). Two structs can
  get one name: beside `a_b` and `aB` also a member called `__`, the items of a list `a` beside a member
  `a_item`, or members at different depths. A struct called `Option`, `Vec` or like a primitive hides a type
  the schema needs, one called `str` hides what the derived connector needs, and members called `gen` or `_`
  pass the generator and are refused by the compiler (`CodegenLaws.HidingGenerated`,
  `CodegenLaws.TakenGenerated`, `CodegenLaws.WordsGenerated`).
* A member named by a Rust keyword passes the generator's own check of names and fails when the program is
  rendered (`CodegenLaws.ProgramExists`).

## Model

| member | source | states |
|---|---|---|
| `PublicationProtocol.InvStep` | crates/pipeline/src/publication.rs:116-195 | every step of the writer, of a crash and of other parties keeps: identities determine bytes, every version-2 record ever stored is true of the run it names, a visible record names the visible output, and the writer's phase is honest |
| `PublicationProtocol.TraceInv` | crates/pipeline/src/publication.rs:116-195 | that invariant in every state of every history of runs, failures and crashes |
| `PublicationProtocol.CompletionAlwaysCurrent` | crates/pipeline/src/publication.rs:140-181 | after any history, a version-2 record at the completion key names the object now at the output key, with that run's bytes |
| `PublicationProtocol.OutputNeverDeleted` | crates/pipeline/src/publication.rs:146-150 | no step removes the object at the output key |
| `PublicationProtocol.DisturbancesArePossible` | crates/pipeline/src/publication.rs:116-195 | a run whose identifier was never used may begin, it may crash in any phase, and any key that is not this output's may change at any time |
| `PublicationProtocol.FailuresArePossible` | crates/pipeline/src/publication.rs:140-195 | every call may fail without effect, fail after taking effect, or succeed |
| `Publication.Publish` | crates/pipeline/src/publication.rs:116-195 | every store call is a step of the protocol, and each result tells the truth: not published means output unchanged, published without completion means this run's output and no record, success and unknown cleanup mean both present; it succeeds exactly when the run can begin, no call fails, the record serializes and the captured metadata identify the output, and a failure names the one call that failed, and the failed cleanup |
| `Publication.Execute` | crates/pipeline/src/publication.rs:140-195 | a run that has begun ends with its staging object's removal tried, and its result is truthful and accounts for every failed call |
| `Publication.AcceptsWhen` | crates/pipeline/src/manifest.rs:293-316 | captured metadata make a record exactly when they identify the output and run and output are not blank |
| `Publication.Advance` | crates/pipeline/src/publication.rs:140-181 | the run stops in the phase and standing the failing call determines |
| `Publication.PlaceOutput` | crates/pipeline/src/publication.rs:141-148 | stages, invalidates and copies in that order; a failure is the one of the call it stopped at |
| `Publication.RecordOutput` | crates/pipeline/src/publication.rs:149-179 | captures and completes in that order; a failure is that of a call, of the identity or of serialization |
| `Publication.UploadRun` | crates/pipeline/src/publication.rs:141-142 | a failed staging upload leaves output and record alone |
| `Publication.InvalidateRecord` | crates/pipeline/src/publication.rs:143-144 | the old record is gone before the copy starts, or nothing was published |
| `Publication.CopyOutput` | crates/pipeline/src/publication.rs:145-148 | a failed copy leaves publication unknown |
| `Publication.CaptureIdentity` | crates/pipeline/src/publication.rs:149-171 | the record to be written is for the output object captured, or the run ends without completion |
| `Publication.CompleteRecord` | crates/pipeline/src/publication.rs:172-179 | completion is unknown exactly when the store answered the record with an error; any other failure leaves the output without completion |
| `Publication.PutManifest` | crates/pipeline/src/object_store_io.rs:461-474 | only a valid record is sent, an invalid one returns its violation, and an error other than a store error means nothing was sent |
| `Publication.RemoveStaging` | crates/pipeline/src/publication.rs:182-194 | cleanup touches the run's own key only and keeps what was known |
| `RemoteStore.ObjectStore.CopyObject` | crates/pipeline/src/object_store_io.rs:489-498 | the destination receives the source's body or nothing, whatever the reply |
| `RemoteStore.ObjectStore.DeleteObject` | crates/pipeline/src/object_store_io.rs:476-487 | an absent key counts as deleted; an error leaves open whether the delete happened |
| `RemoteStore.ObjectStore.HeadObject` | crates/pipeline/src/object_store_io.rs:444-452 | metadata describes the visible object |
| `RemoteStore.ObjectStore.UploadFromTemp` | crates/pipeline/src/object_store_io.rs:351-372 | success means the object holds the whole file; a failed upload has left nothing new under its key, or the whole file |
| `RemoteStore.UploadErrorKind` | crates/pipeline/src/object_store_io.rs:351-436 | an upload error is an unreadable file, a refused request, or a failed abort after either |
| `CompletedRead.DownloadCompletedOutput` | crates/pipeline/src/object_store_io.rs:256-338 | in every interleaving with publishing runs, a successful read holds the complete bytes of the one output whose row count and digest the returned record carries; a version-2 record is read back unless a reply or the file fails |
| `CompletedRead.HeadIdentified` | crates/pipeline/src/object_store_io.rs:291-328 | the metadata captured describe an object with the recorded run's bytes, whatever is at the output key by now |
| `CompletedRead.ReadIdentified` | crates/pipeline/src/object_store_io.rs:291-336 | the output a version-2 record identifies is delivered exactly when every reply conforms and the file works |
| `CompletedRead.DownloadCaptured` | crates/pipeline/src/object_store_io.rs:142-243 | the ranges tile exactly the captured object, whatever happens to the key meanwhile; success exactly when the metadata name the key and an identity, every reply conforms and the file works |
| `CompletedRead.FetchRange` | crates/pipeline/src/object_store_io.rs:161-239 | an accepted range is that range of the captured object, it is accepted exactly when the reply conforms to the request and the file works, and an error names what is wrong with the reply or the file |
| `CompletedRead.CopyBody` | crates/pipeline/src/object_store_io.rs:209-238 | a body is accepted exactly when it is unbroken, has the expected length and can be written |
| `CompletedRead.DownloadToTemp` | crates/pipeline/src/object_store_io.rs:118-137 | a successful download is all of one object that was stored under the key; without faults it succeeds exactly when that object has an identity |
| `CompletedRead.Connection.GetOpts` | crates/pipeline/src/object_store_io.rs:161-184 | a reply may come from any object ever stored under the key and may ignore the request; the connection remembers whether it did |
| `CompletedRead.RepliesArePossible` | crates/pipeline/src/object_store_io.rs:161-184 | a reply about an object may name any location and any range, and its body may stop anywhere, broken or not |
| `Manifest.HexInjective` | crates/pipeline/src/manifest.rs:320-341 | the fixed-width text of a digest determines the digest |
| `Manifest.HexReadsBack` | crates/pipeline/src/manifest.rs:320-341 | a digest's text is lowercase hexadecimal digits, and reading them gives the digest |
| `Manifest.NewV2Succeeds` | crates/pipeline/src/manifest.rs:293-316 | a version-2 record is built exactly when the metadata name the object and an identity and run and key are not blank, it then decodes to itself, and otherwise the first missing thing is the error |
| `Manifest.DecodesExactly` | crates/pipeline/src/manifest.rs:244-290 | a stored body is read as a record exactly when it is one of version 1 or a usable one of version 2 |
| `Manifest.ValidationReportsFirst` | crates/pipeline/src/manifest.rs:253-290 | a record that is refused is refused for its version or for its first fault |
| `Manifest.KeysDistinct` | crates/pipeline/src/manifest.rs:346-348 | record and staging keys are the output key with a fixed suffix, and never coincide with it or with each other |
| `BoundedProtocol.StepInv` | crates/pipeline/src/bounded.rs:275-460 | every step of producer, consumer and canceller keeps the channel, producer, consumer and output invariants |
| `BoundedProtocol.CutGrows` | crates/pipeline/src/bounded.rs:294-313 | each parsed record joins the open chunk or completes it, losing and reordering nothing |
| `BoundedProtocol.CutComplete` | crates/pipeline/src/bounded.rs:309-319 | at the end of the input what was sent is every chunk of every row |
| `BoundedProtocol.PrepareMeaning` | crates/pipeline/src/bounded.rs:347-357 | the transform is applied first, and its result is checked and is what is written; an error is the transform's at that index or the check's on its result |
| `BoundedLaws.AllOrNothing` | crates/pipeline/src/bounded.rs:383-460 | in every schedule the final path shows the old content or, for the whole, fully parsed input in order, each chunk built, transformed and checked |
| `BoundedLaws.ResultIsHonest` | crates/pipeline/src/staging.rs:70-81 | a finished run published exactly when it succeeded or reported uncertain durability |
| `BoundedLaws.CancelledBeforeDecision` | crates/pipeline/src/bounded.rs:455-458 | a cancellation before the last check can never lead to publication |
| `BoundedLaws.MemoryBound` | crates/pipeline/src/bounded.rs:271-275 | at most the channel capacity is queued, with one batch held on each side, and the open chunk is shorter than a batch |
| `BoundedLaws.NeverStuck` | crates/pipeline/src/bounded.rs:321-328 | for every capacity, in every reachable state that is not final some thread can move |
| `BoundedLaws.StepLowersRank` | crates/pipeline/src/bounded.rs:275-381 | every step lowers the rank |
| `BoundedLaws.RunsEnd` | crates/pipeline/src/bounded.rs:437-442 | every schedule is finite, bounded by the number of records |
| `BoundedLaws.HealthyRunPublishes` | crates/pipeline/src/bounded.rs:405-460 | without cancellation or failures every finished schedule has published |
| `BoundedLaws.TuningIsInvisible` | crates/pipeline/src/bounded.rs:228-235 | without a transform, row count and digest do not depend on batch size or capacity |
| `BoundedCauses.RunCauses` | crates/pipeline/src/bounded.rs:275-381 | in every schedule, an error reported is that of opening, of a record, of building a chunk, of the transform or of the check, and a cancellation was requested |
| `BoundedCauses.LocalCauses` | crates/pipeline/src/bounded.rs:329-381 | in every schedule, a local failure is reported only where the operation its phase names failed, with that cause and outcome, and never for a batch the transform or the check refused |
| `BoundedCauses.JoinOrder` | crates/pipeline/src/bounded.rs:438-457 | when the threads join, the consumer's own error comes first, then the producer's, then the last check |
| `BoundedCauses.CancellationStops` | crates/pipeline/src/bounded.rs:291-348 | once cancelled, the next check ends the run and the producer neither cuts nor sends anything more |
| `BoundedCauses.FaultsArePossible` | crates/pipeline/src/staging.rs:70-119 | a cancellation may come in any state and any local operation may fail, with the phase and outcome that its failure reports |
| `BoundedPipeline.ProduceBatches` | crates/pipeline/src/bounded.rs:275-319 | a producer that returns normally was cancelled, sent an error, or sent everything; blocking on a full channel always ends |
| `BoundedPipeline.TakeRecord` | crates/pipeline/src/bounded.rs:291-313 | one record as one step of the protocol |
| `BoundedPipeline.ConsumeBatches` | crates/pipeline/src/bounded.rs:328-381 | the report counts exactly the batches written |
| `BoundedPipeline.ConsumeOne` | crates/pipeline/src/bounded.rs:341-370 | one received batch is transformed, checked, written and counted, or ends the run with an error that has its cause |
| `BoundedPipeline.Machine.Send` | crates/pipeline/src/bounded.rs:243-248 | a send ends with the message in the channel or with the receiver gone |
| `BoundedPipeline.Machine.Recv` | crates/pipeline/src/bounded.rs:257-267 | a receive ends with a batch, an error message or a closed, empty channel |
| `BoundedPipeline.JoinProducer` | crates/pipeline/src/bounded.rs:438-457 | the first error wins, then the producer's, then cancellation |
| `BoundedPipeline.PublishStaged` | crates/pipeline/src/staging.rs:70-81 | sync, rename and parent sync in order, with the failing phase reported |
| `BoundedPipeline.RunBoundedPipeline` | crates/pipeline/src/bounded.rs:405-460 | with any schedule, failures and cancellation: all or nothing, the result says which, and an error has its cause |
| `RemotePipeline.RunBoundedPipelineS3` | crates/pipeline/src/bounded.rs:487-524 | downloads, runs and publishes: on success the record names an object that encodes every row, transformed, of an object stored under the input key that the recorded input metadata describe; an earlier failure leaves the output alone; every failure has its cause, and an undisturbed publication succeeds; and no run spoils the derivation of others |
| `RemotePipeline.Prepare` | crates/pipeline/src/bounded.rs:495-510 | the checks, the download and the local run in order; what was parsed is the object the captured metadata describe |
| `RemotePipeline.PublishBatches` | crates/pipeline/src/bounded.rs:511-523 | the published output and its record are derived from the downloaded object |
| `RemotePipeline.ReadPipelineOutput` | crates/pipeline/src/object_store_io.rs:256-338 | where every run is a pipeline run, whatever its tuning, a successful read yields the encoding of the complete, transformed input object that the record identifies, with its row count and digest |
| `RemotePipeline.ReadIsDerived` | crates/pipeline/src/object_store_io.rs:256-338 | the same for any record and bytes that were read together |
| `RemotePipeline.UntransformedRows` | crates/pipeline/src/bounded.rs:487-524 | where nothing is transformed, the rows read back are those that the source object's bytes parse to |
| `Chunking.CutsAreChunks` | crates/pipeline/src/bounded.rs:289-318 | the only way to cut rows into full batches and a shorter rest is the chunk sequence |
| `Chunking.ChunksFlatten` | crates/pipeline/src/bounded.rs:289-318 | the batches concatenate to the rows |
| `Chunking.ChunkSizes` | crates/pipeline/src/bounded.rs:289-318 | no batch is empty and all but the last are full |
| `Digest.AccumulateBatchDigest` | crates/pipeline/src/manifest.rs:67-79 | folds one batch into the running sum modulo 2^64 |
| `Digest.DigestOfMultiset` | crates/pipeline/src/manifest.rs:62-79 | for any row hash the digest depends only on the multiset of rows |
| `Digest.AccumulateAppend` | crates/pipeline/src/manifest.rs:62-79 | digesting in batches is digesting the concatenation |
| `Digest.AccumulateIsTotal` | crates/pipeline/src/manifest.rs:62-79 | the running digest is the total of the row hashes modulo 2^64 |
| `Digest.AccumulateBatchStats` | crates/pipeline/src/bounded.rs:228-235 | the report of one more batch is the report of all batches |
| `Digest.ReportIgnoresBatching` | crates/pipeline/src/bounded.rs:228-235 | equal row multisets give equal row counts and digests, whatever the batching |
| `Cancellation.StepInv` | crates/pipeline/src/bounded.rs:89-115 | every step of any number of cancels and registrations keeps each live registration located in the registry, in a drained list or cancelled |
| `Cancellation.NothingLost` | crates/pipeline/src/bounded.rs:89-115 | once a cancel and a registration have returned, a live control is cancelled or owned by a cancel still visiting |
| `Cancellation.NothingLostAtRest` | crates/pipeline/src/bounded.rs:89-115 | with no cancel in progress it is cancelled |
| `Cancellation.SoleCancelLosesNothing` | crates/pipeline/src/bounded.rs:89-115 | with a single cancel its return is enough |
| `Cancellation.TwoCancelsMayRace` | crates/pipeline/src/bounded.rs:89-101 | a concrete schedule in which a second cancel returns before the control is cancelled |
| `Cancellation.GuaranteeCondition` | crates/pipeline/src/bounded.rs:89-115 | for any numbers of cancels in progress and returned: in every reachable state with these a live returned registration is cancelled, exactly when none is in progress or none has returned |
| `Cancellation.CancelsGuarantee` | crates/pipeline/src/bounded.rs:89-115 | for every number of cancels: every run with that many keeps the promise exactly when the number is at most one |
| `Cancellation.RegisteringPrunes` | crates/pipeline/src/bounded.rs:103-111 | a registration keeps the live ones, forgets the others and adds its own |
| `Cancellation.AliveInOrder` | crates/pipeline/src/bounded.rs:93-96 | upgrading keeps the order of the registrations, each kept or dropped on its own |
| `Cancellation.AnybodyMayCall` | crates/pipeline/src/bounded.rs:75-111 | calls may come at any time, and a control may go exactly when no `cancel` has it left to visit and no `register` of it is in progress |
| `Cancellation.CancellationToken.Cancel` | crates/pipeline/src/bounded.rs:89-101 | sets the flag and visits everything it drained, with any interference |
| `Cancellation.CancellationToken.Register` | crates/pipeline/src/bounded.rs:103-115 | a registration that starts after the flag is set cancels its control itself |
| `Multipart.FillBuffer` | crates/pipeline/src/object_store_io.rs:395-410 | short reads and interruptions never leave a buffer short before the end of the file, and a read error is the reader's |
| `Multipart.SendChunk` | crates/pipeline/src/object_store_io.rs:387-416 | each round sends the next bytes, with at most two parts in flight |
| `Multipart.SendAll` | crates/pipeline/src/object_store_io.rs:386-419 | without a failure every part of the file is done; with one, a well-cut beginning of it was submitted |
| `Multipart.Stream` | crates/pipeline/src/object_store_io.rs:386-422 | complete is called once at most, only after every part of the whole file succeeded; what was submitted is a well-cut beginning of the file; an error is that of a part, of a read or of the completion |
| `Multipart.WriteMultipart` | crates/pipeline/src/object_store_io.rs:375-436 | success uploads the whole file in aligned parts; every failure is the store's or the reader's, drops the parts and attempts exactly one abort; either way complete followed all parts of the whole file, at most once, and only the whole file can have become an object |
| `Shapes.StrEq` | crates/contracts/src/lib.rs:826-841 | names compared exactly |
| `Shapes.StrEqCi` | crates/contracts/src/lib.rs:843-866 | names compared up to the case of ASCII letters |
| `Shapes.CaseFolding` | crates/contracts/src/lib.rs:843-866 | only the case of the letters A to Z is ignored |
| `Shapes.DuplicateFieldName` | crates/contracts/src/lib.rs:753-771 | finds the first clashing pair's later name |
| `Shapes.DuplicateIsFirst` | crates/contracts/src/lib.rs:753-771 | a name reported is that of the later field of the first clashing pair in visiting order |
| `Shapes.FindFieldMode` | crates/contracts/src/lib.rs:773-791 | finds the first field of a name |
| `Shapes.ShapeEq` | crates/contracts/src/lib.rs:801-810 | equality of shapes up to default annotations |
| `Shapes.FieldsEq` | crates/contracts/src/lib.rs:812-824 | equality of field lists up to default annotations |
| `Comparison.Compare` | crates/contracts/src/lib.rs:487-511 | the array holds exactly the first min(128, n) refused differences in order, each with the first eight segments of its true path, and rejection means the unbounded list is not empty |
| `DiffMeaning.DiffsTell` | crates/contracts/src/lib.rs:303-373 | a difference is in the list exactly when following its path into both shapes finds what it says: expected describes the contract's part and found the producer's, a missing field carries its own annotation, an extra one is a field the contract lacks, a repeated name hides all else; none is invented and none is left out |
| `Comparison.Comparison.Push` | crates/contracts/src/lib.rs:419-425 | a difference enters the list, and the display only if refused and there is room |
| `Comparison.Comparison.PushDiff` | crates/contracts/src/lib.rs:395-401 | the bounded array takes a difference while it has room |
| `Comparison.AppendSegment` | crates/contracts/src/lib.rs:725-736 | the displayed path is the first eight segments of the whole path |
| `Comparison.Comparison.CompareShapes` | crates/contracts/src/lib.rs:681-719 | appends exactly the shape differences of the specification |
| `Comparison.Comparison.CompareFields` | crates/contracts/src/lib.rs:516-531 | dispatches on the mode |
| `Comparison.Comparison.CompareByName` | crates/contracts/src/lib.rs:536-588 | appends duplicates, then named, then leftover differences |
| `Comparison.Comparison.MatchByName` | crates/contracts/src/lib.rs:554-572 | appends the differences of every contract field against the producer's field of its name |
| `Comparison.Comparison.PushLeftovers` | crates/contracts/src/lib.rs:573-581 | appends the producer's fields that no contract field names |
| `Comparison.Comparison.CompareOrdered` | crates/contracts/src/lib.rs:592-634 | appends the index-aligned differences with names, then both tails |
| `Comparison.Comparison.CompareByPosition` | crates/contracts/src/lib.rs:640-673 | appends the index-aligned differences, then both tails |
| `Policies.VerdictMeaning` | crates/contracts/src/lib.rs:487-736 | the list of refused differences is empty exactly when the declarative relation holds |
| `Policies.Conforms` | crates/contracts/src/lib.rs:226-228 | the verdict is the declarative relation, for all eight policies |
| `Policies.NamedMeaning` | crates/contracts/src/lib.rs:536-588 | what matching by name means field by field |
| `Policies.AlignedMeaning` | crates/contracts/src/lib.rs:592-673 | what matching by index means field by field |
| `PolicyLaws.ExactSymmetric` | crates/contracts/src/lib.rs:428-484 | the five exact policies are symmetric |
| `PolicyLaws.CompatibleTransitive` | crates/contracts/src/lib.rs:428-484 | the five exact policies and Forward are transitive on all shapes |
| `PolicyLaws.CompatibleReflexive` | crates/contracts/src/lib.rs:428-484 | a declaration conforms to itself exactly when no by-name struct in it repeats a name |
| `PolicyLaws.ExactOrderedIsSameShape` | crates/contracts/src/lib.rs:592-634 | ExactOrdered is structural equality |
| `PolicyLaws.OrderedChain` | crates/contracts/src/lib.rs:592-673 | ExactOrdered implies ExactOrderedCI implies ExactByPosition |
| `PolicyLaws.AlignedIsEquality` | crates/contracts/src/lib.rs:592-673 | an aligned policy is equality of what is left when defaults, and the case of names or names altogether, are forgotten |
| `PolicyLaws.ExactHasTwoNames` | crates/contracts/src/lib.rs:428-439 | Exact and ExactUnorderedCI are one policy |
| `ExactBijection.ExactIsBijection` | crates/contracts/src/lib.rs:536-588 | Exact on structs holds exactly when neither side repeats a name and a bijection pairs matching fields |
| `BackwardLaws.ForwardIsDualToBackward` | crates/contracts/src/lib.rs:428-439 | Forward one way is Backward the other way |
| `BackwardLaws.DualityCondition` | crates/contracts/src/lib.rs:428-439 | the converse holds for every partner exactly when the shape, if satisfiable, has no optional or defaulted field |
| `BackwardLaws.BackwardComposesWhen` | crates/contracts/src/lib.rs:536-582 | exactly when Backward composes through a middle declaration |
| `BackwardLaws.TightComposes` | crates/contracts/src/lib.rs:536-582 | Backward composes when the outer declaration has no optional or defaulted field and the middle one no default |
| `BackwardLaws.BackwardNotTransitive` | crates/contracts/src/lib.rs:536-582 | three declarations for which Backward does not compose |
| `ArrowSchema.Schema` | crates/contracts/src/arrow.rs:60-65 | computes the specified schema or error |
| `ArrowSchema.StructFields` | crates/contracts/src/arrow.rs:75-93 | the loop returns the fields, or the error of the earliest failing member |
| `ArrowSchema.MapField` | crates/contracts/src/arrow.rs:95-180 | computes the specified field or error |
| `ArrowLaws.SchemaDomain` | crates/contracts/src/arrow.rs:60-180 | a schema exists exactly for struct shapes with supported primitives, no adjacent optionals, atomic map keys, unique names and depth at most 128 |
| `ArrowFaults.SchemaReportsFirst` | crates/contracts/src/arrow.rs:60-180 | a declaration without a schema is refused for the first fault, in visiting order, of those it has, with that fault's path |
| `ArrowLaws.SchemaRoundTrip` | crates/contracts/src/arrow.rs:60-180 | the declaration can be read back from its schema, up to defaults and the string label |
| `ArrowLaws.SchemaInjective` | crates/contracts/src/arrow.rs:60-180 | two mappable declarations share a schema exactly when they differ only in defaults and string labels |
| `ArrowLaws.SameShapeSameSchema` | crates/contracts/src/arrow.rs:60-180 | shapes equal up to defaults give the same schema or the same error |
| `ArrowLaws.FieldRange` | crates/contracts/src/arrow.rs:95-180 | a field is one the mapping returns exactly when it is standard and shallow enough |
| `ArrowSchema.PrimitiveTable` | crates/contracts/src/arrow.rs:112-137 | each supported label maps to its Arrow type |
| `Columns.SliceKeepsValues` | crates/contracts/src/arrow/validation.rs:174-193 | slicing an array changes no logical value |
| `ValidationLaws.MatchAllIgnoresMetadata` | crates/contracts/src/arrow/validation.rs:98-110 | schemas match exactly when they are equal without metadata; a large list, which no declaration maps to, is compared as it is |
| `ValidationLaws.CheckReportsFirst` | crates/contracts/src/arrow/validation.rs:148-196 | the walk reports the first active required null in visiting order, with its path and index, and nothing else |
| `ValidationLaws.NoNullsMeansAdmitted` | crates/contracts/src/arrow/validation.rs:148-196 | no active required null lies below a row exactly when the field admits its logical value |
| `ValidationLaws.FieldAdmitsShape` | crates/contracts/src/arrow.rs:95-180 | a shape's Arrow field admits exactly the shape's values |
| `ValidationLaws.ValidateIsHolds` | crates/contracts/src/arrow/validation.rs:82-95 | validation accepts exactly the batches whose schema matches and whose rows all inhabit the declaration; a representation error is unreachable |
| `ValidationLaws.ValidateReportsFirst` | crates/contracts/src/arrow/validation.rs:82-95 | a refused batch is refused for its schema, naming the declared one and its own, or for the first active required null, column by column |
| `ValidationLaws.VerdictSeesOnlyLogicalRows` | crates/contracts/src/arrow/validation.rs:82-196 | masked children and values outside the visible offsets cannot change the verdict |
| `ValidationLaws.SliceVerdict` | crates/contracts/src/arrow/validation.rs:82-196 | a slice is valid exactly when its own rows are |
| `ContractPipeline.Composition.Transform` | crates/typestate/src/contract_pipeline.rs:186-199 | a step is added exactly when its input is the declared output before it |
| `ContractPipeline.Composition.Sink` | crates/typestate/src/contract_pipeline.rs:240-250 | a plan exists exactly when the last connection conforms, and is then connected throughout |
| `ContractPipeline.Build` | crates/typestate/src/contract_pipeline.rs:264-287 | preflight prepares every validator or names the first declaration without a schema |
| `ContractPipeline.SinkPreflightNeverFirst` | crates/typestate/src/contract_pipeline.rs:279-281 | the sink's own preflight never fails first |
| `ContractPipeline.SameShapeHolds` | crates/typestate/src/contract_pipeline.rs:279-281 | declarations equal up to defaults describe the same batches |
| `ContractPipeline.OrderlyEverywhere` | crates/typestate/src/contract_pipeline.rs:328-351 | each callback of a run was called in order on the batch just produced, a value of its declared input |
| `ContractPipeline.RunStep` | crates/typestate/src/contract_pipeline.rs:333-338 | one transform receives its declared input, and its output is validated |
| `ContractPipeline.Deliver` | crates/typestate/src/contract_pipeline.rs:339-349 | the sink receives its declared input without a scan; a counter that would overflow is an error, so the counts stay in range |
| `ContractPipeline.Run` | crates/typestate/src/contract_pipeline.rs:320-353 | every callback gets a value of its declared input, a failure at batch k leaves exactly the first k delivered and names its cause, and the counters stay in range |
| `Codegen.FieldTypeTokens` | crates/schema-codegen/src/lib.rs:310-361 | computes the specified type and pushes its nested structs innermost first |
| `Codegen.StructFields` | crates/schema-codegen/src/lib.rs:323-342 | the loop renders the members or stops at the first error |
| `Codegen.StructSource` | crates/schema-codegen/src/lib.rs:374-411 | computes the specified declarations, or fails to render them |
| `Codegen.FieldsGenerable` | crates/schema-codegen/src/lib.rs:310-405 | every member has a Rust type exactly when, at every depth, names are identifiers and types supported |
| `Codegen.IdentifierCodes` | crates/schema-codegen/src/lib.rs:283-287 | an identifier is ASCII letters, digits and underscores without a digit in front |
| `Codegen.PascalParts` | crates/schema-codegen/src/lib.rs:289-301 | parts between separators are capitalized one by one |
| `Codegen.PascalPart` | crates/schema-codegen/src/lib.rs:289-301 | a part keeps its text, with a lowercase first letter made uppercase |
| `CodegenLaws.ProgramReportsFirst` | crates/schema-codegen/src/lib.rs:310-405 | the generator reports its first fault, with its dotted path, and goes on to rendering only without one |
| `CodegenLaws.ReservedAreKeywords` | crates/schema-codegen/src/lib.rs:405-409 | the names refused at rendering are the keywords |
| `CodegenLaws.ProgramExists` | crates/schema-codegen/src/lib.rs:374-410 | declarations exist exactly when, besides, no member and no generated struct is named by a reserved word; rendering is what fails when only that is missing |
| `CodegenLaws.ProgramStructs` | crates/schema-codegen/src/lib.rs:310-405 | the generated structs have exactly the names, and their members', that the schema's structs, at every depth, give rise to |
| `CodegenLaws.ProgramShape` | crates/schema-codegen/src/lib.rs:374-405 | where given names are in scope, the generated program declares the schema's own shape, list items required, exactly when it compiles there and its struct names hide no primitive, list or optional the schema needs |
| `CodegenLaws.RegenerateRoundTrip` | crates/schema-codegen/src/lib.rs:310-405 | generating declarations, compiling them where given names are in scope and mapping them back returns the schema, with lists plain and their items required, exactly when it can be declared, its names are good there and the result is in the range of the mapping |
| `CodegenLaws.RegenerateExact` | crates/schema-codegen/src/lib.rs:310-405 | the schema itself comes back exactly when, besides, it has no large list and no list with nullable items |
| `CodegenLaws.CollidingNames` | crates/schema-codegen/src/lib.rs:289-301 | member names with one Pascal-case form give two structs one name |
| `CodegenLaws.NamelessCollides` | crates/schema-codegen/src/lib.rs:289-301 | a struct member named by separators only gets the name of the struct around it |
| `CodegenLaws.ItemsCollide` | crates/schema-codegen/src/lib.rs:310-343 | the items of a list collide with a member called like them |
| `CodegenLaws.DepthsCollide` | crates/schema-codegen/src/lib.rs:310-343 | structs inside two members collide when the paths to them read alike |
| `CodegenLaws.WordsRefused` | crates/schema-codegen/src/lib.rs:374-411 | a schema with a member called `gen` or `_` gives nothing back |
| `CodegenLaws.HidingRefused` | crates/schema-codegen/src/lib.rs:317-342 | a struct called `Option` with a nullable member, or `Vec` with a list, gives nothing back |
| `CodegenLaws.TakenRefused` | crates/connectors-derive/src/lib.rs:109-117 | nor does one called `str`, or like something in scope |
| `CodegenLaws.WordsGenerated` | crates/schema-codegen/src/lib.rs:374-411 | yet such members are generated |
| `CodegenLaws.HidingGenerated` | crates/schema-codegen/src/lib.rs:317-342 | yet such hiding structs are generated |
| `CodegenLaws.TakenGenerated` | crates/schema-codegen/src/lib.rs:374-411 | yet a struct called `str` is generated |
| `CodegenLaws.NamesMayCollide` | crates/schema-codegen/src/lib.rs:289-301 | such names exist |
| `NestedTransform.TransformColumnar` | crates/pipeline/src/bin/heavily-nested-transpose-cost.rs:191-237 | the one-pass transform keeps a sound column of the same length |
| `NestedTransform.ColumnarRow` | crates/pipeline/src/bin/heavily-nested-transpose-cost.rs:191-237 | a row is the pointwise map of its leaves exactly when no visible list or struct is null |
| `NestedTransform.NestedBuilder.AppendItem` | crates/pipeline/src/bin/heavily-nested-transpose-cost.rs:80-94 | one more item, nothing else changes |
| `NestedTransform.NestedBuilder.AppendWrapper` | crates/pipeline/src/bin/heavily-nested-transpose-cost.rs:100-114 | one more wrapper with exactly these items |
| `NestedTransform.TransformRowRoundTrip` | crates/pipeline/src/bin/heavily-nested-transpose-cost.rs:240-278 | the rebuilt column has the pointwise map of every row |
| `NestedTransform.TransformsAgree` | crates/pipeline/src/bin/heavily-nested-transpose-cost.rs:191-278 | the two transforms agree on a row exactly when no visible list or struct in it is null |
| `NestedTransform.ColumnarMaps` | crates/pipeline/src/bin/heavily-nested-transpose-cost.rs:191-237 | the one-pass transform maps each leaf of a row once and keeps all lists and structs, exactly when the row has no null |
| `NestedTransform.RebuiltMaps` | crates/pipeline/src/bin/heavily-nested-transpose-cost.rs:240-278 | so does the row-by-row rebuild |
| `NestedTransform.TransformBoth` | crates/pipeline/src/bin/heavily-nested-transpose-cost.rs:191-278 | both transforms of one column, for every row: they agree exactly when no visible list or struct is null, and each maps every leaf once exactly when the row has no null |
| `Ingest.DirectBatches` | crates/pipeline/examples/ingest_comparison.rs:29-68 | the builder loop makes the meant calls and returns the meant result |
| `Ingest.RowBatches` | crates/pipeline/examples/ingest_comparison.rs:83-127 | so does the row-buffer loop |
| `Ingest.Compare` | crates/pipeline/examples/ingest_comparison.rs:20-127 | the two are indistinguishable for every input, batch size and stateful consumer |
| `Ingest.FeedOffersInOrder` | crates/pipeline/examples/ingest_comparison.rs:20-127 | the calls are a prefix of the batches before the first failing record, all of them if that record's error is returned |
| `Ingest.RowRead` | crates/pipeline/examples/ingest_comparison.rs:71-110 | a record's fields become a row: missing fields are empty, an empty note is none, a bad id names its row and value |
| `TypeText.SplitTopLevelCommas` | crates/schema-codegen/src/text_types.rs:41-58 | the loop returns the pieces between commas outside brackets |
| `TypeText.JoinSplit` | crates/schema-codegen/src/text_types.rs:41-58 | joining the pieces gives the text back |
| `TypeText.SplitJoin` | crates/schema-codegen/src/text_types.rs:41-58 | splitting undoes joining exactly for parts that close their brackets and have no top-level comma |
| `TypeText.ParseDeclaredType` | crates/schema-codegen/src/text_types.rs:69-91 | computes the specified type or none |
| `TypeGrammar.TokenTable` | crates/schema-codegen/src/text_types.rs:9-25 | each word is read as its kind, and no other |
| `TypeGrammar.WordReads` | crates/schema-codegen/src/text_types.rs:69-91 | a text without a wrapper is read as a primitive exactly when its token is a word of that kind |
| `TypeGrammar.SpellingParses` | crates/schema-codegen/src/text_types.rs:69-91 | every well-formed spelling is read as it was meant |
| `TypeGrammar.ParsesExactlySpellings` | crates/schema-codegen/src/text_types.rs:69-91 | a text is read as a type exactly when it spells that type |
| `TypePrinting.CleanParses` | crates/schema-codegen/src/text_types.rs:69-91 | any padding, case, alias or bracket-free suffix inside nested types is read correctly |
| `TypePrinting.TokenIgnoresCaseAndSuffix` | crates/schema-codegen/src/text_types.rs:85-91 | a primitive's letter case and parenthesised suffix do not matter |
| `TypePrinting.PrintParse` | crates/schema-codegen/src/text_types.rs:69-91 | printing a type and parsing the text gives the type back |

## Left out

- The byte-budget transport: its source file is not part of this model; only the count channel is, and a control is a flag that can be cancelled.
- SQL engines, table formats and flight servers: thin calls into engines outside the model; a SQL or DataFrame transform is one more callback of `ContractPipeline.Run`.
- Parquet, CSV and JSON: encoders and parsers are functions of their input; a completion record is stored as a value, and one that cannot be serialized is a nondeterministic error.
- Durability: a file or directory sync may fail, but what survives a power loss is not modelled.
- Panics in user callbacks, timing, memory allocation and floating-point rounding.
- The rendering of compile-time diagnostics, of error messages and of generated tokens.
- RemoteStore.ObjectStore.UploadFromTemp: other parties' calls are ordered before or after the whole upload, because only its completion makes an object visible.
- CompletedRead.DownloadCaptured: the bytes on a local file are modelled as a value, not as file-system state.
- Cancellation.CancellationToken.Cancel: atomic accesses and lock acquisitions are single steps in one total order, and weak memory orderings are not modelled; a control's identifier is never reused.
- Multipart.FillBuffer: a reader may be interrupted only finitely often.
- BoundedPipeline.RunBoundedPipeline: a rename either fails without effect or takes effect; creating the staged file and its writer are single steps.
- ContractPipeline.Run: counters are 64 bits wide and a source is finite; compile-time evaluation is modelled as a check that refuses the composition.
- Codegen.StructSource: returns declarations as values; a struct name that is no plain identifier makes the source panic or is a raw identifier, and is taken as given here.
- CodegenLaws.RegenerateRoundTrip: what the compiler does with the declarations is modelled as the resolution of type names in one module and the words of the 2024 edition; lints and the compiler's own limits on nesting are not modelled.
- TypeText.DeclaredType: works on characters where the source slices bytes, which is the same because both prefixes are ASCII.
- NestedTransform.TransformColumnar: the leaf arithmetic is an arbitrary function, of which adding one is an instance.
- Ingest.DirectBatches: Arrow builders are sequences, and the consumer is an arbitrary function of what it was given so far.
