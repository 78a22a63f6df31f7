/** Safety, boundedness, progress and termination of the two-thread pipeline over all schedules. */
module BoundedLaws {
  import opened Wrappers
  import opened Chunking
  import opened BoundedProtocol
  import opened Digest

  /** A schedule: each state follows from the one before by an enabled step of some component. */
  ghost predicate IsRun(job: Job, states: seq<State>, labels: seq<Label>) {
    |states| == |labels| + 1 && Initial(states[0]) &&
    forall i :: 0 <= i < |labels| ==>
      Enabled(job, states[i], labels[i]) && states[i + 1] == Apply(job, states[i], labels[i])
  }

  lemma {:induction false} RunInv(job: Job, states: seq<State>, labels: seq<Label>, i: nat)
    requires job.batchSize > 0 && IsRun(job, states, labels) && i < |states|
    ensures Inv(job, states[i])
  {
    if i == 0 {
      InitialInv(job, states[0]);
    } else {
      RunInv(job, states, labels, i - 1);
      StepInv(job, states[i - 1], labels[i - 1]);
    }
  }

  // ---------- all or nothing ----------

  /** What a successful run of this job writes: every chunk of every row, transformed, in order. */
  ghost predicate Complete(job: Job, written: seq<Batch>) {
    job.input.Ok? && MadeFrom(job.input.value, job.batchSize, job.build, job.transform, job.check, written)
  }

  /** Every record parses, and each chunk of the rows was built, transformed and checked, in this order, and written. */
  ghost predicate MadeFrom(
      records: seq<Result<Row, Cause>>, batchSize: nat, build: Batch -> Result<Batch, Cause>,
      transform: (nat, Batch) -> Result<Batch, Cause>, check: Batch -> Result<(), Cause>, written: seq<Batch>)
  {
    batchSize > 0 && (forall k :: 0 <= k < |records| ==> records[k].Ok?) &&
    var chunks := Chunks(RowsOf(records), batchSize);
    |written| == |chunks| &&
    forall k :: 0 <= k < |chunks| ==>
      build(chunks[k]).Ok? && transform(k, build(chunks[k]).value) == Ok(written[k]) && check(written[k]).Ok?
  }

  /** Whatever the schedule, the final path shows either the old content or the complete output. */
  lemma AllOrNothing(job: Job, states: seq<State>, labels: seq<Label>, i: nat)
    requires job.batchSize > 0 && IsRun(job, states, labels) && i < |states|
    ensures states[i].output.Published? ==> Complete(job, states[i].output.batches)
  {
    RunInv(job, states, labels, i);
    var s := states[i];
    if s.output.Published? {
      assert job.input.value[..|job.input.value|] == job.input.value;
      forall k | 0 <= k < |s.cut|
        ensures job.build(s.cut[k]).Ok? && job.transform(k, job.build(s.cut[k]).value) == Ok(s.written[k])
        ensures job.check(s.written[k]).Ok?
      {
        assert s.received[k] == s.sent[k] == job.build(s.cut[k]);
        PrepareMeaning(job, k, job.build(s.cut[k]).value);
      }
    }
  }

  /** A finished run tells the truth: success or an uncertain parent sync means published, all else untouched. */
  lemma ResultIsHonest(job: Job, states: seq<State>, labels: seq<Label>, i: nat)
    requires job.batchSize > 0 && IsRun(job, states, labels) && i < |states| && states[i].consumer.Finished?
    ensures var r := states[i].consumer.result; states[i].output.Published? <==>
      r.Ok? || (r.error.LocalPublication? && r.error.outcome.PublishedDurabilityUncertain?)
  {
    RunInv(job, states, labels, i);
  }

  ghost predicate Decided(c: Consumer) {
    c.Publishing? || c.Renaming? || c.SyncingParent? || (c.Finished? && c.result.Ok?)
  }

  /** Once cancellation is requested before the last check, nothing is ever published. */
  lemma {:induction false} CancelledBeforeDecision(job: Job, states: seq<State>, labels: seq<Label>, i: nat, j: nat)
    requires IsRun(job, states, labels) && i <= j < |states|
    requires CalledOff(states[i])
    ensures CalledOff(states[j])
    decreases j
  {
    if i < j {
      CancelledBeforeDecision(job, states, labels, i, j - 1);
      NextStaysCalledOff(job, states, labels, j - 1);
    }
  }

  lemma NextStaysCalledOff(job: Job, states: seq<State>, labels: seq<Label>, k: nat)
    requires IsRun(job, states, labels) && k < |labels| && CalledOff(states[k])
    ensures CalledOff(states[k + 1])
  {
    StaysCalledOff(job, states[k], labels[k]);
  }

  /** Cancelled with the last check still ahead, and nothing published. */
  ghost predicate CalledOff(s: State) {
    s.cancelled && !Decided(s.consumer) && s.output.Previous?
  }

  lemma StaysCalledOff(job: Job, s: State, l: Label)
    requires Enabled(job, s, l) && CalledOff(s)
    ensures CalledOff(Apply(job, s, l))
  {
    match l
    case Perform(failure) => PerformStaysCalledOff(job, s, failure);
    case _ =>
  }

  lemma PerformStaysCalledOff(job: Job, s: State, failure: Option<Cause>)
    requires Enabled(job, s, Perform(failure)) && CalledOff(s)
    ensures CalledOff(AfterPerform(job, s, failure))
  {
  }

  // ---------- bounded memory ----------

  /** Batches alive at once: queued, held by the producer for sending, held by the consumer. */
  function InFlight(s: State): nat {
    |s.queue| + (if s.producer.Sending? then 1 else 0) + (if s.consumer.Checking? || s.consumer.Working? then 1 else 0)
  }

  lemma MemoryBound(job: Job, states: seq<State>, labels: seq<Label>, i: nat)
    requires job.batchSize > 0 && IsRun(job, states, labels) && i < |states|
    ensures |states[i].queue| <= job.capacity && InFlight(states[i]) <= job.capacity + 2
    ensures states[i].producer.Reading? ==> |states[i].producer.chunk| < job.batchSize
  {
    RunInv(job, states, labels, i);
  }

  // ---------- progress ----------

  /** A step some thread can take now. */
  function SomeStep(job: Job, s: State): Label {
    match s.consumer
    case Starting | Entering | Checking(_) | Draining | Deciding => CheckCancelled
    case Staging | OpeningWriter | Working(_) | Closing | Publishing | Renaming | SyncingParent => Perform(None)
    case Receiving =>
      if s.queue != [] then Receive
      else if !SenderOpen(s.producer) then Disconnected
      else if s.producer.Sending? then (if job.capacity == 0 then Rendezvous else Enqueue)
      else ProducerStep(s)
    case Joining(_) | Finished(_) => if SenderOpen(s.producer) then ProducerStep(s) else Join
  }

  function ProducerStep(s: State): Label {
    if s.producer.Opening? then OpenInput else if s.producer.Reading? then ReadNext else SendFails
  }

  /** No reachable state but a final one has both threads stuck, whatever the capacity. */
  lemma NeverStuck(job: Job, s: State)
    requires Inv(job, s) && !Final(s)
    ensures Enabled(job, s, SomeStep(job, s)) && SomeStep(job, s) != Cancel
  {
  }

  /** How many more steps the run can take at most. */
  function Rank(job: Job, s: State): nat {
    ProducerRank(job, s.producer) + 4 * |s.queue| + ConsumerRank(s.consumer) + (if s.cancelled then 0 else 1)
  }

  function Records(job: Job): nat {
    if job.input.Ok? then |job.input.value| else 0
  }

  function Remaining(job: Job, next: nat): nat {
    if next <= Records(job) then 6 * (Records(job) - next) + 6 else 6
  }

  function ProducerRank(job: Job, p: Producer): nat {
    match p
    case Unspawned | Opening => Remaining(job, 0) + 1
    case Reading(next, _) => Remaining(job, next)
    case Sending(_, ReadOn(next)) => Remaining(job, next) + 5
    case Sending(_, Return) => 5
    case Returned(_) => 0
  }

  function ConsumerRank(c: Consumer): nat {
    match c
    case Starting => 12
    case Staging => 11
    case OpeningWriter => 10
    case Entering => 9
    case Receiving => 8
    case Checking(_) => 11
    case Working(_) => 10
    case Draining => 7
    case Closing => 6
    case Joining(_) => 5
    case Deciding => 4
    case Publishing => 3
    case Renaming => 2
    case SyncingParent => 1
    case Finished(_) => 0
  }

  lemma StepLowersRank(job: Job, s: State, l: Label)
    requires Enabled(job, s, l)
    requires s.consumer.OpeningWriter? ==> s.producer.Unspawned?
    ensures Rank(job, Apply(job, s, l)) < Rank(job, s)
  {
    match l
    case ReadNext => ReadLowersRank(job, s);
    case Enqueue => assert |s.queue + [s.producer.message]| == |s.queue| + 1;
    case Receive => TakingLowersRank(s.(queue := s.queue[1..]), s.queue[0]);
    case Rendezvous => RendezvousLowersRank(job, s);
    case Perform(failure) => PerformLowersRank(job, s, failure);
    case _ =>
  }

  lemma TakingLowersRank(s: State, m: Message)
    requires s.consumer.Receiving?
    ensures var t := Taken(s, m);
      ConsumerRank(t.consumer) <= ConsumerRank(s.consumer) + 3 && |t.queue| <= |s.queue| &&
      t.producer == s.producer && t.cancelled == s.cancelled
  {
  }

  lemma RendezvousLowersRank(job: Job, s: State)
    requires Enabled(job, s, Rendezvous)
    ensures Rank(job, Apply(job, s, Rendezvous)) < Rank(job, s)
  {
    TakingLowersRank(s.(sent := s.sent + [s.producer.message], producer := Resumed(s.producer.resume)), s.producer.message);
  }

  lemma PerformLowersRank(job: Job, s: State, failure: Option<Cause>)
    requires Enabled(job, s, Perform(failure))
    requires s.consumer.OpeningWriter? ==> s.producer.Unspawned?
    ensures Rank(job, AfterPerform(job, s, failure)) < Rank(job, s)
  {
  }

  lemma ReadLowersRank(job: Job, s: State)
    requires Enabled(job, s, ReadNext)
    ensures ProducerRank(job, AfterRead(job, s).producer) < ProducerRank(job, s.producer)
    ensures AfterRead(job, s).queue == s.queue && AfterRead(job, s).consumer == s.consumer
    ensures AfterRead(job, s).cancelled == s.cancelled
  {
  }

  /** Every schedule ends: its length is bounded by the input alone. */
  lemma {:induction false} RunsEnd(job: Job, states: seq<State>, labels: seq<Label>, i: nat)
    requires job.batchSize > 0 && IsRun(job, states, labels) && i < |states|
    ensures i + Rank(job, states[i]) <= 6 * Records(job) + 20
  {
    if i > 0 {
      RunsEnd(job, states, labels, i - 1);
      NextIsLower(job, states, labels, i - 1);
    }
  }

  lemma NextIsLower(job: Job, states: seq<State>, labels: seq<Label>, k: nat)
    requires job.batchSize > 0 && IsRun(job, states, labels) && k < |labels|
    ensures Rank(job, states[k + 1]) < Rank(job, states[k])
  {
    RunInv(job, states, labels, k);
    StepLowersRank(job, states[k], labels[k]);
  }

  // ---------- a run without faults ----------

  /** The input opens, every record parses, and no callback ever fails on what it is given. */
  ghost predicate Healthy(job: Job) {
    job.batchSize > 0 && job.input.Ok? && Parsed(job, |job.input.value|) &&
    (forall b :: job.build(b).Ok?) && (forall k, b :: job.transform(k, b).Ok? && job.check(job.transform(k, b).value).Ok?)
  }

  predicate Faultless(l: Label) {
    l != Cancel && (l.Perform? ==> l.failure.None?)
  }

  ghost predicate Unharmed(s: State) {
    !s.cancelled && (s.consumer.Joining? ==> s.consumer.consumed.Ok?) && (s.consumer.Finished? ==> s.consumer.result.Ok?) &&
    (s.producer.Sending? ==> s.producer.message.Ok?) && (forall k :: 0 <= k < |s.queue| ==> s.queue[k].Ok?)
  }

  lemma StaysUnharmed(job: Job, s: State, l: Label)
    requires Healthy(job) && Inv(job, s) && Enabled(job, s, l) && Faultless(l) && Unharmed(s)
    ensures Unharmed(Apply(job, s, l))
  {
    match l
    case ReadNext => ReadStaysUnharmed(job, s);
    case Enqueue => assert forall k :: 0 <= k < |s.queue| ==> (s.queue + [s.producer.message])[k] == s.queue[k];
    case Perform(_) =>
      if s.consumer.Working? {
        var k, b := |s.written|, s.consumer.batch;
        assert job.transform(k, b).Ok? && job.check(job.transform(k, b).value).Ok?;
      }
    case _ =>
  }

  lemma ReadStaysUnharmed(job: Job, s: State)
    requires Healthy(job) && Enabled(job, s, ReadNext) && Unharmed(s)
    ensures Unharmed(AfterRead(job, s))
  {
    if s.producer.next < |job.input.value| {
      assert job.input.value[s.producer.next].Ok?;
    }
  }

  /** Without cancellation or failures every schedule that ends has published the complete output. */
  lemma {:induction false} HealthyRunPublishes(job: Job, states: seq<State>, labels: seq<Label>, i: nat)
    requires Healthy(job) && IsRun(job, states, labels) && !states[0].cancelled && i < |states|
    requires forall k :: 0 <= k < |labels| ==> Faultless(labels[k])
    ensures Unharmed(states[i])
    ensures Final(states[i]) ==> states[i].consumer == Finished(Ok(())) && states[i].output.Published?
  {
    if i > 0 {
      HealthyRunPublishes(job, states, labels, i - 1);
      RunInv(job, states, labels, i - 1);
      StaysUnharmed(job, states[i - 1], labels[i - 1]);
    }
    RunInv(job, states, labels, i);
  }

  // ---------- tuning changes nothing ----------

  /** The job writes its rows as they are. */
  ghost predicate Untransformed(job: Job) {
    (forall b :: job.build(b).Ok? ==> job.build(b).value == b) && (forall k, b :: job.transform(k, b) == Ok(b))
  }

  lemma CompleteRows(job: Job, written: seq<Batch>)
    requires Untransformed(job) && Complete(job, written)
    ensures Flatten(written) == RowsOf(job.input.value)
  {
    var rows := RowsOf(job.input.value);
    var chunks := Chunks(rows, job.batchSize);
    forall k | 0 <= k < |chunks| ensures written[k] == chunks[k] {
      assert job.transform(k, job.build(chunks[k]).value) == Ok(written[k]);
    }
    assert written == chunks;
    ChunksFlatten(rows, job.batchSize);
  }

  /** Two runs of one input report the same rows and digest, whatever their batch sizes and capacities. */
  lemma TuningIsInvisible(hash: Hash, a: Job, x: seq<Batch>, b: Job, y: seq<Batch>)
    requires a.input == b.input && Untransformed(a) && Untransformed(b) && Complete(a, x) && Complete(b, y)
    ensures ReportOf(hash, x).rows == ReportOf(hash, y).rows && ReportOf(hash, x).digest == ReportOf(hash, y).digest
  {
    CompleteRows(a, x);
    CompleteRows(b, y);
  }
}
