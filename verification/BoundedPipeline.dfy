/** The pipeline's threads as code: every shared action is one step of the protocol, interleaved freely. */
module BoundedPipeline {
  import opened Wrappers
  import opened Chunking
  import opened BoundedProtocol
  import opened BoundedLaws
  import opened BoundedCauses
  import opened Digest

  /** Who takes a step: the producer thread, the consumer's (calling) thread, or somebody cancelling. */
  datatype Thread = ProducerThread | ConsumerThread

  /** The steps the other components may take while `me` is between two of its own. */
  predicate ByOthers(me: Thread, s: State, l: Label) {
    match l
    case Cancel => true
    case OpenInput | ReadNext | Enqueue | SendFails => me.ConsumerThread?
    case CheckCancelled | Perform(_) | Receive | Disconnected | Join | Rendezvous => me.ProducerThread?
  }

  /** What the other components leave alone: a thread moves only by its own steps, or when its send is taken. */
  ghost predicate Kept(me: Thread, a: State, b: State) {
    (a.cancelled ==> b.cancelled) &&
    match me
    case ConsumerThread => b.consumer == a.consumer && b.written == a.written && b.received == a.received && b.output == a.output
    case ProducerThread =>
      b.cut == a.cut &&
      if b.producer == a.producer then b.sent == a.sent
      else a.producer.Sending? && b.producer == Resumed(a.producer.resume) && b.sent == a.sent + [a.producer.message]
  }

  lemma OthersKeep(job: Job, me: Thread, s: State, l: Label)
    requires Inv(job, s) && Enabled(job, s, l) && ByOthers(me, s, l)
    requires me.ProducerThread? ==> !s.producer.Unspawned?
    ensures Kept(me, s, Apply(job, s, l))
  {
  }

  /** A local operation depends on the consumer's own state only. */
  lemma PerformSeesOwnState(job: Job, a: State, b: State, failure: Option<Cause>)
    requires Enabled(job, a, Perform(failure)) && Kept(ConsumerThread, a, b)
    ensures Enabled(job, b, Perform(failure))
    ensures Kept(ConsumerThread, AfterPerform(job, a, failure).(cancelled := false), AfterPerform(job, b, failure))
  {
  }

  /** A run in progress: the shared state, with the schedule that led to it. */
  class Machine {
    const job: Job
    var s: State
    ghost var states: seq<State>
    ghost var labels: seq<Label>

    ghost predicate Valid()
      reads this
    {
      job.batchSize > 0 && IsRun(job, states, labels) && s == states[|states| - 1] && Inv(job, s)
    }

    constructor (job: Job, cancelled: bool)
      requires job.batchSize > 0
      ensures Valid() && this.job == job && Initial(s) && s.cancelled == cancelled
    {
      this.job := job;
      s := State(cancelled, [], Unspawned, Starting, [], Previous, [], [], []);
      states := [State(cancelled, [], Unspawned, Starting, [], Previous, [], [], [])];
      labels := [];
      new;
      InitialInv(job, s);
    }

    method Do(l: Label)
      requires Valid() && Enabled(job, s, l)
      modifies this
      ensures Valid() && s == Apply(job, old(s), l)
      ensures Rank(job, s) < Rank(job, old(s))
    {
      StepInv(job, s, l);
      StepLowersRank(job, s, l);
      s := Apply(job, s, l);
      states := states + [s];
      labels := labels + [l];
    }

    /** The other components take any number of steps. */
    method Others(me: Thread)
      requires Valid() && (me.ProducerThread? ==> !s.producer.Unspawned?)
      modifies this
      ensures Valid() && Kept(me, old(s), s) && Rank(job, s) <= Rank(job, old(s))
    {
      var l: Label := *;
      while Enabled(job, s, l) && ByOthers(me, s, l)
        invariant Valid() && Kept(me, old(s), s) && Rank(job, s) <= Rank(job, old(s))
        decreases Rank(job, s)
      {
        OthersKeep(job, me, s, l);
        Do(l);
        l := *;
      }
    }

    /** A blocked thread waits until some other component has moved, which one always can. */
    method Await(me: Thread)
      requires Valid() && !Final(s) && ByOthers(me, s, SomeStep(job, s))
      requires me.ProducerThread? ==> !s.producer.Unspawned?
      modifies this
      ensures Valid() && Kept(me, old(s), s) && Rank(job, s) < Rank(job, old(s))
    {
      NeverStuck(job, s);
      var l: Label := *;
      if !Enabled(job, s, l) || !ByOthers(me, s, l) {
        l := SomeStep(job, s);
      }
      OthersKeep(job, me, s, l);
      Do(l);
    }

    /** Blocks until the message is in the channel or the receiver is gone. */
    method Send() returns (sent: bool)
      requires Valid() && s.producer.Sending?
      modifies this
      ensures Valid() && Rank(job, s) < Rank(job, old(s))
      ensures (old(s.cancelled) ==> s.cancelled) && s.cut == old(s.cut)
      ensures s.producer == if sent then Resumed(old(s.producer.resume)) else Returned(Err(Cancelled))
      ensures s.sent == if sent then old(s.sent) + [old(s.producer.message)] else old(s.sent)
    {
      while s.producer.Sending?
        invariant Valid() && Kept(ProducerThread, old(s), s)
        invariant Rank(job, s) <= Rank(job, old(s))
        invariant !s.producer.Sending? ==> Rank(job, s) < Rank(job, old(s))
        decreases Rank(job, s)
      {
        if Enabled(job, s, Enqueue) {
          Do(Enqueue);
          return true;
        } else if Enabled(job, s, SendFails) {
          Do(SendFails);
          return false;
        }
        Await(ProducerThread);
      }
      return true;
    }

    /** Blocks until a message arrives or the channel is closed and empty. */
    method Recv()
      requires Valid() && s.consumer.Receiving?
      modifies this
      ensures Valid() && !s.consumer.Receiving? && Rank(job, s) < Rank(job, old(s))
      ensures s.written == old(s.written) && s.output == old(s.output)
      ensures s.consumer.Checking? || s.consumer.Draining? || (s.consumer.Joining? && s.consumer.consumed.Err?)
    {
      while !Enabled(job, s, Receive) && !Enabled(job, s, Disconnected) && !Enabled(job, s, Rendezvous)
        invariant Valid() && Kept(ConsumerThread, old(s), s) && Rank(job, s) <= Rank(job, old(s))
        decreases Rank(job, s)
      {
        Await(ConsumerThread);
      }
      if Enabled(job, s, Receive) {
        Do(Receive);
      } else if Enabled(job, s, Disconnected) {
        Do(Disconnected);
      } else {
        Do(Rendezvous);
      }
    }

    /** Reads the cancellation flag and acts on it. */
    method CheckCancelled() returns (stop: bool)
      requires Valid() && Enabled(job, s, Label.CheckCancelled)
      modifies this
      ensures Valid() && Rank(job, s) < Rank(job, old(s))
      ensures s.written == old(s.written) && s.output == old(s.output)
      ensures s.consumer == if stop then Leave(old(s), Cancelled).consumer else AfterCheck(old(s))
    {
      Others(ConsumerThread);
      stop := s.cancelled;
      Do(Label.CheckCancelled);
    }

    /** Performs a local operation that may fail for any reason. */
    method Perform() returns (failure: Option<Cause>)
      requires Valid() && Enabled(job, s, Label.Perform(None))
      modifies this
      ensures Valid() && Rank(job, s) < Rank(job, old(s))
      ensures s.consumer == AfterPerform(job, old(s), failure).consumer
      ensures s.written == AfterPerform(job, old(s), failure).written
      ensures s.output == AfterPerform(job, old(s), failure).output
    {
      Others(ConsumerThread);
      failure := *;
      PerformSeesOwnState(job, old(s), s, failure);
      Do(Label.Perform(failure));
    }
  }

  // ---------- the producer thread ----------

  method SendLast(m: Machine) returns (production: Result<(), Failure>)
    requires m.Valid() && m.s.producer.Sending? && m.s.producer.resume.Return?
    modifies m
    ensures m.Valid() && m.s.producer == Returned(production)
  {
    var sent := m.Send();
    production := if sent then Ok(()) else Err(Cancelled);
  }

  method ProduceBatches(m: Machine) returns (production: Result<(), Failure>)
    requires m.Valid() && m.s.producer.Opening?
    modifies m
    ensures m.Valid() && m.s.producer == Returned(production)
    ensures production.Ok? ==> m.s.cancelled || AllSent(m.job, m.s) || HasError(m.s.sent)
  {
    m.Others(ProducerThread);
    m.Do(OpenInput);
    if m.job.input.Err? {
      production := SendLast(m);
      return;
    }
    var chunk: Batch := [];
    for rowIndex := 0 to |m.job.input.value|
      invariant m.Valid() && m.s.producer == Reading(rowIndex, chunk)
    {
      var more: Option<Batch>;
      more, production := TakeRecord(m, rowIndex, chunk);
      if more.None? {
        return;
      }
      chunk := more.value;
    }
    production := Finish(m, chunk);
  }

  /** One record: the open chunk afterwards, or None and what the thread returns. */
  method TakeRecord(m: Machine, rowIndex: nat, chunk: Batch) returns (more: Option<Batch>, production: Result<(), Failure>)
    requires m.Valid() && m.s.producer == Reading(rowIndex, chunk) && m.job.input.Ok? && rowIndex < |m.job.input.value|
    modifies m
    ensures m.Valid()
    ensures m.s.producer == if more.Some? then Reading(rowIndex + 1, more.value) else Returned(production)
  {
    var record := m.job.input.value[rowIndex];
    production := Ok(());
    more := None;
    m.Others(ProducerThread);
    var stop := m.s.cancelled;
    m.Do(ReadNext);
    if stop {
      return;
    }
    if record.Err? {
      production := SendLast(m);
      return;
    }
    var grown := chunk + [record.value];
    if |grown| == m.job.batchSize {
      grown := [];
      var sent := m.Send();
      if !sent {
        production := Err(Cancelled);
        return;
      }
    }
    more := Some(grown);
  }

  /** The end of the input: a shorter last chunk is sent unless the run was cancelled. */
  method Finish(m: Machine, chunk: Batch) returns (production: Result<(), Failure>)
    requires m.Valid() && m.job.input.Ok? && m.s.producer == Reading(|m.job.input.value|, chunk)
    modifies m
    ensures m.Valid() && m.s.producer == Returned(production)
  {
    m.Others(ProducerThread);
    var stop := chunk == [] || m.s.cancelled;
    m.Do(ReadNext);
    if stop {
      return Ok(());
    }
    production := SendLast(m);
  }

  // ---------- the consumer and the run ----------

  method ConsumeBatches(m: Machine, hash: Hash) returns (r: Result<PipelineReport, Failure>)
    requires m.Valid() && m.s.consumer.Entering? && m.s.written == []
    modifies m
    ensures m.Valid()
    ensures r.Ok? ==> m.s.consumer == Joining(Ok(())) && r.value == ReportOf(hash, m.s.written)
    ensures r.Err? ==> m.s.consumer == Joining(Err(r.error))
  {
    var stop := m.CheckCancelled();
    if stop {
      return Err(Cancelled);
    }
    var report := PipelineReport(0, 0, 0);
    while m.s.consumer.Receiving?
      invariant m.Valid() && (m.s.consumer.Receiving? || m.s.consumer.Draining?) && report == ReportOf(hash, m.s.written)
      decreases Rank(m.job, m.s)
    {
      r := ConsumeOne(m, hash, report);
      if r.Err? {
        return;
      }
      report := r.value;
    }
    stop := m.CheckCancelled();
    if stop {
      return Err(Cancelled);
    }
    var failure := m.Perform();
    if failure.Some? {
      return Err(LocalFailure(Close, failure.value));
    }
    return Ok(report);
  }

  /** Receives, checks, transforms and writes one batch, or finds the channel closed. */
  method ConsumeOne(m: Machine, hash: Hash, report: PipelineReport) returns (r: Result<PipelineReport, Failure>)
    requires m.Valid() && m.s.consumer.Receiving? && report == ReportOf(hash, m.s.written)
    modifies m
    ensures m.Valid() && Rank(m.job, m.s) < Rank(m.job, old(m.s))
    ensures r.Ok? ==> (m.s.consumer.Receiving? || m.s.consumer.Draining?) && r.value == ReportOf(hash, m.s.written)
    ensures r.Err? ==> m.s.consumer == Joining(Err(r.error)) && Caused(m.job, m.s, r.error)
  {
    m.Recv();
    Causes(m);
    if m.s.consumer.Draining? {
      return Ok(report);
    }
    if m.s.consumer.Joining? {
      return Err(m.s.consumer.consumed.error);
    }
    var stop := m.CheckCancelled();
    Causes(m);
    if stop {
      return Err(Cancelled);
    }
    var batch := Prepare(m.job, |m.s.written|, m.s.consumer.batch);
    ghost var written := m.s.written;
    var _ := m.Perform();
    Causes(m);
    if m.s.consumer.Joining? {
      return Err(m.s.consumer.consumed.error);
    }
    var counted := AccumulateBatchStats(hash, report, batch.value, written);
    return Ok(counted);
  }

  /** Waits for the producer, then makes the last cancellation check; None means publication may start. */
  method JoinProducer(m: Machine) returns (failure: Option<Failure>)
    requires m.Valid() && m.s.consumer.Joining?
    modifies m
    ensures m.Valid() && m.s.written == old(m.s.written)
    ensures failure.None? ==> m.s.consumer.Publishing?
    ensures failure.Some? ==> m.s.consumer == Finished(Err(failure.value))
    ensures var consumed := old(m.s.consumer.consumed); consumed.Err? ==> failure == Some(consumed.error)
  {
    while SenderOpen(m.s.producer)
      invariant m.Valid() && Kept(ConsumerThread, old(m.s), m.s)
      decreases Rank(m.job, m.s)
    {
      m.Await(ConsumerThread);
    }
    m.Do(Join);
    if m.s.consumer.Finished? {
      return Some(m.s.consumer.result.error);
    }
    var stop := m.CheckCancelled();
    failure := if stop then Some(Cancelled) else None;
  }

  /** Syncs the staged file, moves it into place and syncs its directory. */
  method PublishStaged(m: Machine) returns (failure: Option<Failure>)
    requires m.Valid() && m.s.consumer.Publishing?
    modifies m
    ensures m.Valid() && m.s.written == old(m.s.written)
    ensures m.s.consumer == Finished(if failure.None? then Ok(()) else Err(failure.value))
    ensures failure.Some? ==> failure.value.LocalPublication? && failure.value.phase in {FileSync, Rename, ParentSync}
  {
    var cause := m.Perform();
    if cause.Some? {
      return Some(LocalFailure(FileSync, cause.value));
    }
    cause := m.Perform();
    if cause.Some? {
      return Some(LocalFailure(Rename, cause.value));
    }
    cause := m.Perform();
    if cause.Some? {
      return Some(LocalFailure(ParentSync, cause.value));
    }
    return None;
  }

  /** Stages a writer; None means both threads may start. */
  method Prestart(m: Machine) returns (failure: Option<Failure>)
    requires m.Valid() && m.s.consumer.Starting?
    modifies m
    ensures m.Valid()
    ensures failure.None? ==> m.s.consumer.Entering? && m.s.written == []
    ensures failure.Some? ==> m.s.consumer == Finished(Err(failure.value))
  {
    var stop := m.CheckCancelled();
    if stop {
      return Some(Cancelled);
    }
    var cause := m.Perform();
    if cause.Some? {
      return Some(LocalFailure(Create, cause.value));
    }
    cause := m.Perform();
    if cause.Some? {
      return Some(LocalFailure(Write, cause.value));
    }
    return None;
  }

  /**
   * One run, with any schedule, any failures and any cancellation: either the final path is as it was,
   * or it shows every row of a fully parsed input, transformed chunk by chunk, and the result says which.
   */
  method RunBoundedPipeline(m: Machine, hash: Hash) returns (r: Result<PipelineReport, Failure>)
    requires m.Valid() && m.s.consumer.Starting?
    modifies m
    ensures m.Valid() && m.s.consumer == Finished(if r.Ok? then Ok(()) else Err(r.error))
    ensures m.s.output.Published? ==> Complete(m.job, m.s.output.batches)
    ensures r.Ok? ==> m.s.output.Published? && r.value == ReportOf(hash, m.s.output.batches)
    ensures r.Err? ==> (m.s.output.Published? <==> r.error.LocalPublication? && r.error.outcome.PublishedDurabilityUncertain?)
    ensures r.Err? ==> Caused(m.job, m.s, r.error)
  {
    var failure := Prestart(m);
    if failure.Some? {
      Told(m);
      return Err(failure.value);
    }
    var consumed := ConsumeBatches(m, hash);
    failure := JoinProducer(m);
    if failure.None? {
      failure := PublishStaged(m);
    }
    Told(m);
    if failure.Some? {
      return Err(failure.value);
    }
    return consumed;
  }

  lemma Causes(m: Machine)
    requires m.Valid()
    ensures CauseInv(m.job, m.s)
  {
    RunCauses(m.job, m.states, m.labels, |m.states| - 1);
  }

  lemma Told(m: Machine)
    requires m.Valid() && m.s.consumer.Finished?
    ensures m.s.consumer.result.Err? ==> Caused(m.job, m.s, m.s.consumer.result.error)
    ensures m.s.output.Published? ==> Complete(m.job, m.s.output.batches) && m.s.output.batches == m.s.written
    ensures var r := m.s.consumer.result; m.s.output.Published? <==>
      r.Ok? || (r.error.LocalPublication? && r.error.outcome.PublishedDurabilityUncertain?)
  {
    Causes(m);
    AllOrNothing(m.job, m.states, m.labels, |m.states| - 1);
    ResultIsHonest(m.job, m.states, m.labels, |m.states| - 1);
  }
}
