/**
 * The two-thread pipeline as a state machine: a producer that parses and cuts the input, a consumer
 * that transforms, writes and publishes, a bounded channel between them and a canceller beside both.
 * Capacity zero makes the channel a rendezvous.
 */
module BoundedProtocol {
  import opened Wrappers
  import opened Chunking

  type Cause = string

  type Message = Result<Batch, Cause>

  datatype LocalPhase = Create | Write | Close | FileSync | Rename | ParentSync

  datatype LocalOutcome = NotPublished | PublishedDurabilityUncertain

  datatype Failure =
    | Cancelled
    | Io(cause: Cause)
    | LocalPublication(phase: LocalPhase, outcome: LocalOutcome, cause: Cause)

  /** The failure of a local operation, with what it implies for the final path. */
  function LocalFailure(phase: LocalPhase, cause: Cause): Failure {
    LocalPublication(phase, if phase == ParentSync then PublishedDurabilityUncertain else NotPublished, cause)
  }

  /** One run's input and callbacks; `transform` sees the index of the batch it is given. */
  datatype Job = Job(
    input: Result<seq<Result<Row, Cause>>, Cause>,
    batchSize: nat,
    capacity: nat,
    build: Batch -> Result<Batch, Cause>,
    transform: (nat, Batch) -> Result<Batch, Cause>,
    check: Batch -> Result<(), Cause>)

  /** What the writer is given for the batch of this index. */
  function Prepare(job: Job, index: nat, batch: Batch): Result<Batch, Cause> {
    match job.transform(index, batch)
    case Err(e) => Err(e)
    case Ok(b) =>
      match job.check(b)
      case Err(e) => Err(e)
      case Ok(_) => Ok(b)
  }

  /** The transform comes first; its result is checked, and is what is written. */
  lemma PrepareMeaning(job: Job, index: nat, batch: Batch)
    ensures forall b :: Prepare(job, index, batch) == Ok(b) <==> job.transform(index, batch) == Ok(b) && job.check(b).Ok?
    ensures forall e :: Prepare(job, index, batch) == Err(e) <==> FailsWith(job, index, batch, e)
  {
  }

  /** The transform's error at this index or, when it succeeds, the check's error on its result. */
  ghost predicate FailsWith(job: Job, index: nat, batch: Batch, e: Cause) {
    job.transform(index, batch) == Err(e) ||
    exists b :: job.transform(index, batch) == Ok(b) && job.check(b) == Err(e)
  }

  /** What the producer does once its message is sent. */
  datatype Resume = ReadOn(next: nat) | Return

  datatype Producer =
    | Unspawned
    | Opening
    | Reading(next: nat, chunk: Batch)
    | Sending(message: Message, resume: Resume)
    | Returned(production: Result<(), Failure>)

  datatype Consumer =
    | Starting
    | Staging
    | OpeningWriter
    | Entering
    | Receiving
    | Checking(batch: Batch)
    | Working(batch: Batch)
    | Draining
    | Closing
    | Joining(consumed: Result<(), Failure>)
    | Deciding
    | Publishing
    | Renaming
    | SyncingParent
    | Finished(result: Result<(), Failure>)

  /** What the final path shows: whatever was there before the run, or the batches it published. */
  datatype Output = Previous | Published(batches: seq<Batch>)

  datatype State = State(
    cancelled: bool,
    queue: seq<Message>,
    producer: Producer,
    consumer: Consumer,
    written: seq<Batch>,
    output: Output,
    // history: rows cut so far, every message sent and every message received
    cut: seq<Batch>,
    sent: seq<Message>,
    received: seq<Message>)

  datatype Label =
    | Cancel
    | OpenInput
    | ReadNext
    | Enqueue
    | SendFails
    | Rendezvous
    | CheckCancelled
    | Perform(failure: Option<Cause>)
    | Receive
    | Disconnected
    | Join

  predicate SenderOpen(p: Producer) {
    p.Opening? || p.Reading? || p.Sending?
  }

  predicate ReceiverOpen(c: Consumer) {
    c.Entering? || c.Receiving? || c.Checking? || c.Working? || c.Draining? || c.Closing?
  }

  predicate Enabled(job: Job, s: State, l: Label) {
    match l
    case Cancel => !s.cancelled
    case OpenInput => s.producer.Opening?
    case ReadNext => s.producer.Reading? && job.input.Ok? && s.producer.next <= |job.input.value|
    case Enqueue => s.producer.Sending? && ReceiverOpen(s.consumer) && |s.queue| < job.capacity
    case SendFails => s.producer.Sending? && !ReceiverOpen(s.consumer)
    case Rendezvous => s.producer.Sending? && s.consumer.Receiving? && job.capacity == 0
    case CheckCancelled =>
      s.consumer.Starting? || s.consumer.Entering? || s.consumer.Checking? || s.consumer.Draining? || s.consumer.Deciding?
    case Perform(_) =>
      || s.consumer.Staging? || s.consumer.OpeningWriter? || s.consumer.Working? || s.consumer.Closing?
      || s.consumer.Publishing? || s.consumer.Renaming? || s.consumer.SyncingParent?
    case Receive => s.consumer.Receiving? && s.queue != []
    case Disconnected => s.consumer.Receiving? && s.queue == [] && !SenderOpen(s.producer)
    case Join => s.consumer.Joining? && !SenderOpen(s.producer)
  }

  function Resumed(r: Resume): Producer {
    match r
    case ReadOn(next) => Reading(next, [])
    case Return => Returned(Ok(()))
  }

  /** The consumer leaves with an error, dropping its end of the channel and every queued message. */
  function Leave(s: State, failure: Failure): State {
    s.(consumer := if ReceiverOpen(s.consumer) then Joining(Err(failure)) else Finished(Err(failure)), queue := [])
  }

  /** The consumer has taken one message out of the channel. */
  function Taken(s: State, m: Message): State {
    var t := s.(received := s.received + [m]);
    match m
    case Ok(b) => t.(consumer := Checking(b))
    case Err(e) => Leave(t, Io(e))
  }

  function AfterRead(job: Job, s: State): State
    requires Enabled(job, s, ReadNext)
  {
    var records, next, chunk := job.input.value, s.producer.next, s.producer.chunk;
    if next == |records| then
      if chunk != [] && !s.cancelled then s.(producer := Sending(job.build(chunk), Return), cut := s.cut + [chunk])
      else s.(producer := Returned(Ok(())))
    else if s.cancelled then s.(producer := Returned(Ok(())))
    else
      match records[next]
      case Err(e) => s.(producer := Sending(Err(e), Return))
      case Ok(row) =>
        var more := chunk + [row];
        if |more| == job.batchSize then s.(producer := Sending(job.build(more), ReadOn(next + 1)), cut := s.cut + [more])
        else s.(producer := Reading(next + 1, more))
  }

  function AfterPerform(job: Job, s: State, failure: Option<Cause>): State
    requires Enabled(job, s, Perform(failure))
  {
    match s.consumer
    case Staging =>
      if failure.Some? then Leave(s, LocalFailure(Create, failure.value)) else s.(consumer := OpeningWriter)
    case OpeningWriter =>
      if failure.Some? then Leave(s, LocalFailure(Write, failure.value))
      else s.(consumer := Entering, producer := Opening)
    case Working(batch) =>
      (match Prepare(job, |s.written|, batch)
       case Err(e) => Leave(s, Io(e))
       case Ok(b) =>
         if failure.Some? then Leave(s, LocalFailure(Write, failure.value))
         else s.(consumer := Receiving, written := s.written + [b]))
    case Closing =>
      if failure.Some? then Leave(s, LocalFailure(Close, failure.value))
      else s.(consumer := Joining(Ok(())), queue := [])
    case Publishing =>
      if failure.Some? then Leave(s, LocalFailure(FileSync, failure.value)) else s.(consumer := Renaming)
    case Renaming =>
      if failure.Some? then Leave(s, LocalFailure(Rename, failure.value))
      else s.(consumer := SyncingParent, output := Published(s.written))
    case SyncingParent =>
      if failure.Some? then Leave(s, LocalFailure(ParentSync, failure.value)) else s.(consumer := Finished(Ok(())))
    case _ => s
  }

  function AfterCheck(s: State): Consumer {
    match s.consumer
    case Starting => Staging
    case Entering => Receiving
    case Checking(b) => Working(b)
    case Draining => Closing
    case Deciding => Publishing
    case c => c
  }

  function Apply(job: Job, s: State, l: Label): State
    requires Enabled(job, s, l)
  {
    match l
    case Cancel => s.(cancelled := true)
    case OpenInput =>
      s.(producer := if job.input.Ok? then Reading(0, []) else Sending(Err(job.input.error), Return))
    case ReadNext => AfterRead(job, s)
    case Enqueue =>
      s.(queue := s.queue + [s.producer.message], sent := s.sent + [s.producer.message], producer := Resumed(s.producer.resume))
    case SendFails => s.(producer := Returned(Err(Cancelled)))
    case Rendezvous =>
      Taken(s.(sent := s.sent + [s.producer.message], producer := Resumed(s.producer.resume)), s.producer.message)
    case CheckCancelled => if s.cancelled then Leave(s, Cancelled) else s.(consumer := AfterCheck(s))
    case Perform(failure) => AfterPerform(job, s, failure)
    case Receive => Taken(s.(queue := s.queue[1..]), s.queue[0])
    case Disconnected => s.(consumer := Draining)
    case Join =>
      match s.consumer.consumed
      case Err(e) => s.(consumer := Finished(Err(e)))
      case Ok(_) =>
        match s.producer
        case Returned(Err(e)) => s.(consumer := Finished(Err(e)))
        case _ => s.(consumer := Deciding)
  }

  predicate Initial(s: State) {
    s.producer.Unspawned? && s.consumer.Starting? && s.queue == [] && s.written == [] &&
    s.output.Previous? && s.cut == [] && s.sent == [] && s.received == []
  }

  /** Both threads are done, or the second was never started. */
  predicate Final(s: State) {
    s.consumer.Finished? && !SenderOpen(s.producer)
  }

  // ---------- what every reachable state keeps ----------

  /** The parsed rows, for an input whose first `count` records all parse. */
  ghost function RowsOf(records: seq<Result<Row, Cause>>): seq<Row>
    requires forall k :: 0 <= k < |records| ==> records[k].Ok?
  {
    seq(|records|, k requires 0 <= k < |records| => records[k].value)
  }

  ghost predicate Parsed(job: Job, count: nat) {
    job.input.Ok? && count <= |job.input.value| && forall k :: 0 <= k < count ==> job.input.value[k].Ok?
  }

  ghost function ParsedRows(job: Job, count: nat): seq<Row>
    requires Parsed(job, count)
  {
    RowsOf(job.input.value[..count])
  }

  /** The whole input was parsed, cut into full batches and a shorter last one, and sent. */
  ghost predicate AllSent(job: Job, s: State) {
    job.batchSize > 0 && job.input.Ok? && Parsed(job, |job.input.value|) &&
    s.cut == Chunks(ParsedRows(job, |job.input.value|), job.batchSize) && SentAre(job, s.sent, s.cut)
  }

  ghost predicate SentAre(job: Job, sent: seq<Message>, cut: seq<Batch>) {
    |sent| == |cut| && forall k :: 0 <= k < |cut| ==> sent[k] == job.build(cut[k])
  }

  ghost predicate HasError(messages: seq<Message>) {
    exists k :: 0 <= k < |messages| && messages[k].Err?
  }

  /** The first `next` records are exactly the rows cut so far and those of the open chunk. */
  ghost predicate Cut(job: Job, s: State, next: nat, chunk: Batch) {
    Parsed(job, next) && ParsedRows(job, next) == Flatten(s.cut) + chunk &&
    AllFull(s.cut, job.batchSize) && |chunk| < job.batchSize
  }

  ghost predicate ProducerInv(job: Job, s: State) {
    match s.producer
    case Unspawned | Opening => s.sent == [] && s.cut == []
    case Reading(next, chunk) => Cut(job, s, next, chunk) && SentAre(job, s.sent, s.cut)
    case Sending(m, ReadOn(next)) => Cut(job, s, next, []) && SentAre(job, s.sent + [m], s.cut)
    case Sending(m, Return) => AllSent(job, s.(sent := s.sent + [m])) || HasError(s.sent + [m])
    case Returned(Ok(_)) => s.cancelled || AllSent(job, s) || HasError(s.sent)
    case Returned(Err(_)) => !ReceiverOpen(s.consumer)
  }

  /** The batches received so far were all good, and each of the first `count` was written. */
  ghost predicate Written(job: Job, s: State, count: nat) {
    count == |s.written| <= |s.received| &&
    (forall k :: 0 <= k < |s.received| ==> s.received[k].Ok?) &&
    forall k :: 0 <= k < count ==> Prepare(job, k, s.received[k].value) == Ok(s.written[k])
  }

  /** Everything sent was received, written and closed, and the producer has returned. */
  ghost predicate Drained(job: Job, s: State) {
    Written(job, s, |s.received|) && s.received == s.sent && s.queue == [] && s.producer.Returned?
  }

  /** The consumer holds the batch it received last; all earlier ones are written. */
  ghost predicate Holding(job: Job, s: State, b: Batch) {
    s.received != [] && s.received[|s.received| - 1] == Ok(b) && Written(job, s, |s.received| - 1)
  }

  ghost predicate ConsumerInv(job: Job, s: State) {
    match s.consumer
    case Starting | Staging | OpeningWriter => s.written == [] && s.received == [] && s.producer.Unspawned?
    case Entering | Receiving => Written(job, s, |s.received|)
    case Checking(b) => Holding(job, s, b)
    case Working(b) => Holding(job, s, b)
    case Draining | Closing => Drained(job, s)
    case Joining(Ok(_)) | Deciding => Drained(job, s) && s.producer.production.Ok?
    case Publishing | Renaming | SyncingParent | Finished(Ok(_)) => Drained(job, s) && AllSent(job, s)
    case Joining(Err(_)) | Finished(Err(_)) => true
  }

  ghost predicate Unpublished(f: Failure) {
    f.LocalPublication? ==> f.outcome.NotPublished?
  }

  ghost predicate OutputInv(job: Job, s: State) {
    match s.output
    case Previous =>
      !s.consumer.SyncingParent? &&
      (s.consumer.Joining? && s.consumer.consumed.Err? ==> Unpublished(s.consumer.consumed.error)) &&
      (s.consumer.Finished? ==> s.consumer.result.Err? && Unpublished(s.consumer.result.error)) &&
      (s.producer.Returned? && s.producer.production.Err? ==> Unpublished(s.producer.production.error))
    case Published(batches) =>
      batches == s.written && Drained(job, s) && AllSent(job, s) &&
      match s.consumer
      case SyncingParent | Finished(Ok(_)) => true
      case Finished(Err(f)) => f.LocalPublication? && f.phase.ParentSync? && f.outcome.PublishedDurabilityUncertain?
      case _ => false
  }

  ghost predicate ChannelInv(job: Job, s: State) {
    |s.queue| <= job.capacity &&
    (s.producer.Unspawned? ==> s.consumer.Starting? || s.consumer.Staging? || s.consumer.OpeningWriter? || s.consumer.Finished?) &&
    (if ReceiverOpen(s.consumer) then s.sent == s.received + s.queue else s.queue == [])
  }

  ghost predicate Inv(job: Job, s: State) {
    job.batchSize > 0 && ChannelInv(job, s) && ProducerInv(job, s) && ConsumerInv(job, s) && OutputInv(job, s)
  }

  // ---------- every step keeps it ----------

  lemma InitialInv(job: Job, s: State)
    requires job.batchSize > 0 && Initial(s)
    ensures Inv(job, s)
  {
  }

  lemma StepInv(job: Job, s: State, l: Label)
    requires Inv(job, s) && Enabled(job, s, l)
    ensures Inv(job, Apply(job, s, l))
  {
    match l
    case Cancel => CancelInv(job, s);
    case OpenInput | ReadNext | Enqueue | SendFails | Rendezvous => ProducerStepInv(job, s, l);
    case _ => ConsumerStepInv(job, s, l);
  }

  lemma ProducerStepInv(job: Job, s: State, l: Label)
    requires Inv(job, s) && Enabled(job, s, l)
    requires l.OpenInput? || l.ReadNext? || l.Enqueue? || l.SendFails? || l.Rendezvous?
    ensures Inv(job, Apply(job, s, l))
  {
    match l
    case OpenInput => OpenInputInv(job, s);
    case ReadNext => ReadNextInv(job, s);
    case Enqueue => EnqueueInv(job, s);
    case SendFails => SendFailsInv(job, s);
    case Rendezvous => RendezvousInv(job, s);
  }

  lemma ConsumerStepInv(job: Job, s: State, l: Label)
    requires Inv(job, s) && Enabled(job, s, l)
    requires l.CheckCancelled? || l.Perform? || l.Receive? || l.Disconnected? || l.Join?
    ensures Inv(job, Apply(job, s, l))
  {
    match l
    case CheckCancelled => CheckInv(job, s);
    case Perform(failure) => PerformInv(job, s, failure);
    case Receive => ReceiveInv(job, s);
    case Disconnected => DisconnectedInv(job, s);
    case Join => JoinInv(job, s);
  }

  lemma CancelInv(job: Job, s: State)
    requires Inv(job, s) && Enabled(job, s, Cancel)
    ensures Inv(job, Apply(job, s, Cancel))
  {
  }

  lemma SendFailsInv(job: Job, s: State)
    requires Inv(job, s) && Enabled(job, s, SendFails)
    ensures Inv(job, Apply(job, s, SendFails))
  {
  }

  lemma ErrorLast(messages: seq<Message>, m: Message)
    ensures m.Err? ==> HasError(messages + [m])
  {
    assert (messages + [m])[|messages|] == m;
  }

  lemma OpenInputInv(job: Job, s: State)
    requires Inv(job, s) && Enabled(job, s, OpenInput)
    ensures Inv(job, Apply(job, s, OpenInput))
  {
    if job.input.Err? {
      ErrorLast(s.sent, Err(job.input.error));
    }
  }

  /** One more parsed record either joins the open chunk or completes it. */
  lemma CutGrows(job: Job, s: State, next: nat, chunk: Batch)
    requires Cut(job, s, next, chunk) && next < |job.input.value| && job.input.value[next].Ok?
    ensures var more := chunk + [job.input.value[next].value];
      if |more| == job.batchSize then Cut(job, s.(cut := s.cut + [more]), next + 1, []) else Cut(job, s, next + 1, more)
  {
    var records := job.input.value;
    var more := chunk + [records[next].value];
    assert Parsed(job, next + 1);
    assert records[..next + 1] == records[..next] + [records[next]];
    assert ParsedRows(job, next + 1) == ParsedRows(job, next) + [records[next].value];
    assert Flatten(s.cut) + chunk + [records[next].value] == Flatten(s.cut) + more;
    if |more| == job.batchSize {
      FlattenSnoc(s.cut, more);
      assert Flatten(s.cut + [more]) + [] == Flatten(s.cut) + more;
    }
  }

  lemma SentOne(job: Job, s: State, chunk: Batch)
    requires SentAre(job, s.sent, s.cut)
    ensures SentAre(job, s.sent + [job.build(chunk)], s.cut + [chunk])
  {
  }

  /** At the end of the input what was cut and what is left are the chunks of the whole input. */
  lemma CutComplete(job: Job, s: State, chunk: Batch)
    requires job.batchSize > 0 && job.input.Ok? && Cut(job, s, |job.input.value|, chunk) && SentAre(job, s.sent, s.cut)
    ensures chunk == [] ==> AllSent(job, s)
    ensures chunk != [] ==> AllSent(job, s.(cut := s.cut + [chunk], sent := s.sent + [job.build(chunk)]))
  {
    CutsAreChunks(s.cut, chunk, job.batchSize);
    assert job.input.value[..|job.input.value|] == job.input.value;
    if chunk == [] {
      assert s.cut + [] == s.cut;
    } else {
      SentOne(job, s, chunk);
    }
  }

  lemma ReadNextInv(job: Job, s: State)
    requires Inv(job, s) && Enabled(job, s, ReadNext)
    ensures Inv(job, Apply(job, s, ReadNext))
  {
    ReadNextProducer(job, s);
    OnlyProducerMoves(job, s, Apply(job, s, ReadNext));
  }

  /** A step of a producer that is reading touches nothing of the consumer's. */
  lemma OnlyProducerMoves(job: Job, s: State, t: State)
    requires Inv(job, s) && s.producer.Reading? && t.(producer := s.producer, cut := s.cut) == s
    requires ProducerInv(job, t) && !t.producer.Unspawned? && (t.producer.Returned? ==> t.producer.production.Ok?)
    ensures Inv(job, t)
  {
  }

  lemma ReadNextProducer(job: Job, s: State)
    requires Inv(job, s) && Enabled(job, s, ReadNext)
    ensures ProducerInv(job, Apply(job, s, ReadNext))
  {
    var records, next, chunk := job.input.value, s.producer.next, s.producer.chunk;
    if next == |records| {
      CutComplete(job, s, chunk);
    } else if !s.cancelled {
      if records[next].Ok? {
        CutGrows(job, s, next, chunk);
        SentOne(job, s, chunk + [records[next].value]);
      } else {
        ErrorLast(s.sent, Err(records[next].error));
      }
    }
  }

  lemma EnqueueInv(job: Job, s: State)
    requires Inv(job, s) && Enabled(job, s, Enqueue)
    ensures Inv(job, Apply(job, s, Enqueue))
  {
  }

  lemma RendezvousInv(job: Job, s: State)
    requires Inv(job, s) && Enabled(job, s, Rendezvous)
    ensures Inv(job, Apply(job, s, Rendezvous))
  {
    var t := s.(sent := s.sent + [s.producer.message], producer := Resumed(s.producer.resume));
    assert ProducerInv(job, t);
    TakenInv(job, s, t, s.producer.message);
  }

  lemma CheckInv(job: Job, s: State)
    requires Inv(job, s) && Enabled(job, s, CheckCancelled)
    ensures Inv(job, Apply(job, s, CheckCancelled))
  {
    if s.cancelled {
      LeaveInv(job, s, Cancelled);
    }
  }

  /** Before anything is published the consumer may leave with any failure that says so. */
  lemma LeaveInv(job: Job, s: State, f: Failure)
    requires Inv(job, s) && s.output.Previous? && Unpublished(f)
    requires ReceiverOpen(s.consumer) || s.consumer.Starting? || s.consumer.Deciding? || s.consumer.Publishing? || s.consumer.Renaming?
    ensures Inv(job, Leave(s, f))
  {
  }

  lemma PerformInv(job: Job, s: State, failure: Option<Cause>)
    requires Inv(job, s) && Enabled(job, s, Perform(failure))
    ensures Inv(job, Apply(job, s, Perform(failure)))
  {
    var t := Apply(job, s, Perform(failure));
    if s.consumer.Working? {
      WorkInv(job, s, failure);
    } else if ReceiverOpen(s.consumer) || s.consumer.Staging? || s.consumer.OpeningWriter? {
      assert t.output.Previous?;
    } else {
      PublishInv(job, s, failure);
    }
  }

  lemma WorkInv(job: Job, s: State, failure: Option<Cause>)
    requires Inv(job, s) && s.consumer.Working?
    ensures Inv(job, Apply(job, s, Perform(failure)))
  {
    match Prepare(job, |s.written|, s.consumer.batch)
    case Err(e) => LeaveInv(job, s, Io(e));
    case Ok(b) =>
      if failure.Some? {
        LeaveInv(job, s, LocalFailure(Write, failure.value));
      } else {
        WroteInv(job, s, b);
      }
  }

  lemma WroteInv(job: Job, s: State, b: Batch)
    requires Inv(job, s) && s.consumer.Working? && Prepare(job, |s.written|, s.consumer.batch) == Ok(b)
    ensures Inv(job, s.(consumer := Receiving, written := s.written + [b]))
  {
    assert s.output.Previous?;
    assert Written(job, s.(written := s.written + [b]), |s.received|);
  }

  lemma PublishInv(job: Job, s: State, failure: Option<Cause>)
    requires Inv(job, s) && (s.consumer.Publishing? || s.consumer.Renaming? || s.consumer.SyncingParent?)
    ensures Inv(job, Apply(job, s, Perform(failure)))
  {
    if failure.Some? && !s.consumer.SyncingParent? {
      LeaveInv(job, s, LocalFailure(if s.consumer.Publishing? then FileSync else Rename, failure.value));
    }
  }

  lemma ReceiveInv(job: Job, s: State)
    requires Inv(job, s) && Enabled(job, s, Receive)
    ensures Inv(job, Apply(job, s, Receive))
  {
    TakenInv(job, s, s.(queue := s.queue[1..]), s.queue[0]);
  }

  /** The consumer takes the oldest message it has not received, out of the queue or straight from the producer. */
  lemma TakenInv(job: Job, s: State, t: State, m: Message)
    requires Inv(job, s) && s.consumer.Receiving?
    requires t == s.(queue := t.queue, sent := t.sent, producer := t.producer)
    requires |t.queue| <= job.capacity && t.sent == s.received + [m] + t.queue
    requires ProducerInv(job, t) && !t.producer.Unspawned?
    requires t.producer.Returned? && t.producer.production.Err? ==> t.producer == s.producer
    ensures Inv(job, Taken(t, m))
  {
    assert s.output.Previous?;
    match m
    case Ok(b) => HoldsLast(job, t, b);
    case Err(_) =>
  }

  lemma HoldsLast(job: Job, s: State, b: Batch)
    requires Written(job, s, |s.received|)
    ensures Holding(job, s.(received := s.received + [Ok(b)]), b)
  {
  }

  lemma DisconnectedInv(job: Job, s: State)
    requires Inv(job, s) && Enabled(job, s, Disconnected)
    ensures Inv(job, Apply(job, s, Disconnected))
  {
  }

  lemma JoinInv(job: Job, s: State)
    requires Inv(job, s) && Enabled(job, s, Join)
    ensures Inv(job, Apply(job, s, Join))
  {
  }
}
