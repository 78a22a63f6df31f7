/** What the errors of a run mean: every one it reports has really happened. */
module BoundedCauses {
  import opened Wrappers
  import opened Chunking
  import opened BoundedProtocol
  import opened BoundedLaws

  /** The error is that of opening the input, of one of its records, or of building one of the chunks cut so far. */
  ghost predicate Sourced(job: Job, s: State, e: Cause) {
    || job.input == Err(e)
    || (job.input.Ok? && Err(e) in job.input.value)
    || exists chunk :: chunk in s.cut && job.build(chunk) == Err(e)
  }

  ghost predicate AllSourced(job: Job, s: State, messages: seq<Message>) {
    forall k :: 0 <= k < |messages| && messages[k].Err? ==> Sourced(job, s, messages[k].error)
  }

  /** The last thing received was this error, or a batch on which the transform or the check fails with it. */
  ghost predicate IoCaused(job: Job, s: State, e: Cause) {
    s.received != [] &&
    match s.received[|s.received| - 1]
    case Err(x) => x == e && Sourced(job, s, e)
    case Ok(b) => FailsWith(job, |s.written|, b, e)
  }

  ghost predicate Caused(job: Job, s: State, f: Failure) {
    match f
    case Cancelled => s.cancelled
    case Io(e) => IoCaused(job, s, e)
    case LocalPublication(_, _, _) => true
  }

  ghost predicate CauseInv(job: Job, s: State) {
    && (s.producer.Sending? ==> AllSourced(job, s, [s.producer.message]))
    && AllSourced(job, s, s.queue) && AllSourced(job, s, s.received)
    && (s.consumer.Joining? && s.consumer.consumed.Err? ==> Caused(job, s, s.consumer.consumed.error))
    && (s.consumer.Finished? && s.consumer.result.Err? ==> Caused(job, s, s.consumer.result.error))
  }

  /** What is known of errors survives when rows are cut, messages move and the flag is set. */
  lemma SourcedGrows(job: Job, s: State, t: State, messages: seq<Message>)
    requires AllSourced(job, s, messages) && forall chunk :: chunk in s.cut ==> chunk in t.cut
    ensures AllSourced(job, t, messages)
  {
    forall k | 0 <= k < |messages| && messages[k].Err? ensures Sourced(job, t, messages[k].error) {
      assert Sourced(job, s, messages[k].error);
    }
  }

  lemma SourcedJoin(job: Job, s: State, a: seq<Message>, b: seq<Message>)
    ensures AllSourced(job, s, a + b) <==> AllSourced(job, s, a) && AllSourced(job, s, b)
  {
    assert forall k :: 0 <= k < |a| ==> (a + b)[k] == a[k];
    forall k | 0 <= k < |b| ensures (a + b)[|a| + k] == b[k] {
    }
  }

  lemma ReadCause(job: Job, s: State)
    requires Enabled(job, s, ReadNext) && CauseInv(job, s)
    ensures CauseInv(job, AfterRead(job, s))
  {
    var t := AfterRead(job, s);
    assert forall chunk :: chunk in s.cut ==> chunk in t.cut;
    SourcedGrows(job, s, t, s.queue);
    SourcedGrows(job, s, t, s.received);
    if t.producer.Sending? && t.producer.message.Err? {
      if t.cut != s.cut {
        assert t.cut[|t.cut| - 1] in t.cut;
      } else {
        assert job.input.value[s.producer.next] in job.input.value;
      }
    }
  }

  lemma TakenCause(job: Job, s: State, m: Message)
    requires s.consumer.Receiving? && AllSourced(job, s, s.queue) && AllSourced(job, s, s.received) && AllSourced(job, s, [m])
    requires s.producer.Sending? ==> AllSourced(job, s, [s.producer.message])
    ensures CauseInv(job, Taken(s, m))
  {
    var t := Taken(s, m);
    SourcedJoin(job, s, s.received, [m]);
    SourcedGrows(job, s, t, s.received + [m]);
    assert m.Err? ==> [m][0] == m;
  }

  lemma WorkCause(job: Job, s: State, failure: Option<Cause>)
    requires Inv(job, s) && s.consumer.Working? && CauseInv(job, s)
    ensures CauseInv(job, AfterPerform(job, s, failure))
  {
    PrepareMeaning(job, |s.written|, s.consumer.batch);
    SourcedGrows(job, s, AfterPerform(job, s, failure), s.received);
  }

  lemma StepCause(job: Job, s: State, l: Label)
    requires Inv(job, s) && Enabled(job, s, l) && CauseInv(job, s)
    ensures CauseInv(job, Apply(job, s, l))
  {
    match l
    case OpenInput | ReadNext | Enqueue | SendFails | Rendezvous => ProducerCause(job, s, l);
    case Receive =>
      SourcedJoin(job, s, [s.queue[0]], s.queue[1..]);
      assert [s.queue[0]] + s.queue[1..] == s.queue;
      TakenCause(job, s.(queue := s.queue[1..]), s.queue[0]);
    case Perform(failure) => PerformCause(job, s, failure);
    case _ => FlagCause(job, s, l);
  }

  lemma ProducerCause(job: Job, s: State, l: Label)
    requires Inv(job, s) && Enabled(job, s, l) && CauseInv(job, s)
    requires l.OpenInput? || l.ReadNext? || l.Enqueue? || l.SendFails? || l.Rendezvous?
    ensures CauseInv(job, Apply(job, s, l))
  {
    match l
    case ReadNext => ReadCause(job, s);
    case Rendezvous =>
      TakenCause(job, s.(sent := s.sent + [s.producer.message], producer := Resumed(s.producer.resume)), s.producer.message);
    case Enqueue =>
      SourcedJoin(job, s, s.queue, [s.producer.message]);
      MovesOn(job, s, Apply(job, s, l));
    case OpenInput => MovesOn(job, s, Apply(job, s, l));
    case SendFails => MovesOn(job, s, Apply(job, s, l));
  }

  lemma PerformCause(job: Job, s: State, failure: Option<Cause>)
    requires Inv(job, s) && Enabled(job, s, Perform(failure)) && CauseInv(job, s)
    ensures CauseInv(job, AfterPerform(job, s, failure))
  {
    if s.consumer.Working? {
      WorkCause(job, s, failure);
    } else {
      MovesOn(job, s, AfterPerform(job, s, failure));
    }
  }

  lemma FlagCause(job: Job, s: State, l: Label)
    requires Inv(job, s) && Enabled(job, s, l) && CauseInv(job, s)
    requires l.Cancel? || l.CheckCancelled? || l.Disconnected? || l.Join?
    ensures CauseInv(job, Apply(job, s, l))
  {
    MovesOn(job, s, Apply(job, s, l));
  }

  /** A step that receives and cuts nothing keeps every cause, and may add a failure that has one. */
  lemma MovesOn(job: Job, s: State, t: State)
    requires CauseInv(job, s) && t.received == s.received && t.cut == s.cut && t.written == s.written
    requires s.cancelled ==> t.cancelled
    requires t.queue == s.queue || t.queue == [] || AllSourced(job, s, t.queue)
    requires t.producer.Sending? ==> t.producer == s.producer || AllSourced(job, s, [t.producer.message])
    requires t.consumer.Joining? && t.consumer.consumed.Err? ==> t.consumer == s.consumer || Caused(job, t, t.consumer.consumed.error)
    requires t.consumer.Finished? && t.consumer.result.Err? ==> t.consumer == s.consumer || Caused(job, t, t.consumer.result.error)
    ensures CauseInv(job, t)
  {
    SourcedGrows(job, s, t, s.received);
    if AllSourced(job, s, t.queue) {
      SourcedGrows(job, s, t, t.queue);
    }
    if t.producer.Sending? {
      SourcedGrows(job, s, t, [t.producer.message]);
    }
  }

  /** Every error a run reports has its cause: an unreadable input, a bad record, a failed callback, a cancellation. */
  lemma {:induction false} RunCauses(job: Job, states: seq<State>, labels: seq<Label>, i: nat)
    requires job.batchSize > 0 && IsRun(job, states, labels) && i < |states|
    ensures CauseInv(job, states[i])
  {
    if i > 0 {
      RunCauses(job, states, labels, i - 1);
      RunInv(job, states, labels, i - 1);
      NextCause(job, states, labels, i - 1);
    }
  }

  lemma NextCause(job: Job, states: seq<State>, labels: seq<Label>, k: nat)
    requires IsRun(job, states, labels) && k < |labels| && Inv(job, states[k]) && CauseInv(job, states[k])
    ensures CauseInv(job, states[k + 1])
  {
    StepCause(job, states[k], labels[k]);
  }

  /** When the threads join, the consumer's own error comes first, then the producer's, then the last check. */
  lemma JoinOrder(job: Job, s: State)
    requires Enabled(job, s, Join)
    ensures var t, consumed := Apply(job, s, Join), s.consumer.consumed;
      t.consumer ==
        if consumed.Err? then Finished(Err(consumed.error))
        else if s.producer.Returned? && s.producer.production.Err? then Finished(Err(s.producer.production.error))
        else Deciding
  {
  }

  // ---------- cancellation takes effect ----------

  /** Once cancelled, the next check ends the run, and the producer neither cuts nor sends anything more. */
  lemma CancellationStops(job: Job, s: State)
    requires s.cancelled
    ensures Enabled(job, s, CheckCancelled) ==>
      Apply(job, s, CheckCancelled).consumer in {Joining(Err(Failure.Cancelled)), Finished(Err(Failure.Cancelled))}
    ensures Enabled(job, s, ReadNext) ==> Apply(job, s, ReadNext) == s.(producer := Returned(Ok(())))
  {
  }

  predicate IsLocalOperation(c: Consumer) {
    || c.Staging? || c.OpeningWriter? || c.Working? || c.Closing? || c.Publishing? || c.Renaming? || c.SyncingParent?
  }

  /** A cancellation may come in any state, and any local operation may fail; both are steps of the machine. */
  lemma FaultsArePossible(job: Job, s: State, cause: Cause)
    ensures !s.cancelled ==> Enabled(job, s, Cancel) && Apply(job, s, Cancel) == s.(cancelled := true)
    ensures IsLocalOperation(s.consumer) ==> Enabled(job, s, Perform(Some(cause)))
    ensures Enabled(job, s, Perform(Some(cause))) && !s.consumer.Working? ==>
      Apply(job, s, Perform(Some(cause))).consumer ==
        match s.consumer
        case Staging => Finished(Err(LocalPublication(Create, NotPublished, cause)))
        case OpeningWriter => Finished(Err(LocalPublication(Write, NotPublished, cause)))
        case Closing => Joining(Err(LocalPublication(Close, NotPublished, cause)))
        case Publishing => Finished(Err(LocalPublication(FileSync, NotPublished, cause)))
        case Renaming => Finished(Err(LocalPublication(Rename, NotPublished, cause)))
        case _ => Finished(Err(LocalPublication(ParentSync, PublishedDurabilityUncertain, cause)))
  {
  }

  // ---------- local failures ----------

  /** The consumer is at the local operation that this phase names. */
  ghost predicate Performs(c: Consumer, phase: LocalPhase) {
    match phase
    case Create => c.Staging?
    case Write => c.OpeningWriter? || c.Working?
    case Close => c.Closing?
    case FileSync => c.Publishing?
    case Rename => c.Renaming?
    case ParentSync => c.SyncingParent?
  }

  ghost predicate Reports(c: Consumer, f: Failure) {
    c == Joining(Err(f)) || c == Finished(Err(f))
  }

  /** This step is the local operation named by the failure, it fails with that cause, and any batch at hand was good. */
  ghost predicate FailsLocally(job: Job, s: State, l: Label, f: Failure) {
    && f.LocalPublication? && l == Perform(Some(f.cause)) && Performs(s.consumer, f.phase)
    && f.outcome == (if f.phase == ParentSync then PublishedDurabilityUncertain else NotPublished)
    && (s.consumer.Working? ==> exists b :: job.transform(|s.written|, s.consumer.batch) == Ok(b) && job.check(b).Ok?)
  }

  lemma LocalStep(job: Job, s: State, l: Label, f: Failure)
    requires Inv(job, s) && Enabled(job, s, l) && f.LocalPublication?
    requires Reports(Apply(job, s, l).consumer, f) && !Reports(s.consumer, f)
    ensures FailsLocally(job, s, l, f)
  {
    if l.Perform? {
      PerformStep(job, s, l.failure, f);
    } else {
      OtherStep(job, s, l, f);
    }
  }

  lemma PerformStep(job: Job, s: State, failure: Option<Cause>, f: Failure)
    requires Enabled(job, s, Perform(failure)) && f.LocalPublication? && Reports(AfterPerform(job, s, failure).consumer, f)
    ensures FailsLocally(job, s, Perform(failure), f)
  {
    if s.consumer.Working? {
      PrepareMeaning(job, |s.written|, s.consumer.batch);
    }
  }

  /** No other step reports a local failure that was not reported before. */
  lemma OtherStep(job: Job, s: State, l: Label, f: Failure)
    requires ConsumerInv(job, s) && Enabled(job, s, l) && !l.Perform? && f.LocalPublication?
    ensures Reports(Apply(job, s, l).consumer, f) ==> Reports(s.consumer, f)
  {
    match l
    case Receive => TakenReports(s.(queue := s.queue[1..]), s.queue[0], f);
    case Rendezvous =>
      TakenReports(s.(sent := s.sent + [s.producer.message], producer := Resumed(s.producer.resume)), s.producer.message, f);
    case _ =>
  }

  lemma TakenReports(s: State, m: Message, f: Failure)
    requires f.LocalPublication?
    ensures !Reports(Taken(s, m).consumer, f)
  {
  }

  /** A local failure is reported only where that very operation failed, and with its cause. */
  lemma {:induction false} LocalCauses(job: Job, states: seq<State>, labels: seq<Label>, i: nat, f: Failure) returns (k: nat)
    requires job.batchSize > 0 && IsRun(job, states, labels) && i < |states| && f.LocalPublication?
    requires Reports(states[i].consumer, f)
    ensures k < i && FailsLocally(job, states[k], labels[k], f)
  {
    if Reports(states[i - 1].consumer, f) {
      k := LocalCauses(job, states, labels, i - 1, f);
    } else {
      k := i - 1;
      RunInv(job, states, labels, k);
      LocalStep(job, states[k], labels[k], f);
    }
  }
}
