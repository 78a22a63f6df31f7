/** Streaming composition whose last value scan is replaced by a check on declarations. */
module ContractPipeline {
  import opened Wrappers
  import opened Shapes
  import opened Policies
  import PolicyLaws
  import opened ArrowSchema
  import ArrowLaws
  import opened Validation
  import opened ValidationLaws

  type CallbackError = int

  type Batch = b: RecordBatch | WellFormed(b) witness RecordBatch([], [], 0)

  datatype Stage = SourceFactory | Source | Transform(index: nat) | Sink

  datatype Failure =
    | Unmapped(mapping: MappingError)
    | Invalid(validation: ValidationError)
    | Callback(cause: CallbackError)
    | CountOverflow

  datatype PipelineError = PipelineError(stage: Stage, batchIndex: Option<nat>, failure: Failure)

  datatype RunReport = RunReport(batches: nat, rows: nat)

  const USIZE_MAX: nat := 0xFFFF_FFFF_FFFF_FFFF

  predicate InRange(r: RunReport) {
    r.batches <= 18446744073709551615 && r.rows <= 18446744073709551615
  }

  /** What a transform declares it needs and returns. */
  datatype Step = Step(input: TypeShape, output: TypeShape)

  // ---------- declared composition ----------

  /** The declaration of what comes out of the first `count` steps. */
  function OutputAfter(source: TypeShape, steps: seq<Step>, count: nat): TypeShape
    requires count <= |steps|
  {
    if count == 0 then source else steps[count - 1].output
  }

  /** Every step's required input is what the stage before it declares to return. */
  ghost predicate Chained(source: TypeShape, steps: seq<Step>) {
    forall k :: 0 <= k < |steps| ==> Linked(source, steps, k)
  }

  ghost predicate Linked(source: TypeShape, steps: seq<Step>, k: nat)
    requires k < |steps|
  {
    SameShape(OutputAfter(source, steps, k), steps[k].input)
  }

  lemma {:induction false} ChainedExtends(source: TypeShape, steps: seq<Step>, step: Step)
    requires Chained(source, steps) && SameShape(OutputAfter(source, steps, |steps|), step.input)
    ensures Chained(source, steps + [step])
  {
    var more := steps + [step];
    forall k | 0 <= k < |more| ensures Linked(source, more, k) {
      assert OutputAfter(source, more, k) == OutputAfter(source, steps, k);
      if k < |steps| {
        assert more[k] == steps[k] && Linked(source, steps, k);
      }
    }
  }

  datatype Plan = Plan(source: TypeShape, steps: seq<Step>, sink: TypeShape)

  ghost predicate Connected(plan: Plan) {
    Chained(plan.source, plan.steps) && SameShape(OutputAfter(plan.source, plan.steps, |plan.steps|), plan.sink)
  }

  /** A pipeline under composition; a connection that does not conform is a build error. */
  class Composition {
    const source: TypeShape
    var steps: seq<Step>

    ghost predicate Valid()
      reads this
    {
      Chained(source, steps)
    }

    constructor (source: TypeShape)
      ensures Valid() && this.source == source && steps == []
    {
      this.source := source;
      steps := [];
    }

    method Transform(input: TypeShape, output: TypeShape) returns (builds: bool)
      requires Valid()
      modifies this
      ensures Valid()
      ensures builds <==> SameShape(OutputAfter(source, old(steps), |old(steps)|), input)
      ensures steps == if builds then old(steps) + [Step(input, output)] else old(steps)
    {
      builds := Conforms(OutputAfter(source, steps, |steps|), input, ExactOrdered);
      PolicyLaws.ExactOrderedIsSameShape(OutputAfter(source, steps, |steps|), input);
      if builds {
        ChainedExtends(source, steps, Step(input, output));
        steps := steps + [Step(input, output)];
      }
    }

    method Sink(input: TypeShape) returns (plan: Option<Plan>)
      requires Valid()
      ensures plan.Some? <==> SameShape(OutputAfter(source, steps, |steps|), input)
      ensures plan.Some? ==> plan.value == Plan(source, steps, input) && Connected(plan.value)
    {
      var builds := Conforms(OutputAfter(source, steps, |steps|), input, ExactOrdered);
      PolicyLaws.ExactOrderedIsSameShape(OutputAfter(source, steps, |steps|), input);
      plan := if builds then Some(Plan(source, steps, input)) else None;
    }
  }

  // ---------- preflight ----------

  datatype Prepared = Prepared(source: BatchValidator, steps: seq<BatchValidator>)

  ghost predicate PreparedFor(p: Prepared, plan: Plan) {
    NewValidator(plan.source) == Ok(p.source) && NewValidator(plan.sink).Ok? && |p.steps| == |plan.steps| &&
    forall k :: 0 <= k < |plan.steps| ==> NewValidator(plan.steps[k].output) == Ok(p.steps[k])
  }

  /** The first declaration, in pipeline order, that has no Arrow schema. */
  ghost predicate FirstUnmapped(plan: Plan, e: PipelineError) {
    e.batchIndex == None && e.failure.Unmapped? &&
    match e.stage
    case SourceFactory => false
    case Source => NewValidator(plan.source) == Err(e.failure.mapping)
    case Transform(k) =>
      NewValidator(plan.source).Ok? && k < |plan.steps| &&
      NewValidator(plan.steps[k].output) == Err(e.failure.mapping) &&
      forall j :: 0 <= j < k ==> NewValidator(plan.steps[j].output).Ok?
    case Sink =>
      NewValidator(plan.source).Ok? && NewValidator(plan.sink) == Err(e.failure.mapping) &&
      forall j :: 0 <= j < |plan.steps| ==> NewValidator(plan.steps[j].output).Ok?
  }

  method Build(plan: Plan) returns (r: Result<Prepared, PipelineError>)
    ensures r.Ok? ==> PreparedFor(r.value, plan)
    ensures r.Err? ==> FirstUnmapped(plan, r.error)
  {
    var source := NewValidator(plan.source);
    if source.Err? {
      return Err(PipelineError(Source, None, Unmapped(source.error)));
    }
    var steps: seq<BatchValidator> := [];
    for k := 0 to |plan.steps|
      invariant |steps| == k
      invariant forall j :: 0 <= j < k ==> NewValidator(plan.steps[j].output) == Ok(steps[j])
    {
      var step := NewValidator(plan.steps[k].output);
      if step.Err? {
        return Err(PipelineError(Stage.Transform(k), None, Unmapped(step.error)));
      }
      steps := steps + [step.value];
    }
    var sink := NewValidator(plan.sink);
    if sink.Err? {
      return Err(PipelineError(Stage.Sink, None, Unmapped(sink.error)));
    }
    return Ok(Prepared(source.value, steps));
  }

  /** In a connected plan the sink's own mapping can only fail if an earlier one already did. */
  lemma SinkPreflightNeverFirst(plan: Plan, e: PipelineError)
    requires Connected(plan) && FirstUnmapped(plan, e)
    ensures !e.stage.Sink?
  {
    ArrowLaws.SameShapeSameSchema(OutputAfter(plan.source, plan.steps, |plan.steps|), plan.sink);
  }

  /** Declarations that agree up to defaults describe the same batches. */
  lemma SameShapeHolds(batch: RecordBatch, a: TypeShape, b: TypeShape)
    requires SameShape(a, b) && WellFormed(batch) && NewValidator(a).Ok?
    ensures NewValidator(a) == NewValidator(b)
    ensures Holds(batch, a) <==> Holds(batch, b)
  {
    ArrowLaws.SameShapeSameSchema(a, b);
    ValidateIsHolds(a, batch);
    ValidateIsHolds(b, batch);
  }

  // ---------- what happens while a pipeline runs ----------

  /** One interaction with user code, and how it answered. */
  datatype Event =
    | Opened(opening: Option<CallbackError>)
    | Read(received: Result<Batch, CallbackError>)
    | Exhausted
    | Transformed(step: nat, given: Batch, produced: Result<Batch, CallbackError>)
    | Delivered(batch: Batch, refusal: Option<CallbackError>)

  /** The batch an event leaves ready for the given step. */
  ghost function ReadyFor(e: Event, step: nat): Option<Batch> {
    match e
    case Read(Ok(b)) => if step == 0 then Some(b) else None
    case Transformed(k, _, Ok(b)) => if step == k + 1 then Some(b) else None
    case _ => None
  }

  /** An event follows its predecessor: batches are read one at a time and pass each step in order. */
  ghost predicate Follows(plan: Plan, before: Option<Event>, e: Event) {
    match e
    case Opened(_) => before.None?
    case Read(_) | Exhausted =>
      before.Some? && (before.value == Opened(None) || (before.value.Delivered? && before.value.refusal.None?))
    case Transformed(k, given, _) =>
      before.Some? && k < |plan.steps| && ReadyFor(before.value, k) == Some(given) && Holds(given, plan.steps[k].input)
    case Delivered(batch, _) =>
      before.Some? && ReadyFor(before.value, |plan.steps|) == Some(batch) && Holds(batch, plan.sink)
  }

  ghost function Before(events: seq<Event>, i: nat): Option<Event>
    requires i <= |events|
  {
    if i == 0 then None else Some(events[i - 1])
  }

  /** Every callback was called in order, on the batch just produced, with a value of its declared input. */
  ghost predicate Orderly(plan: Plan, events: seq<Event>) {
    events == [] ||
    (Orderly(plan, events[..|events| - 1]) && Follows(plan, Before(events, |events| - 1), events[|events| - 1]))
  }

  lemma {:induction false} OrderlyEverywhere(plan: Plan, events: seq<Event>, i: nat)
    requires Orderly(plan, events) && i < |events|
    ensures Follows(plan, Before(events, i), events[i])
  {
    if i < |events| - 1 {
      OrderlyEverywhere(plan, events[..|events| - 1], i);
      assert Before(events[..|events| - 1], i) == Before(events, i);
    }
  }

  /** The batches the sink accepted, in order. */
  ghost function Accepted(events: seq<Event>): seq<Batch> {
    if events == [] then []
    else
      var e := events[|events| - 1];
      Accepted(events[..|events| - 1]) + (if e.Delivered? && e.refusal.None? then [e.batch] else [])
  }

  ghost function Rows(batches: seq<Batch>): nat {
    if batches == [] then 0 else Rows(batches[..|batches| - 1]) + batches[|batches| - 1].rows
  }

  function Refusal(r: Result<(), CallbackError>): Option<CallbackError> {
    match r
    case Ok(_) => None
    case Err(e) => Some(e)
  }

  /** User code: arbitrary stateful callbacks over a finite source. */
  class Callbacks {
    var unread: nat
    ghost var events: seq<Event>

    method Open() returns (r: Result<(), CallbackError>)
      modifies this
      ensures unread == old(unread)
      ensures events == old(events) + [Opened(Refusal(r))]
    {
      r := *;
      events := events + [Opened(Refusal(r))];
    }

    method Next() returns (r: Option<Result<Batch, CallbackError>>)
      modifies this
      ensures r.Some? ==> unread < old(unread)
      ensures events == old(events) + [if r.Some? then Read(r.value) else Exhausted]
    {
      r := *;
      if unread == 0 {
        r := None;
      } else {
        unread := unread - 1;
      }
      events := events + [if r.Some? then Read(r.value) else Exhausted];
    }

    method Transform(step: nat, batch: Batch) returns (r: Result<Batch, CallbackError>)
      modifies this
      ensures unread == old(unread)
      ensures events == old(events) + [Transformed(step, batch, r)]
    {
      r := *;
      events := events + [Transformed(step, batch, r)];
    }

    method Sink(batch: Batch) returns (r: Result<(), CallbackError>)
      modifies this
      ensures unread == old(unread)
      ensures events == old(events) + [Delivered(batch, Refusal(r))]
    {
      r := *;
      events := events + [Delivered(batch, Refusal(r))];
    }
  }

  lemma OneMore(plan: Plan, events: seq<Event>, e: Event)
    requires Orderly(plan, events) && Follows(plan, Before(events, |events|), e)
    ensures Orderly(plan, events + [e])
    ensures Before(events + [e], |events| + 1) == Some(e)
    ensures Accepted(events + [e]) == Accepted(events) + if e.Delivered? && e.refusal.None? then [e.batch] else []
  {
    assert (events + [e])[..|events|] == events;
  }

  /** The error names the call that failed, or the batch that did not validate, and the right batch index. */
  ghost predicate Explains(p: Prepared, events: seq<Event>, e: PipelineError) {
    events != [] &&
    var last := events[|events| - 1];
    match e.stage
    case SourceFactory => e.batchIndex == None && e.failure.Callback? && events == [Opened(Some(e.failure.cause))]
    case Source =>
      e.batchIndex == Some(|Accepted(events)|) && last.Read? &&
      (match last.received
       case Err(cause) => e.failure == Callback(cause)
       case Ok(b) => e.failure.Invalid? && Validate(p.source, b) == Err(e.failure.validation))
    case Transform(k) =>
      e.batchIndex == Some(|Accepted(events)|) && last.Transformed? && last.step == k && k < |p.steps| &&
      (match last.produced
       case Err(cause) => e.failure == Callback(cause)
       case Ok(b) => e.failure.Invalid? && Validate(p.steps[k], b) == Err(e.failure.validation))
    case Sink =>
      e.batchIndex == Some(|Accepted(events)|) &&
      match e.failure
      case Callback(cause) => last.Delivered? && last.refusal == Some(cause)
      case CountOverflow =>
        var ready := ReadyFor(last, |p.steps|);
        ready.Some? &&
        !InRange(RunReport(|Accepted(events)| + 1, Rows(Accepted(events)) + ready.value.rows))
      case _ => false
  }

  /** Batch `b` has passed the first `k` steps and is a value of what the k-th declares to return. */
  ghost predicate Holding(plan: Plan, events: seq<Event>, k: nat, b: Batch) {
    Orderly(plan, events) && events != [] && k <= |plan.steps| &&
    ReadyFor(events[|events| - 1], k) == Some(b) && Holds(b, OutputAfter(plan.source, plan.steps, k))
  }

  /** The source may be read: it was just opened, or the last batch was accepted. */
  ghost predicate Idle(plan: Plan, events: seq<Event>) {
    Orderly(plan, events) && events != [] &&
    var last := events[|events| - 1];
    last == Opened(None) || (last.Delivered? && last.refusal.None?)
  }

  ghost function Counted(events: seq<Event>): RunReport {
    RunReport(|Accepted(events)|, Rows(Accepted(events)))
  }

  /** What a step declares to return is what the next stage declares it needs. */
  lemma ReadyForNext(plan: Plan, p: Prepared, events: seq<Event>, k: nat, b: Batch)
    requires Connected(plan) && PreparedFor(p, plan) && Holding(plan, events, k, b)
    ensures k < |plan.steps| ==> Holds(b, plan.steps[k].input)
    ensures k == |plan.steps| ==> Holds(b, plan.sink)
  {
    var output := OutputAfter(plan.source, plan.steps, k);
    assert NewValidator(output).Ok?;
    if k < |plan.steps| {
      assert Linked(plan.source, plan.steps, k);
      SameShapeHolds(b, output, plan.steps[k].input);
    } else {
      SameShapeHolds(b, output, plan.sink);
    }
  }

  /** Calls one transform and validates what it returns. */
  method RunStep(p: Prepared, ghost plan: Plan, callbacks: Callbacks, index: nat, k: nat, batch: Batch)
    returns (r: Result<Batch, PipelineError>)
    requires Connected(plan) && PreparedFor(p, plan) && k < |p.steps|
    requires Holding(plan, callbacks.events, k, batch) && |Accepted(callbacks.events)| == index
    modifies callbacks
    ensures callbacks.unread == old(callbacks.unread)
    ensures Orderly(plan, callbacks.events) && Accepted(callbacks.events) == old(Accepted(callbacks.events))
    ensures r.Ok? ==> Holding(plan, callbacks.events, k + 1, r.value)
    ensures r.Err? ==> Explains(p, callbacks.events, r.error)
  {
    ReadyForNext(plan, p, callbacks.events, k, batch);
    ghost var events := callbacks.events;
    var produced := callbacks.Transform(k, batch);
    OneMore(plan, events, Transformed(k, batch, produced));
    if produced.Err? {
      return Err(PipelineError(Stage.Transform(k), Some(index), Callback(produced.error)));
    }
    var verdict := Validate(p.steps[k], produced.value);
    ValidateIsHolds(plan.steps[k].output, produced.value);
    if verdict.Err? {
      return Err(PipelineError(Stage.Transform(k), Some(index), Invalid(verdict.error)));
    }
    return Ok(produced.value);
  }

  /** Reads and validates one batch; None when the source is exhausted. */
  method ReadBatch(p: Prepared, ghost plan: Plan, callbacks: Callbacks, index: nat)
    returns (r: Option<Result<Batch, PipelineError>>)
    requires PreparedFor(p, plan) && Idle(plan, callbacks.events) && |Accepted(callbacks.events)| == index
    modifies callbacks
    ensures Orderly(plan, callbacks.events) && Accepted(callbacks.events) == old(Accepted(callbacks.events))
    ensures r.Some? ==> callbacks.unread < old(callbacks.unread)
    ensures r.None? ==> callbacks.events == old(callbacks.events) + [Exhausted]
    ensures r.Some? && r.value.Ok? ==> Holding(plan, callbacks.events, 0, r.value.value)
    ensures r.Some? && r.value.Err? ==> Explains(p, callbacks.events, r.value.error)
  {
    ghost var events := callbacks.events;
    var received := callbacks.Next();
    OneMore(plan, events, if received.Some? then Read(received.value) else Exhausted);
    if received.None? {
      return None;
    }
    if received.value.Err? {
      return Some(Err(PipelineError(Source, Some(index), Callback(received.value.error))));
    }
    var verdict := Validate(p.source, received.value.value);
    ValidateIsHolds(plan.source, received.value.value);
    if verdict.Err? {
      return Some(Err(PipelineError(Source, Some(index), Invalid(verdict.error))));
    }
    return Some(Ok(received.value.value));
  }

  lemma CountOneMore(before: seq<Event>, after: seq<Event>, b: Batch)
    requires Accepted(after) == Accepted(before) + [b]
    ensures Counted(after) == RunReport(Counted(before).batches + 1, Counted(before).rows + b.rows)
  {
    assert (Accepted(before) + [b])[..|Accepted(before)|] == Accepted(before);
  }

  /** Delivers one finished batch, unless counting it would overflow. */
  method Deliver(p: Prepared, ghost plan: Plan, callbacks: Callbacks, report: RunReport, batch: Batch)
    returns (r: Result<RunReport, PipelineError>)
    requires Connected(plan) && PreparedFor(p, plan) && Holding(plan, callbacks.events, |plan.steps|, batch)
    requires report == Counted(callbacks.events)
    modifies callbacks
    ensures callbacks.unread == old(callbacks.unread)
    ensures Orderly(plan, callbacks.events)
    ensures r.Ok? ==> Idle(plan, callbacks.events) && r.value == Counted(callbacks.events) && InRange(r.value)
    ensures r.Ok? ==> Accepted(callbacks.events) == old(Accepted(callbacks.events)) + [batch]
    ensures r.Err? ==> Explains(p, callbacks.events, r.error)
  {
    if report.batches + 1 > USIZE_MAX || report.rows + batch.rows > USIZE_MAX {
      return Err(PipelineError(Stage.Sink, Some(report.batches), CountOverflow));
    }
    ghost var events := callbacks.events;
    SinkMayFollow(p, plan, events, batch);
    var answer := callbacks.Sink(batch);
    SinkFollows(p, plan, events, batch, answer);
    r := match answer
      case Err(e) => Err(PipelineError(Stage.Sink, Some(report.batches), Callback(e)))
      case Ok(_) => Ok(RunReport(report.batches + 1, report.rows + batch.rows));
  }

  lemma SinkMayFollow(p: Prepared, plan: Plan, events: seq<Event>, batch: Batch)
    requires Connected(plan) && PreparedFor(p, plan) && Holding(plan, events, |plan.steps|, batch)
    ensures forall refusal :: Follows(plan, Before(events, |events|), Delivered(batch, refusal))
  {
    ReadyForNext(plan, p, events, |plan.steps|, batch);
  }

  /** What the sink's answer to a batch makes of the history. */
  lemma SinkFollows(p: Prepared, plan: Plan, events: seq<Event>, batch: Batch, answer: Result<(), CallbackError>)
    requires Orderly(plan, events) && Follows(plan, Before(events, |events|), Delivered(batch, Refusal(answer)))
    ensures var after := events + [Delivered(batch, Refusal(answer))];
      match answer
      case Ok(_) =>
        Idle(plan, after) && Accepted(after) == Accepted(events) + [batch] &&
        Counted(after) == RunReport(|Accepted(events)| + 1, Rows(Accepted(events)) + batch.rows)
      case Err(e) =>
        Orderly(plan, after) && Explains(p, after, PipelineError(Stage.Sink, Some(|Accepted(events)|), Callback(e)))
  {
    OneMore(plan, events, Delivered(batch, Refusal(answer)));
    if answer.Ok? {
      CountOneMore(events, events + [Delivered(batch, Refusal(answer))], batch);
    }
  }

  /** One round of the streaming loop after a batch was read: every transform, then the sink. */
  method Process(p: Prepared, ghost plan: Plan, callbacks: Callbacks, report: RunReport, received: Batch)
    returns (r: Result<RunReport, PipelineError>)
    requires Connected(plan) && PreparedFor(p, plan) && Holding(plan, callbacks.events, 0, received)
    requires report == Counted(callbacks.events)
    modifies callbacks
    ensures callbacks.unread == old(callbacks.unread)
    ensures Orderly(plan, callbacks.events)
    ensures r.Ok? ==> Idle(plan, callbacks.events) && r.value == Counted(callbacks.events) && InRange(r.value)
    ensures r.Err? ==> Explains(p, callbacks.events, r.error)
  {
    var batch := received;
    for k := 0 to |p.steps|
      invariant callbacks.unread == old(callbacks.unread)
      invariant Holding(plan, callbacks.events, k, batch) && report == Counted(callbacks.events)
    {
      var produced := RunStep(p, plan, callbacks, report.batches, k, batch);
      if produced.Err? {
        return Err(produced.error);
      }
      batch := produced.value;
    }
    r := Deliver(p, plan, callbacks, report, batch);
  }

  /**
   * Runs a prepared pipeline to the end of its source or to the first failure. Whatever the callbacks do,
   * every one of them is given values of the declaration it asked for, although the sink's input is not
   * scanned; and a failure at batch k leaves exactly the first k batches delivered.
   */
  method Run(p: Prepared, ghost plan: Plan, callbacks: Callbacks) returns (r: Result<RunReport, PipelineError>)
    requires Connected(plan) && PreparedFor(p, plan) && callbacks.events == []
    modifies callbacks
    ensures Orderly(plan, callbacks.events) && callbacks.events != []
    ensures r.Ok? ==> callbacks.events[|callbacks.events| - 1] == Exhausted
    ensures r.Ok? ==> r.value == Counted(callbacks.events) && InRange(r.value)
    ensures r.Err? ==> Explains(p, callbacks.events, r.error)
  {
    var opening := callbacks.Open();
    OneMore(plan, [], Opened(Refusal(opening)));
    assert callbacks.events == [] + [Opened(Refusal(opening))];
    if opening.Err? {
      return Err(PipelineError(SourceFactory, None, Callback(opening.error)));
    }
    var report := RunReport(0, 0);
    while true
      invariant Idle(plan, callbacks.events) && report == Counted(callbacks.events) && InRange(report)
      decreases callbacks.unread
    {
      var received := ReadBatch(p, plan, callbacks, report.batches);
      if received.None? {
        return Ok(report);
      }
      if received.value.Err? {
        return Err(received.value.error);
      }
      var counted := Process(p, plan, callbacks, report, received.value.value);
      if counted.Err? {
        return Err(counted.error);
      }
      report := counted.value;
    }
  }
}
