/** The terminal outcomes the engine reports to the runtime. */
module Outcomes {

  datatype OutcomeKind = Succeeded | DeferredStage | DeferredRetry | Rejected | FailedTerminal
}

/** The ingestion engine: one event through the pipeline, every exception made an outcome. */
module IngestionEngine {
  import opened Wrappers
  import opened Outcomes
  import P = Pipeline

  datatype Classification = Classification(reason: string, severity: string, retryable: bool, stage: Option<P.StageId>)

  datatype FailureType = RetryLater | Reject | Fail

  datatype RetryPlan = RetryPlan(delaySeconds: int, nextAttempt: int)

  datatype FailureOutcome = FailureOutcome(
    kind: FailureType,
    stage: Option<P.StageId>,
    reason: string,
    severity: string,
    retryPlan: Option<RetryPlan>,
    shouldEmit: bool)

  datatype Emission = Skipped | Emitted | EmissionFailed

  /** The optional policies; an answer of `None` is a policy that raises. */
  datatype Policies = Policies(
    classify: Option<(P.Fault, Option<P.StageId>) -> Option<Classification>>,
    decide: Option<Classification -> Option<FailureOutcome>>,
    emitter: Option<FailureOutcome -> bool>)   // `false`: the emitter raises

  datatype IngestionOutcome<+S> = IngestionOutcome(
    kind: OutcomeKind,
    finalStage: Option<P.StageId>,
    state: Option<S>,
    trace: seq<P.Record>,
    retryPlan: Option<RetryPlan>,
    emission: Emission)

  function MapTerminal(t: P.Terminal): OutcomeKind {
    match t
    case Completed => Succeeded
    case Deferred => DeferredStage
    case Retry => DeferredRetry
    case Rejected => Rejected
    case Failed => FailedTerminal
  }

  function MapFailure(f: FailureType): OutcomeKind {
    match f
    case RetryLater => DeferredRetry
    case Reject => Rejected
    case Fail => FailedTerminal
  }

  /** The `stage_id` attribute of an exception, where it has one. */
  function StageOf(f: P.Fault): Option<P.StageId> {
    match f
    case BadTransition(s) => Some(s)
    case MissingStage(s) => Some(s)
    case Foreign(e) => e.stageId
    case _ => None
  }

  function Classify(p: Policies, f: P.Fault): Classification {
    match p.classify
    case None => Classification("ingestion_unhandled_exception", "error", false, StageOf(f))
    case Some(policy) =>
      match policy(f, StageOf(f))
      case Some(c) => c
      case None => Classification("error_handling_policy_failed", "error", false, StageOf(f))
  }

  function Decide(p: Policies, c: Classification): FailureOutcome {
    match p.decide
    case None =>
      FailureOutcome(if c.retryable then RetryLater else Fail, c.stage, c.reason, c.severity,
                     if c.retryable then Some(RetryPlan(0, 1)) else None, true)
    case Some(policy) =>
      match policy(c)
      case Some(o) => o
      case None => FailureOutcome(Fail, c.stage, c.reason, c.severity, None, true)
  }

  function Emit(p: Policies, o: FailureOutcome): Emission {
    if !o.shouldEmit || p.emitter.None? then Skipped
    else if p.emitter.value(o) then Emitted
    else EmissionFailed
  }

  function NormalizeException<S>(p: Policies, f: P.Fault): IngestionOutcome<S> {
    var o := Decide(p, Classify(p, f));
    IngestionOutcome(MapFailure(o.kind), o.stage, None, [], o.retryPlan, Emit(p, o))
  }

  function MapEnd<S>(p: Policies, end: P.End<S>): IngestionOutcome<S> {
    match end
    case Returned(outcome, last, state, log) =>
      IngestionOutcome(MapTerminal(outcome), last, Some(state), log, None, Skipped)
    case Raised(f) => NormalizeException(p, f)
  }

  /** The engine runs the pipeline with cancellation reported as a failure. */
  function Engined<S(!new)>(r: P.Runner<S>): P.Runner<S> { r.(cancelOutcome := P.Failed) }

  // ----- outcomes told from the calls and the policies -----

  /** The last call stopped the run with a terminal its stage may end in. */
  predicate StoppedWith<S(!new)>(r: P.Runner<S>, factory: Result<S, P.Exn>, calls: seq<P.Call<S>>, t: P.Terminal) {
    factory.Ok? && calls != [] &&
    var c := calls[|calls| - 1]; P.Ends(r.table, c) && c.answer.value.outcome == Some(t)
  }

  /** Every call led on, the guard allows steps at all, and before the next call the run is asked to stop. */
  predicate CancelledAfter<S(!new)>(r: P.Runner<S>, factory: Result<S, P.Exn>, calls: seq<P.Call<S>>) {
    factory.Ok? && r.maxSteps > 0 && (calls == [] || P.Goes(r.table, calls[|calls| - 1])) &&
    r.cancel(|calls|) == Ok(true)
  }

  /** The exception that reaches the engine, if there is one. */
  predicate Caught<S(!new)>(r: P.Runner<S>, factory: Result<S, P.Exn>, calls: seq<P.Call<S>>, f: P.Fault) {
    var n := |calls|;
    if factory.Err? then f == P.Foreign(factory.error)
    else if r.maxSteps <= 0 then f == P.BadMaxSteps
    else if n > 0 && calls[n - 1].answer.Err? then f == P.Foreign(calls[n - 1].answer.error)
    else if n > 0 && !P.Goes(r.table, calls[n - 1]) then
      !P.Ends(r.table, calls[n - 1]) && f == P.BadTransition(calls[n - 1].stage)
    else
      var stage := if n == 0 then r.start else calls[n - 1].answer.value.next.value;
      match r.cancel(n)
      case Err(e) => f == P.Foreign(e)
      case Ok(true) => false
      case Ok(false) =>
        f == if n >= r.maxSteps then P.CycleGuard
             else if stage !in r.table then P.BadTransition(stage) else P.MissingStage(stage)
  }

  /** The stage an exception carries: bad transitions and missing stages always carry one. */
  predicate Carries(f: P.Fault, stage: Option<P.StageId>) {
    if f.BadTransition? || f.MissingStage? then stage == Some(f.stage)
    else if f.Foreign? then stage == f.exn.stageId
    else stage.None?
  }

  /** The classification is the policy's; without one, or when it raises, the exception is an
      error not to be retried. */
  predicate ClassifiedAs(p: Policies, f: P.Fault, stage: Option<P.StageId>, c: Classification) {
    Carries(f, stage) &&
    if p.classify.Some? && p.classify.value(f, stage).Some? then c == p.classify.value(f, stage).value
    else !c.retryable && c.stage == stage && c.severity == "error" &&
         c.reason == if p.classify.None? then "ingestion_unhandled_exception" else "error_handling_policy_failed"
  }

  /** The failure is the policy's; without one, retryable exceptions are retried at once and the others
      fail; when it raises, everything fails. What is not left to the policy is reported. */
  predicate DecidedAs(p: Policies, c: Classification, o: FailureOutcome) {
    if p.decide.Some? && p.decide.value(c).Some? then o == p.decide.value(c).value
    else
      o.stage == c.stage && o.reason == c.reason && o.severity == c.severity && o.shouldEmit &&
      if p.decide.None? && c.retryable then o.kind == RetryLater && o.retryPlan == Some(RetryPlan(0, 1))
      else o.kind == Fail && o.retryPlan == None
  }

  /** The run ends in an exception of which the policies make the failure `o`. */
  ghost predicate FailedAs<S(!new)>(
    r: P.Runner<S>, factory: Result<S, P.Exn>, p: Policies, calls: seq<P.Call<S>>, o: FailureOutcome)
  {
    exists f, stage, c ::
      Caught(r, factory, calls, f) && ClassifiedAs(p, f, stage, c) && DecidedAs(p, c, o)
  }

  ghost predicate FailedWith<S(!new)>(
    r: P.Runner<S>, factory: Result<S, P.Exn>, p: Policies, calls: seq<P.Call<S>>, kind: FailureType)
  {
    exists o :: FailedAs(r, factory, p, calls, o) && o.kind == kind
  }

  /** Which of the five kinds is reported. */
  ghost predicate KindsExplained<S(!new)>(
    r: P.Runner<S>, factory: Result<S, P.Exn>, p: Policies, calls: seq<P.Call<S>>, kind: OutcomeKind)
  {
    (kind == Succeeded <==> StoppedWith(r, factory, calls, P.Completed)) &&
    (kind == DeferredStage <==> StoppedWith(r, factory, calls, P.Deferred)) &&
    (kind == DeferredRetry <==>
     StoppedWith(r, factory, calls, P.Retry) || FailedWith(r, factory, p, calls, RetryLater)) &&
    (kind == Rejected <==> StoppedWith(r, factory, calls, P.Rejected) || FailedWith(r, factory, p, calls, Reject)) &&
    (kind == FailedTerminal <==>
     StoppedWith(r, factory, calls, P.Failed) || CancelledAfter(r, factory, calls) ||
     FailedWith(r, factory, p, calls, Fail))
  }

  /** A trace entry says what its call did. */
  predicate Describes<S>(rec: P.Record, c: P.Call<S>) {
    rec.stage == c.stage && c.answer.Ok? &&
    match rec
    case Continued(_, next) => c.answer.value.Continue? && c.answer.value.next == Some(next)
    case Stopped(_, outcome) => c.answer.value.Stop? && c.answer.value.outcome == Some(outcome)
  }

  ghost predicate Traces<S>(trace: seq<P.Record>, calls: seq<P.Call<S>>) {
    |trace| == |calls| && forall i :: 0 <= i < |calls| ==> Describes(trace[i], calls[i])
  }

  /** What else an outcome reports: the run as far as it got, or what the policies say of the exception. */
  ghost predicate Detailed<S(!new)>(
    r: P.Runner<S>, factory: Result<S, P.Exn>, p: Policies, calls: seq<P.Call<S>>, out: IngestionOutcome<S>)
  {
    if out.state.Some? then
      factory.Ok? && out.retryPlan == None && out.emission == Skipped && Traces(out.trace, calls) &&
      if calls == [] then out.state.value == factory.value && out.finalStage == None
      else out.state.value == P.After(calls[|calls| - 1]) && out.finalStage == Some(calls[|calls| - 1].stage)
    else
      exists o :: FailedAs(r, factory, p, calls, o) && out.trace == [] &&
        out.finalStage == o.stage && out.retryPlan == o.retryPlan &&
        (out.emission == Skipped <==> !o.shouldEmit || p.emitter.None?) &&
        (out.emission == Emitted <==> o.shouldEmit && p.emitter.Some? && p.emitter.value(o))
  }

  lemma ClassifiedIff(p: Policies, f: P.Fault, stage: Option<P.StageId>, c: Classification)
    ensures ClassifiedAs(p, f, stage, c) <==> stage == StageOf(f) && c == Classify(p, f)
  {
  }

  lemma DecidedIff(p: Policies, c: Classification, o: FailureOutcome)
    ensures DecidedAs(p, c, o) <==> o == Decide(p, c)
  {
  }

  lemma OneFault<S(!new)>(r: P.Runner<S>, factory: Result<S, P.Exn>, calls: seq<P.Call<S>>, f: P.Fault, g: P.Fault)
    requires Caught(r, factory, calls, f) && Caught(r, factory, calls, g)
    ensures f == g
  {
  }

  /** One exception, one classification, one failure: the one `NormalizeException` reports. */
  lemma FailedAsIff<S(!new)>(r: P.Runner<S>, factory: Result<S, P.Exn>, p: Policies, calls: seq<P.Call<S>>, f: P.Fault,
      o: FailureOutcome)
    requires Caught(r, factory, calls, f)
    ensures FailedAs(r, factory, p, calls, o) <==> o == Decide(p, Classify(p, f))
  {
    ClassifiedIff(p, f, StageOf(f), Classify(p, f));
    DecidedIff(p, Classify(p, f), o);
    if g, stage, c :| Caught(r, factory, calls, g) && ClassifiedAs(p, g, stage, c) && DecidedAs(p, c, o) {
      OneFault(r, factory, calls, f, g);
      ClassifiedIff(p, f, stage, c);
    }
  }

  lemma RaisedExplained<S(!new)>(r: P.Runner<S>, factory: Result<S, P.Exn>, p: Policies, calls: seq<P.Call<S>>,
      f: P.Fault)
    requires Caught(r, factory, calls, f) && !CancelledAfter(r, factory, calls)
    requires forall t :: !StoppedWith(r, factory, calls, t)
    ensures KindsExplained(r, factory, p, calls, NormalizeException<S>(p, f).kind)
    ensures Detailed(r, factory, p, calls, NormalizeException<S>(p, f))
  {
    var o := Decide(p, Classify(p, f));
    FailedAsIff(r, factory, p, calls, f, o);
    forall o' | FailedAs(r, factory, p, calls, o') ensures o' == o {
      FailedAsIff(r, factory, p, calls, f, o');
    }
  }

  /** How a run of the pipeline ended is what the calls say. */
  lemma EndTold<S(!new)>(r: P.Runner<S>, init: S, calls: seq<P.Call<S>>, end: P.End<S>)
    requires r.cancelOutcome == P.Failed && P.Chained(r, init, calls) && P.EndsAs(r, init, calls, end)
    ensures end.Raised? ==>
              Caught(r, Ok(init), calls, end.fault) && !CancelledAfter(r, Ok(init), calls) &&
              forall t :: !StoppedWith(r, Ok(init), calls, t)
    ensures end.Returned? ==>
              (forall f :: !Caught(r, Ok(init), calls, f)) &&
              (forall t :: StoppedWith(r, Ok(init), calls, t) <==>
                  t == end.outcome && !CancelledAfter(r, Ok(init), calls)) &&
              (CancelledAfter(r, Ok(init), calls) ==> end.outcome == P.Failed)
    ensures end.Returned? ==>
              Traces(end.log, calls) && end.state == P.State(init, calls) && end.last == P.LastStage(calls)
  {
    P.LinkedGo(r, init, calls);
    var n := |calls|;
    if n > 0 {
      assert P.Linked(r, init, calls, n - 1);
    }
  }

  lemma EndExplained<S(!new)>(r: P.Runner<S>, init: S, p: Policies, calls: seq<P.Call<S>>, end: P.End<S>)
    requires r.cancelOutcome == P.Failed && P.Chained(r, init, calls) && P.EndsAs(r, init, calls, end)
    ensures KindsExplained(r, Ok(init), p, calls, MapEnd(p, end).kind)
    ensures Detailed(r, Ok(init), p, calls, MapEnd(p, end))
  {
    EndTold(r, init, calls, end);
    if end.Raised? {
      RaisedExplained(r, Ok(init), p, calls, end.fault);
    }
  }

  /** How the engine has cancellation reported is not what the explanations look at. */
  lemma SameFailures<S(!new)>(r: P.Runner<S>, factory: Result<S, P.Exn>, p: Policies, calls: seq<P.Call<S>>,
      o: FailureOutcome)
    ensures FailedAs(Engined(r), factory, p, calls, o) <==> FailedAs(r, factory, p, calls, o)
  {
    forall f ensures Caught(Engined(r), factory, calls, f) <==> Caught(r, factory, calls, f) {
    }
  }

  lemma SameExplanations<S(!new)>(r: P.Runner<S>, factory: Result<S, P.Exn>, p: Policies, calls: seq<P.Call<S>>,
      out: IngestionOutcome<S>)
    requires KindsExplained(Engined(r), factory, p, calls, out.kind) && Detailed(Engined(r), factory, p, calls, out)
    ensures KindsExplained(r, factory, p, calls, out.kind) && Detailed(r, factory, p, calls, out)
  {
    forall o ensures FailedAs(Engined(r), factory, p, calls, o) <==> FailedAs(r, factory, p, calls, o) {
      SameFailures(r, factory, p, calls, o);
    }
    forall t ensures StoppedWith(Engined(r), factory, calls, t) <==> StoppedWith(r, factory, calls, t) {
    }
    assert CancelledAfter(Engined(r), factory, calls) <==> CancelledAfter(r, factory, calls);
    forall k ensures FailedWith(Engined(r), factory, p, calls, k) <==> FailedWith(r, factory, p, calls, k) {
      if FailedWith(Engined(r), factory, p, calls, k) {
        var o :| FailedAs(Engined(r), factory, p, calls, o) && o.kind == k;
        assert FailedAs(r, factory, p, calls, o);
      }
      if FailedWith(r, factory, p, calls, k) {
        var o :| FailedAs(r, factory, p, calls, o) && o.kind == k;
        assert FailedAs(Engined(r), factory, p, calls, o);
      }
    }
  }

  lemma FactoryExplained<S(!new)>(r: P.Runner<S>, e: P.Exn, p: Policies)
    ensures KindsExplained(r, Err(e), p, [], NormalizeException<S>(p, P.Foreign(e)).kind)
    ensures Detailed(r, Err(e), p, [], NormalizeException<S>(p, P.Foreign(e)))
  {
    RaisedExplained(r, Err(e), p, [], P.Foreign(e));
  }

  /** Over the default table: the stages run in order, and success means that all six did. */
  lemma DefaultTable<S(!new)>(r: P.Runner<S>, init: S, p: Policies, calls: seq<P.Call<S>>, end: P.End<S>)
    requires P.Default(r) && r.cancelOutcome == P.Failed && P.Chained(r, init, calls) && P.EndsAs(r, init, calls, end)
    ensures |calls| <= 6 && P.Stages(calls) == P.ORDER[..|calls|]
    ensures var out := MapEnd(p, end);
            (out.kind == Succeeded <==>
             P.Stages(calls) == P.ORDER && P.Ends(P.TABLE, calls[5]) &&
             calls[5].answer.value.outcome == Some(P.Completed)) &&
            (out.kind == Succeeded ==> out.state == Some(P.After(calls[5])) && |out.trace| == 6)
  {
    P.StagesInOrder(r, init, calls);
    P.CompletedIff(r, init, calls, end);
  }

  /** `IngestionEngine.process`: an event's outcome and the handler calls it took. Over the
      default table it succeeds exactly when all six stages ran in order and the last one
      completed; policies cannot turn anything else into a success. */
  method Process<S(!new)>(r: P.Runner<S>, factory: Result<S, P.Exn>, p: Policies)
    returns (out: IngestionOutcome<S>, calls: seq<P.Call<S>>)
    ensures factory.Err? ==> calls == []
    ensures factory.Ok? ==> P.Chained(Engined(r), factory.value, calls)
    ensures KindsExplained(r, factory, p, calls, out.kind) && Detailed(r, factory, p, calls, out)
    ensures P.Default(r) ==> |calls| <= 6 && P.Stages(calls) == P.ORDER[..|calls|]
    ensures P.Default(r) ==>
              (out.kind == Succeeded <==>
               factory.Ok? && P.Stages(calls) == P.ORDER && P.Ends(P.TABLE, calls[5]) &&
               calls[5].answer.value.outcome == Some(P.Completed))
    ensures P.Default(r) && out.kind == Succeeded ==> out.state == Some(P.After(calls[5])) && |out.trace| == 6
  {
    if factory.Err? {
      FactoryExplained(r, factory.error, p);
      return NormalizeException(p, P.Foreign(factory.error)), [];
    }
    var end: P.End<S>;
    end, calls := P.Run(Engined(r), factory.value);
    out := MapEnd(p, end);
    EndExplained(Engined(r), factory.value, p, calls, end);
    SameExplanations(r, factory, p, calls, out);
    if P.Default(r) {
      DefaultTable(Engined(r), factory.value, p, calls, end);
    }
  }
}
