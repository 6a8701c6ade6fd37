/** The stage pipeline: handlers called one after another under a transition table. */
module Pipeline {
  import opened Wrappers

  datatype StageId = Resolve | Stabilize | Transform | Route | Persist | PostPersist | OtherStage(name: string)

  datatype Terminal = Completed | Deferred | Retry | Rejected | Failed

  datatype Policy = Policy(nexts: set<StageId>, terminals: set<Terminal>)

  datatype Directive<+S> =
    | Continue(next: Option<StageId>, state: Option<S>)
    | Stop(outcome: Option<Terminal>, state: Option<S>)
    | Unknown(kind: string, state: Option<S>)

  /** An exception of a handler or of the cancellation signal. */
  datatype Exn = Exn(stageId: Option<StageId>, tag: int)

  datatype Fault =
    | BadMaxSteps
    | CycleGuard
    | BadTransition(stage: StageId)
    | MissingStage(stage: StageId)
    | Foreign(exn: Exn)

  datatype Record =
    | Continued(stage: StageId, next: StageId)
    | Stopped(stage: StageId, outcome: Terminal)

  /** One handler call: the stage, the state it was given and what came back. */
  datatype Call<+S> = Call(stage: StageId, before: S, answer: Result<Directive<S>, Exn>)

  datatype End<+S> =
    | Returned(outcome: Terminal, last: Option<StageId>, state: S, log: seq<Record>)
    | Raised(fault: Fault)

  /** A runner with its handlers and cancellation signal. Both may answer differently each
      time, so their answers depend on the number of calls made before. */
  datatype Runner<!S> = Runner(
    start: StageId,
    table: map<StageId, Policy>,
    maxSteps: int,
    handlers: map<StageId, (nat, S) -> Result<Directive<S>, Exn>>,
    cancel: nat -> Result<bool, Exn>,
    cancelOutcome: Terminal)

  function After<S>(c: Call<S>): S {
    if c.answer.Ok? && c.answer.value.state.Some? then c.answer.value.state.value else c.before
  }

  /** The directive of a call leads to another stage that the table allows. */
  predicate Goes<S(!new)>(table: map<StageId, Policy>, c: Call<S>) {
    c.answer.Ok? && c.answer.value.Continue? && c.answer.value.next.Some? &&
    c.stage in table && c.answer.value.next.value in table[c.stage].nexts
  }

  predicate Ends<S(!new)>(table: map<StageId, Policy>, c: Call<S>) {
    c.answer.Ok? && c.answer.value.Stop? && c.answer.value.outcome.Some? &&
    c.stage in table && c.answer.value.outcome.value in table[c.stage].terminals
  }

  function Log<S(!new)>(table: map<StageId, Policy>, calls: seq<Call<S>>): seq<Record>
    requires forall i :: 0 <= i < |calls| ==> Goes(table, calls[i])
  {
    seq(|calls|, i requires 0 <= i < |calls| &&
        Goes(table, calls[i]) => Continued(calls[i].stage, calls[i].answer.value.next.value))
  }

  /** `calls` are what the runner does: each call is made at the stage, and with the state, the
      one before led to, with the signal silent and the step guard not reached. */
  ghost predicate Chained<S(!new)>(r: Runner<S>, init: S, calls: seq<Call<S>>) {
    forall i: nat :: i < |calls| ==> Linked(r, init, calls, i)
  }

  ghost predicate Linked<S(!new)>(r: Runner<S>, init: S, calls: seq<Call<S>>, i: nat)
    requires i < |calls|
  {
    var c := calls[i];
    i < r.maxSteps && r.cancel(i) == Ok(false) &&
    c.stage in r.table && c.stage in r.handlers && c.answer == r.handlers[c.stage](i, c.before) &&
    if i == 0 then c.stage == r.start && c.before == init
    else Goes(r.table, calls[i - 1]) && c.stage == calls[i - 1].answer.value.next.value &&
         c.before == After(calls[i - 1])
  }

  /** Where the runner stands after calls that all lead on. */
  function Stage<S(!new)>(r: Runner<S>, calls: seq<Call<S>>): StageId
    requires calls != [] ==> Goes(r.table, calls[|calls| - 1])
  {
    if calls == [] then r.start else calls[|calls| - 1].answer.value.next.value
  }

  function State<S>(init: S, calls: seq<Call<S>>): S {
    if calls == [] then init else After(calls[|calls| - 1])
  }

  function LastStage<S>(calls: seq<Call<S>>): Option<StageId> {
    if calls == [] then None else Some(calls[|calls| - 1].stage)
  }

  /** How a run that made these calls ends. */
  ghost predicate EndsAs<S(!new)>(r: Runner<S>, init: S, calls: seq<Call<S>>, end: End<S>)
    requires Chained(r, init, calls)
  {
    var n := |calls|;
    if r.maxSteps <= 0 then calls == [] && end == Raised(BadMaxSteps)
    else if n > 0 && !Goes(r.table, calls[n - 1]) then
      LinkedGo(r, init, calls);
      end == Verdict(r.table, calls)
    else
      LinkedGo(r, init, calls);
      Stuck(r, n, Stage(r, calls)) && end == Halt(r, init, calls, Stage(r, calls))
  }

  predicate Stuck<S(!new)>(r: Runner<S>, n: nat, stage: StageId) {
    r.cancel(n) != Ok(false) || n >= r.maxSteps || stage !in r.table || stage !in r.handlers
  }

  lemma LinkedGo<S(!new)>(r: Runner<S>, init: S, calls: seq<Call<S>>)
    requires Chained(r, init, calls)
    ensures forall i :: 0 <= i < |calls| - 1 ==> Goes(r.table, calls[i])
    ensures calls != [] && Goes(r.table, calls[|calls| - 1]) ==> forall i :: 0 <= i < |calls| ==>
            Goes(r.table, calls[i])
    ensures calls != [] ==> calls[|calls| - 1].stage in r.table
  {
    forall i | 0 <= i < |calls| - 1 ensures Goes(r.table, calls[i]) {
      assert Linked(r, init, calls, i + 1);
    }
    if calls != [] {
      assert Linked(r, init, calls, |calls| - 1);
    }
  }

  /** The end a last call that does not lead on brings about. */
  function Verdict<S(!new)>(table: map<StageId, Policy>, calls: seq<Call<S>>): End<S>
    requires calls != []
    requires forall i :: 0 <= i < |calls| - 1 ==> Goes(table, calls[i])
  {
    var n := |calls|;
    var c := calls[n - 1];
    if c.answer.Err? then Raised(Foreign(c.answer.error))
    else if Ends(table, c) then
      var outcome := c.answer.value.outcome.value;
      Returned(outcome, Some(c.stage), After(c), Log(table, calls[..n - 1]) + [Stopped(c.stage, outcome)])
    else Raised(BadTransition(c.stage))
  }

  /** The end a run meets before its next call. */
  function Halt<S(!new)>(r: Runner<S>, init: S, calls: seq<Call<S>>, stage: StageId): End<S>
    requires forall i :: 0 <= i < |calls| ==> Goes(r.table, calls[i])
  {
    var n := |calls|;
    if r.cancel(n).Err? then Raised(Foreign(r.cancel(n).error))
    else if r.cancel(n).value then
      Returned(r.cancelOutcome, LastStage(calls), State(init, calls), Log(r.table, calls))
    else if n >= r.maxSteps then Raised(CycleGuard)
    else if stage !in r.table then Raised(BadTransition(stage))
    else Raised(MissingStage(stage))
  }

  lemma ChainGrows<S(!new)>(r: Runner<S>, init: S, calls: seq<Call<S>>, c: Call<S>)
    requires Chained(r, init, calls)
    requires Linked(r, init, calls + [c], |calls|)
    ensures Chained(r, init, calls + [c])
  {
    var more := calls + [c];
    forall i: nat | i < |more| ensures Linked(r, init, more, i) {
      if i < |calls| {
        assert Linked(r, init, calls, i);
      }
    }
  }

  /** `PipelineRunner.run`, with the handler calls it makes. */
  method Run<S(!new)>(r: Runner<S>, init: S) returns (end: End<S>, calls: seq<Call<S>>)
    ensures Chained(r, init, calls) && EndsAs(r, init, calls, end)
  {
    calls := [];
    if r.maxSteps <= 0 {
      return Raised(BadMaxSteps), calls;
    }
    var stage, state, log, last := r.start, init, [], None;
    while true
      invariant Chained(r, init, calls) && |calls| <= r.maxSteps
      invariant forall i :: 0 <= i < |calls| ==> Goes(r.table, calls[i])
      invariant stage == Stage(r, calls) && state == State(init, calls)
      invariant log == Log(r.table, calls) && last == LastStage(calls)
      decreases r.maxSteps - |calls|
    {
      var steps := |calls|;
      var cancelled := r.cancel(steps);
      if cancelled.Err? { return Raised(Foreign(cancelled.error)), calls; }
      if cancelled.value { return Returned(r.cancelOutcome, last, state, log), calls; }
      if steps >= r.maxSteps { return Raised(CycleGuard), calls; }
      if stage !in r.table { return Raised(BadTransition(stage)), calls; }
      if stage !in r.handlers { return Raised(MissingStage(stage)), calls; }
      var answer := r.handlers[stage](steps, state);
      var c := Call(stage, state, answer);
      ChainGrows(r, init, calls, c);
      ghost var before := calls;
      calls := calls + [c];
      assert calls[..|before|] == before;
      if answer.Err? { return Raised(Foreign(answer.error)), calls; }
      var d := answer.value;
      if d.state.Some? { state := d.state.value; }
      last := Some(stage);
      if d.Continue? {
        if d.next.None? || d.next.value !in r.table[stage].nexts { return Raised(BadTransition(stage)), calls; }
        log := log + [Continued(stage, d.next.value)];
        stage := d.next.value;
      } else if d.Stop? {
        if d.outcome.None? ||
            d.outcome.value !in r.table[stage].terminals { return Raised(BadTransition(stage)), calls; }
        log := log + [Stopped(stage, d.outcome.value)];
        return Returned(d.outcome.value, last, state, log), calls;
      } else {
        return Raised(BadTransition(stage)), calls;
      }
    }
  }

  /** A run is determined by the runner and the initial state. */
  lemma {:induction false} SameCalls<S(!new)>(r: Runner<S>, init: S, a: seq<Call<S>>, b: seq<Call<S>>, n: nat)
    requires Chained(r, init, a) && Chained(r, init, b) && n <= |a| && n <= |b|
    ensures a[..n] == b[..n]
  {
    if n > 0 {
      SameCalls(r, init, a, b, n - 1);
      assert Linked(r, init, a, n - 1) && Linked(r, init, b, n - 1);
      if n > 1 {
        assert a[..n - 1][n - 2] == b[..n - 1][n - 2];
      }
      assert a[..n] == a[..n - 1] + [a[n - 1]] && b[..n] == b[..n - 1] + [b[n - 1]];
    }
  }

  // ----- the default transition table -----

  const ORDER := [Resolve, Stabilize, Transform, Route, Persist, PostPersist]

  const TABLE: map<StageId, Policy> := map[
    Resolve := Policy({Stabilize}, {Rejected, Failed}),
    Stabilize := Policy({Transform}, {Retry, Rejected, Failed}),
    Transform := Policy({Route}, {Deferred, Retry, Rejected, Failed}),
    Route := Policy({Persist}, {Rejected, Failed}),
    Persist := Policy({PostPersist}, {Retry, Rejected, Failed}),
    PostPersist := Policy({}, {Completed, Failed})]

  /** A runner over the default table, started where the table starts. */
  predicate Default<S(!new)>(r: Runner<S>) { r.start == Resolve && r.table == TABLE }

  function Stages<S>(calls: seq<Call<S>>): (s: seq<StageId>)
    ensures |s| == |calls| && forall i :: 0 <= i < |calls| ==> s[i] == calls[i].stage
  {
    seq(|calls|, i requires 0 <= i < |calls| => calls[i].stage)
  }

  lemma {:induction false} CallAt<S(!new)>(r: Runner<S>, init: S, calls: seq<Call<S>>, i: nat)
    requires Default(r) && Chained(r, init, calls) && i < |calls|
    ensures i < |ORDER| && calls[i].stage == ORDER[i]
  {
    assert Linked(r, init, calls, i);
    if i > 0 {
      CallAt(r, init, calls, i - 1);
    }
  }

  /** For arbitrary handlers, the stages called are the fixed order up to some point. */
  lemma StagesInOrder<S(!new)>(r: Runner<S>, init: S, calls: seq<Call<S>>)
    requires Default(r) && Chained(r, init, calls)
    ensures |calls| <= |ORDER| && Stages(calls) == ORDER[..|calls|]
  {
    if calls != [] {
      CallAt(r, init, calls, |calls| - 1);
    }
    forall i: nat | i < |calls| ensures calls[i].stage == ORDER[i] {
      CallAt(r, init, calls, i);
    }
  }

  /** The last stage of the order leads nowhere, so six calls never lead on. */
  lemma SixthStops<S(!new)>(r: Runner<S>, init: S, calls: seq<Call<S>>)
    requires Default(r) && Chained(r, init, calls) && |calls| == |ORDER|
    ensures !Goes(r.table, calls[|calls| - 1])
  {
    CallAt(r, init, calls, |calls| - 1);
  }

  /** A guard of six or more steps never fires, and with all six handlers bound no stage is
      ever missing a handler or a policy. */
  lemma GuardNeverFires<S(!new)>(r: Runner<S>, init: S, calls: seq<Call<S>>, end: End<S>)
    requires Default(r) && Chained(r, init, calls) && EndsAs(r, init, calls, end)
    requires r.maxSteps >= |ORDER| && forall s :: s in ORDER ==> s in r.handlers
    requires end.Raised? && !end.fault.Foreign?
    ensures calls != [] && end.fault == BadTransition(calls[|calls| - 1].stage)
  {
    StagesInOrder(r, init, calls);
    LinkedGo(r, init, calls);
    var n := |calls|;
    if n == |ORDER| {
      SixthStops(r, init, calls);
    }
    if n == 0 || Goes(r.table, calls[n - 1]) {
      if n > 0 {
        CallAt(r, init, calls, n - 1);
      }
    }
  }

  /** Completion means that the whole order ran and the last stage said so. */
  lemma CompletedIff<S(!new)>(r: Runner<S>, init: S, calls: seq<Call<S>>, end: End<S>)
    requires Default(r) && Chained(r, init, calls) && EndsAs(r, init, calls, end) && r.cancelOutcome != Completed
    ensures end.Returned? && end.outcome == Completed <==>
            (Stages(calls) == ORDER && Ends(TABLE, calls[5]) && calls[5].answer.value.outcome == Some(Completed))
    ensures end.Returned? && end.outcome == Completed ==>
              end.state == After(calls[5]) && |end.log| == 6 && end.last == Some(PostPersist)
  {
    StagesInOrder(r, init, calls);
    LinkedGo(r, init, calls);
    if |calls| == |ORDER| {
      SixthStops(r, init, calls);
    }
    if calls != [] {
      CallAt(r, init, calls, |calls| - 1);
    }
  }

  /** A handler's request to stop is honoured if and only if its stage may end that way: a run
      completes in the sixth stage only, is deferred in the third, retried in the second, third and
      fifth, rejected in any but the last, and may fail anywhere. */
  lemma StopHonouredIff<S(!new)>(r: Runner<S>, init: S, calls: seq<Call<S>>, end: End<S>, outcome: Terminal)
    requires Default(r) && Chained(r, init, calls) && EndsAs(r, init, calls, end)
    requires calls != []
    requires var a := calls[|calls| - 1].answer; a.Ok? && a.value.Stop? && a.value.outcome == Some(outcome)
    ensures end.Returned? <==>
            match outcome
            case Completed => |calls| == 6
            case Deferred => |calls| == 3
            case Retry => |calls| in {2, 3, 5}
            case Rejected => |calls| <= 5
            case Failed => true
    ensures end.Returned? ==> end.outcome == outcome
    ensures end.Raised? ==> end.fault == BadTransition(calls[|calls| - 1].stage)
  {
    LinkedGo(r, init, calls);
    CallAt(r, init, calls, |calls| - 1);
  }

  /** A handler's request to go on is honoured if and only if it names the next stage of the order. */
  lemma GoHonouredIff<S(!new)>(r: Runner<S>, init: S, calls: seq<Call<S>>, next: StageId)
    requires Default(r) && Chained(r, init, calls) && calls != []
    requires var a := calls[|calls| - 1].answer; a.Ok? && a.value.Continue? && a.value.next == Some(next)
    ensures Goes(r.table, calls[|calls| - 1]) <==> |calls| < 6 && next == ORDER[|calls|]
  {
    CallAt(r, init, calls, |calls| - 1);
  }
}
