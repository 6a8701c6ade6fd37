/** Why a run of the shipped stages ends as it does, told from what the surroundings answered. */
module IngestionEnds {
  import opened Wrappers
  import opened PurePaths
  import opened Pipeline
  import opened IngestionStages
  import MP = MovePlan
  import Text

  /** A run of the shipped stages over the default table, with cancellation reported as failure. */
  ghost predicate Ran(cfg: Config, w: nat -> World, r: Runner<State>, init: State, calls: seq<Call<State>>) {
    Default(r) && r.handlers == Shipped(cfg, w) && r.cancelOutcome == Failed && Chained(r, init, calls)
  }

  lemma AnswerAt(cfg: Config, w: nat -> World, r: Runner<State>, init: State, calls: seq<Call<State>>, i: nat)
    requires Ran(cfg, w, r, init, calls) && i < |calls|
    ensures i < 6 && calls[i].answer == Handle(cfg, w(i), ORDER[i], calls[i].before)
    ensures i == 0 ==> calls[i].before == init
  {
    CallAt(r, init, calls, i);
    assert Linked(r, init, calls, i);
  }

  lemma LeadsTo(cfg: Config, w: nat -> World, r: Runner<State>, init: State, calls: seq<Call<State>>, i: nat)
    requires Ran(cfg, w, r, init, calls) && i + 1 < |calls|
    ensures i < 5 && Handle(cfg, w(i), ORDER[i], calls[i].before) == Leads(ORDER[i + 1], calls[i + 1].before)
  {
    AnswerAt(cfg, w, r, init, calls, i);
    AnswerAt(cfg, w, r, init, calls, i + 1);
    assert Linked(r, init, calls, i + 1);
    HandleLeads(cfg, w(i), i, calls[i].before);
  }

  /** What every stage after the first can rely on. */
  ghost predicate Carried(init: State, s: State, i: nat) {
    s.event == init.event && s.hasContext == init.hasContext && s.syncWarning == init.syncWarning &&
    s.attempt == init.attempt &&
    (i >= 1 ==> s.candidate.Some? && s.hasProcessor) &&
    (i >= 4 ==> s.candidate.value.targetPath.Some?) && (i >= 5 ==> s.recordId.Some?)
  }

  lemma CarriedOn(cfg: Config, w: World, init: State, s: State, t: State, i: nat)
    requires i < 5 && Carried(init, s, i) && Handle(cfg, w, ORDER[i], s) == Leads(ORDER[i + 1], t)
    ensures Carried(init, t, i + 1)
  {
    match i
    case 0 => assert Handle(cfg, w, Resolve, s) == RunResolve(w, s);
    case 1 => assert Handle(cfg, w, Stabilize, s) == RunStabilize(cfg, w, s);
    case 2 => assert Handle(cfg, w, Transform, s) == RunTransform(w, s);
    case 3 => assert Handle(cfg, w, Route, s) == RunRoute(cfg, w, s);
    case 4 => PersistCarries(w, s, t);
  }

  lemma PersistCarries(w: World, s: State, t: State)
    requires s.candidate.Some? && s.candidate.value.targetPath.Some? && RunPersist(w, s) == Leads(PostPersist, t)
    ensures t == s.(candidate := t.candidate, result := t.result, recordId := t.recordId)
    ensures t.candidate.Some? && t.candidate.value.targetPath.Some? && t.recordId.Some?
  {
  }

  lemma {:induction false} CarriedAt(cfg: Config, w: nat -> World, r: Runner<State>, init: State,
      calls: seq<Call<State>>, i: nat)
    requires Ran(cfg, w, r, init, calls) && i < |calls|
    ensures Carried(init, calls[i].before, i)
  {
    if i == 0 {
      AnswerAt(cfg, w, r, init, calls, 0);
    } else {
      CarriedAt(cfg, w, r, init, calls, i - 1);
      LeadsTo(cfg, w, r, init, calls, i - 1);
      CarriedOn(cfg, w(i - 1), init, calls[i - 1].before, calls[i].before, i - 1);
    }
  }

  // ----- what makes a stage stop -----

  predicate KnownKind(kind: string) { Text.Lower(Text.Strip(kind)) in {"created", "modified", "moved", "manual"} }

  /** The first stage refuses events without a path or of an unknown kind, and files no processor takes. */
  predicate Unwanted(w: World, s: State) {
    w.facts.Some? &&
    (Text.Strip(s.event.path) == "" || !KnownKind(s.event.kind) || w.selection.NotFound?)
  }

  /** Seconds since the last change, where known and not negative. */
  predicate StillSettling(cfg: Config, w: World, c: Candidate) {
    w.gate.Allow? && c.modifiedAt.Some? && 0 <= w.now - c.modifiedAt.value < cfg.settleDelay
  }

  /** The force path a route would have to follow. */
  predicate Forced(s: State) { s.event.forcePath.Some? && Text.Strip(s.event.forcePath.value) != "" }

  predicate Unroutable(cfg: Config, w: World, s: State) {
    w.routeRoot == "" || (Forced(s) && !UnderSomeRoot(cfg.allowedRoots, Norm(s.event.forcePath.value)))
  }

  /** The i-th of `n` moves is the first to fail, for this reason. */
  predicate FailsFirst(w: World, n: nat, i: nat, reason: string) {
    i < n && w.moves(i) == Some(reason) && forall j: nat :: j < i ==> w.moves(j).None?
  }

  ghost predicate MoveFails(w: World, n: nat, reason: string) { exists i: nat :: FailsFirst(w, n, i, reason) }

  ghost predicate SomeMoveFails(w: World, n: nat) { exists i: nat :: i < n && w.moves(i).Some? }

  lemma {:induction false} FirstFails(w: World, n: nat, reason: string)
    ensures FirstFailure(w.moves, n) == Some(reason) <==> MoveFails(w, n, reason)
  {
    if n > 0 {
      FirstFails(w, n - 1, reason);
      if FirstFailure(w.moves, n - 1).Some? {
        FirstFails(w, n - 1, FirstFailure(w.moves, n - 1).value);
      } else if w.moves(n - 1) == Some(reason) {
        assert FailsFirst(w, n, n - 1, reason);
      }
      if MoveFails(w, n - 1, reason) {
        var i: nat :| FailsFirst(w, n - 1, i, reason);
        assert FailsFirst(w, n, i, reason);
      }
    }
  }

  /** The handler asks to stop the run with this terminal. */
  predicate Asks(a: Answer, outcome: Terminal) { a.Ok? && a.value.Stop? && a.value.outcome == Some(outcome) }

  lemma ResolveStops(w: World, s: State, outcome: Terminal)
    requires outcome != Failed
    ensures Asks(RunResolve(w, s), outcome) <==> outcome == Rejected && Unwanted(w, s)
  {
  }

  lemma StabilizeStops(cfg: Config, w: World, s: State, outcome: Terminal)
    requires outcome != Failed && s.candidate.Some?
    ensures Asks(RunStabilize(cfg, w, s), outcome) <==>
            cfg.settleDelay >= 0 &&
            ((outcome == Rejected && w.gate.DropDuplicate?) ||
             (outcome == Retry && (w.gate.Defer? || StillSettling(cfg, w, s.candidate.value))))
  {
  }

  lemma TransformStops(w: World, s: State, outcome: Terminal)
    requires outcome != Failed && s.candidate.Some? && s.hasProcessor
    ensures Asks(RunTransform(w, s), outcome) <==> outcome == Deferred && s.hasContext && w.processing.NotSupported?
  {
  }

  lemma RouteStops(cfg: Config, w: World, s: State, outcome: Terminal)
    requires outcome != Failed && s.candidate.Some?
    ensures Asks(RunRoute(cfg, w, s), outcome) <==> outcome == Rejected && Unroutable(cfg, w, s)
  {
  }

  /** The result the record would keep passes its checks. */
  predicate Recordable(s: State)
    requires s.candidate.Some? && s.candidate.value.targetPath.Some?
  {
    MP.Recorded(s.candidate.value.targetPath.value, s.result).Some?
  }

  /** Why persisting stops short: a collision that is not to be retried, or a failure that is. */
  ghost predicate PersistStopsFor(w: World, s: State, n: nat, outcome: Terminal) {
    (outcome == Rejected && MoveFails(w, n, "collision") && w.planned.NotRetry?) ||
    (outcome == Retry && (SomeMoveFails(w, n) || w.saved.SaveFails?) && w.planned.RetryAt?)
  }

  lemma RetryOrAsks(w: World, s: State, otherwise: Terminal, outcome: Terminal)
    requires outcome != Failed
    ensures var a := RetryOr(w, s, otherwise);
            (Asks(a, outcome) <==>
             (w.planned.NotRetry? && outcome == otherwise) || (w.planned.RetryAt? && outcome == Retry)) &&
            (Asks(a, Retry) && w.planned.RetryAt? ==>
               a.value.state.Some? &&
               var t := a.value.state.value;
               t == s.(attempt := t.attempt) && t.attempt > s.attempt && t.attempt >= w.planned.nextAttempt)
  {
  }

  lemma PersistAtStops(w: World, s: State, c: Candidate, recorded: Option<Option<MP.ProcessorResult>>, n: nat,
      outcome: Terminal)
    requires outcome != Failed && c.targetPath.Some?
    ensures Asks(PersistAt(w, s, c, recorded, n), outcome) <==> recorded.Some? && PersistStopsFor(w, s, n, outcome)
  {
    FirstFails(w, n, "collision");
    RetryOrAsks(w, s, Rejected, outcome);
    RetryOrAsks(w, s, Failed, outcome);
  }

  lemma PersistStops(w: World, s: State, outcome: Terminal)
    requires outcome != Failed && s.candidate.Some? && s.candidate.value.targetPath.Some?
    ensures Asks(RunPersist(w, s), outcome) <==> Recordable(s) && PersistStopsFor(w, s, |PlanOf(s)|, outcome)
  {
    var c := s.candidate.value;
    PersistAtStops(w, s, c, MP.Recorded(c.targetPath.value, s.result), |PlanOf(s)|, outcome);
  }

  lemma PersistRetries(w: World, s: State)
    requires s.candidate.Some? && s.candidate.value.targetPath.Some? && Asks(RunPersist(w, s), Retry)
    ensures w.planned.RetryAt? && RunPersist(w, s).value.state.Some? &&
            var t := RunPersist(w, s).value.state.value;
            t.attempt > s.attempt && t.attempt >= w.planned.nextAttempt
  {
  }

  lemma PostPersistStops(cfg: Config, w: World, s: State, outcome: Terminal)
    requires outcome != Failed && s.candidate.Some? && s.recordId.Some?
    ensures Asks(RunPostPersist(cfg, w, s), outcome) <==> outcome == Completed && w.bookkept
    ensures w.bookkept ==>
              RunPostPersist(cfg, w, s).value.state.Some? &&
              (RunPostPersist(cfg, w, s).value.state.value.syncWarning <==>
               s.syncWarning || (cfg.syncEnabled && !w.synced))
  {
  }

  // ----- why a run ends -----

  /** Why the n-th call, counted from one and given `s`, ends the run with this terminal. */
  ghost predicate Reason(cfg: Config, w: World, init: State, s: State, n: nat, outcome: Terminal) {
    match n
    case 1 => outcome == Rejected && Unwanted(w, init)
    case 2 =>
      cfg.settleDelay >= 0 && s.candidate.Some? &&
      ((outcome == Rejected && w.gate.DropDuplicate?) ||
       (outcome == Retry && (w.gate.Defer? || StillSettling(cfg, w, s.candidate.value))))
    case 3 => outcome == Deferred && init.hasContext && w.processing.NotSupported?
    case 4 => outcome == Rejected && Unroutable(cfg, w, init)
    case 5 =>
      s.candidate.Some? && s.candidate.value.targetPath.Some? && Recordable(s) &&
      PersistStopsFor(w, s, |PlanOf(s)|, outcome)
    case 6 => outcome == Completed && w.bookkept
    case _ => false
  }

  lemma AnswerReason(cfg: Config, w: World, init: State, s: State, i: nat, outcome: Terminal)
    requires i < 6 && Carried(init, s, i) && (i == 0 ==> s == init) && outcome != Failed
    ensures Asks(Handle(cfg, w, ORDER[i], s), outcome) <==> Reason(cfg, w, init, s, i + 1, outcome)
  {
    match i
    case 0 => ResolveStops(w, s, outcome);
    case 1 => StabilizeStops(cfg, w, s, outcome);
    case 2 => TransformStops(w, s, outcome);
    case 3 => RouteStops(cfg, w, s, outcome);
    case 4 => PersistStops(w, s, outcome);
    case 5 => PostPersistStops(cfg, w, s, outcome);
  }

  /** A run of the shipped stages completes, is deferred, retried or rejected if and only if its
      last call found the reason for it. */
  lemma EndsForReason(cfg: Config, w: nat -> World, r: Runner<State>, init: State, calls: seq<Call<State>>,
      end: End<State>, outcome: Terminal)
    requires Ran(cfg, w, r, init, calls) && EndsAs(r, init, calls, end) && outcome != Failed
    ensures end.Returned? && end.outcome == outcome <==>
            calls != [] &&
            Reason(cfg, w(|calls| - 1), init, calls[|calls| - 1].before, |calls|, outcome)
  {
    LinkedGo(r, init, calls);
    if calls != [] {
      var n := |calls| - 1;
      CarriedAt(cfg, w, r, init, calls, n);
      AnswerAt(cfg, w, r, init, calls, n);
      AnswerReason(cfg, w(n), init, calls[n].before, n, outcome);
      if Asks(calls[n].answer, outcome) {
        StopHonouredIff(r, init, calls, end, outcome);
      }
    }
  }

  /** A run that persisting has retried comes back with a higher attempt, not below the planned one. */
  lemma RetryCountsUp(cfg: Config, w: nat -> World, r: Runner<State>, init: State, calls: seq<Call<State>>,
      end: End<State>)
    requires Ran(cfg, w, r, init, calls) && EndsAs(r, init, calls, end)
    requires end.Returned? && end.outcome == Retry && |calls| == 5
    ensures w(4).planned.RetryAt? && end.state.attempt > init.attempt &&
            end.state.attempt >= w(4).planned.nextAttempt
  {
    LinkedGo(r, init, calls);
    EndsForReason(cfg, w, r, init, calls, end, Retry);
    CarriedAt(cfg, w, r, init, calls, 4);
    AnswerAt(cfg, w, r, init, calls, 4);
    PersistStops(w(4), calls[4].before, Retry);
    PersistRetries(w(4), calls[4].before);
  }

  /** A completed run warns exactly when the sync was asked for and failed, or it was warned before. */
  lemma CompletedWarns(cfg: Config, w: nat -> World, r: Runner<State>, init: State, calls: seq<Call<State>>,
      end: End<State>)
    requires Ran(cfg, w, r, init, calls) && EndsAs(r, init, calls, end) && end.Returned? && end.outcome == Completed
    ensures |calls| == 6 && (end.state.syncWarning <==> init.syncWarning || (cfg.syncEnabled && !w(5).synced))
  {
    LinkedGo(r, init, calls);
    EndsForReason(cfg, w, r, init, calls, end, Completed);
    CarriedAt(cfg, w, r, init, calls, 5);
    AnswerAt(cfg, w, r, init, calls, 5);
    PostPersistStops(cfg, w(5), calls[5].before, Completed);
  }
}
