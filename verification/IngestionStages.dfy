/** The candidate and the six shipped pipeline stages, each a function of the state and of what
    its surroundings answer. */
module IngestionStages {
  import opened Wrappers
  import opened PurePaths
  import opened Pipeline
  import MP = MovePlan
  import Text

  datatype Candidate = Candidate(
    token: string,
    sourcePath: string,
    eventKind: string,
    modifiedAt: Option<int>,
    pluginId: Option<string>,
    processorKey: Option<string>,
    targetPath: Option<string>,
    recordId: Option<string>,
    persistedPath: Option<string>)

  datatype Event = Event(path: string, kind: string, forcePath: Option<string>)

  datatype State = State(
    event: Event,
    candidate: Option<Candidate>,
    hasProcessor: bool,
    hasContext: bool,
    result: Option<MP.ProcessorResult>,
    recordId: Option<string>,
    attempt: int,
    syncWarning: bool)

  datatype Config = Config(allowedRoots: seq<string>, settleDelay: int, syncEnabled: bool)

  datatype Selection = Selected(pluginId: string, processorKey: string) | NotFound | Ambiguous | SelectorRaises

  datatype Gate = Allow | DropDuplicate | Defer

  datatype Processing = PrepareFails | NotSupported | ProcessFails |
      Produced(finalPath: string, kind: string, forcePaths: seq<string>)

  /** What the retry planner answers. */
  datatype Planned = NoPlan | NotRetry | RetryAt(nextAttempt: int)

  datatype Saved = SaveFails | Stored(recordId: string)

  /** Everything the surroundings may answer during one handler call. */
  datatype World = World(
    facts: Option<Option<int>>,   // file facts with the modification time, `None` when unavailable
    token: string,
    selection: Selection,
    gate: Gate,
    now: int,
    processing: Processing,
    routeRoot: string,            // empty when no route rule applies
    defaultTarget: string,
    moves: nat -> Option<string>, // the i-th move's failure reason, `None` when it succeeds
    planned: Planned,
    saved: Saved,
    bookkept: bool,
    synced: bool)

  type Answer = Result<Directive<State>, Exn>

  const RAISED := Exn(None, 0)

  function Ends(outcome: Terminal, s: State): Answer { Ok(Stop(Some(outcome), Some(s))) }

  function Leads(next: StageId, s: State): Answer { Ok(Continue(Some(next), Some(s))) }

  // ----- enriching the candidate -----

  const KINDS := {"created", "modified", "moved", "manual"}

  /** `Candidate.from_event`; `None` is a `CandidateError`. */
  function FromEvent(e: Event, token: string, modifiedAt: Option<int>): Option<Candidate> {
    var path, kind := Text.Strip(e.path), Text.Lower(Text.Strip(e.kind));
    if path == "" || kind !in KINDS then None
    else Some(Candidate(token, Collapse(path), kind, modifiedAt, None, None, None, None, None))
  }

  function WithResolution(c: Candidate, pluginId: string, processorKey: string): Option<Candidate> {
    if pluginId == "" || processorKey == "" then None
    else Some(c.(pluginId := Some(pluginId), processorKey := Some(processorKey)))
  }

  function WithRoute(c: Candidate, target: string): Option<Candidate> {
    if c.pluginId.None? || c.processorKey.None? || MP.Blank(target) then None
    else Some(c.(targetPath := Some(Norm(target))))
  }

  function WithPersistResult(c: Candidate, recordId: string, path: string): Option<Candidate> {
    if c.targetPath.None? || recordId == "" then None
    else Some(c.(recordId := Some(recordId), persistedPath := Some(Norm(path))))
  }

  // ----- the stages -----

  function RunResolve(w: World, s: State): Answer {
    if w.facts.None? then Ends(Failed, s)
    else
      var c := FromEvent(s.event, w.token, w.facts.value);
      if c.None? then Ends(Rejected, s)
      else
        match w.selection
        case NotFound => Ends(Rejected, s)
        case Ambiguous => Ends(Failed, s)
        case SelectorRaises => Err(RAISED)
        case Selected(pluginId, key) =>
          var resolved := WithResolution(c.value, pluginId, key);
          if resolved.None? then Err(RAISED)
          else Leads(Stabilize, s.(candidate := resolved, hasProcessor := true))
  }

  function RunStabilize(cfg: Config, w: World, s: State): Answer {
    if cfg.settleDelay < 0 then Err(RAISED)
    else if s.candidate.None? then Ends(Failed, s)
    else if w.gate.DropDuplicate? then Ends(Rejected, s)
    else if w.gate.Defer? then Ends(Retry, s)
    else
      var modifiedAt := s.candidate.value.modifiedAt;
      if modifiedAt.None? || w.now < modifiedAt.value then Ends(Failed, s)
      else if w.now - modifiedAt.value < cfg.settleDelay then Ends(Retry, s)
      else Leads(Transform, s)
  }

  function RunTransform(w: World, s: State): Answer {
    if s.candidate.None? || !s.hasProcessor || !s.hasContext then Ends(Failed, s)
    else
      match w.processing
      case PrepareFails => Ends(Failed, s)
      case NotSupported => Ends(Deferred, s)
      case ProcessFails => Ends(Failed, s)
      case Produced(finalPath, kind, forcePaths) =>
        var result := MP.Checked(finalPath, kind, forcePaths);
        if result.None? then Ends(Failed, s) else Leads(Route, s.(result := result))
  }

  /** `s.rstrip("/")`. */
  function RStripSlash(s: string): string {
    if s != "" && s[|s| - 1] == '/' then RStripSlash(s[..|s| - 1]) else s
  }

  predicate UnderRoot(path: string, root: string) {
    var p, r := RStripSlash(Text.Lower(Norm(path))), RStripSlash(Text.Lower(Norm(root)));
    p == r || r + "/" <= p
  }

  predicate UnderSomeRoot(roots: seq<string>, path: string) {
    roots != [] && (UnderRoot(path, roots[0]) || UnderSomeRoot(roots[1..], path))
  }

  /** `evaluate_force_path`; `None` rejects the override. */
  function ForcePath(roots: seq<string>, forced: Option<string>, default: string): Option<string> {
    if forced.None? || MP.Blank(forced.value) then Some(Norm(default))
    else if !UnderSomeRoot(roots, Norm(forced.value)) then None
    else Some(Norm(forced.value))
  }

  function RunRoute(cfg: Config, w: World, s: State): Answer {
    if s.candidate.None? then Ends(Failed, s)
    else if w.routeRoot == "" then Ends(Rejected, s)
    else
      var path := ForcePath(cfg.allowedRoots, s.event.forcePath, w.defaultTarget);
      if path.None? then Ends(Rejected, s)
      else
        var routed := WithRoute(s.candidate.value, path.value);
        if routed.None? then Err(RAISED) else Leads(Persist, s.(candidate := routed))
  }

  /** The reason of the first of `n` moves that fails. */
  function FirstFailure(answers: nat -> Option<string>, n: nat): (r: Option<string>)
    ensures r.None? <==> forall i: nat :: i < n ==> answers(i).None?
  {
    if n == 0 then None
    else if FirstFailure(answers, n - 1).Some? then FirstFailure(answers, n - 1)
    else answers(n - 1)
  }

  /** The loop over the moves: it stops at the first failure, having made every move before. */
  method MoveAll(plan: seq<MP.Move>, answers: nat -> Option<string>) returns (reason: Option<string>, made: nat)
    ensures reason == FirstFailure(answers, |plan|)
    ensures made <= |plan| && forall i: nat :: i < made ==> answers(i).None?
    ensures if reason.None? then made == |plan| else made < |plan| && answers(made) == reason
  {
    reason, made := None, 0;
    while made < |plan|
      invariant made <= |plan| && FirstFailure(answers, made).None?
    {
      var a := answers(made);
      if a.Some? {
        FailureStays(answers, made + 1, |plan|);
        return a, made;
      }
      made := made + 1;
    }
  }

  lemma {:induction false} FailureStays(answers: nat -> Option<string>, m: nat, n: nat)
    requires m <= n && FirstFailure(answers, m).Some?
    ensures FirstFailure(answers, n) == FirstFailure(answers, m)
    decreases n
  {
    if m < n {
      FailureStays(answers, m, n - 1);
    }
  }

  /** A failed call is retried when the planner says so, always at a later attempt. */
  function RetryOr(w: World, s: State, otherwise: Terminal): Answer {
    match w.planned
    case NoPlan => Ends(Failed, s)
    case NotRetry => Ends(otherwise, s)
    case RetryAt(n) => Ends(Retry, s.(attempt := if n <= s.attempt then s.attempt + 1 else n))
  }

  function RecordId(raw: string): (r: string)
    ensures r != ""
  {
    if Text.Strip(raw) == "" then "unknown-record" else Text.Strip(raw)
  }

  function PlanOf(s: State): seq<MP.Move>
    requires s.candidate.Some? && s.candidate.value.targetPath.Some?
  {
    MP.Plan(s.candidate.value.sourcePath, s.candidate.value.targetPath.value, s.result)
  }

  function RunPersist(w: World, s: State): Answer {
    if s.candidate.None? || s.candidate.value.targetPath.None? then Ends(Failed, s)
    else PersistAt(w, s, s.candidate.value, MP.Recorded(s.candidate.value.targetPath.value, s.result), |PlanOf(s)|)
  }

  /** The moves and the record of candidate `c`, given the result to record and the number of
      moves. */
  function PersistAt(w: World, s: State, c: Candidate, recorded: Option<Option<MP.ProcessorResult>>, moves: nat): Answer
    requires c.targetPath.Some?
  {
    var reason := FirstFailure(w.moves, moves);
    if recorded.None? then Err(RAISED)
    else if reason.Some? then RetryOr(w, s, if reason.value == "collision" then Rejected else Failed)
    else if w.saved.SaveFails? then RetryOr(w, s, Failed)
    else
      var id := RecordId(w.saved.recordId);
      var persisted := WithPersistResult(c, id, c.targetPath.value);
      if persisted.None? then Err(RAISED)
      else Leads(PostPersist, s.(candidate := persisted, result := recorded.value, recordId := Some(id)))
  }

  function RunPostPersist(cfg: Config, w: World, s: State): Answer {
    if s.candidate.None? || s.recordId.None? || !w.bookkept then Ends(Failed, s)
    else Ends(Completed, s.(syncWarning := s.syncWarning || (cfg.syncEnabled && !w.synced)))
  }

  function Handle(cfg: Config, w: World, stage: StageId, s: State): Answer {
    match stage
    case Resolve => RunResolve(w, s)
    case Stabilize => RunStabilize(cfg, w, s)
    case Transform => RunTransform(w, s)
    case Route => RunRoute(cfg, w, s)
    case Persist => RunPersist(w, s)
    case PostPersist => RunPostPersist(cfg, w, s)
    case OtherStage(_) => Err(RAISED)
  }

  function Shipped(cfg: Config, w: nat -> World): map<StageId, (nat, State) -> Answer> {
    map stage | stage in ORDER :: (n: nat, s: State) => Handle(cfg, w(n), stage, s)
  }

  // ----- what each stage establishes -----

  ghost predicate Resolved(s: State) {
    s.candidate.Some? &&
    var c := s.candidate.value;
    c.sourcePath == Collapse(Text.Strip(s.event.path)) &&
    c.pluginId.Some? && c.pluginId.value != "" && c.processorKey.Some? && c.processorKey.value != ""
  }

  /** Routed to a settled path: the default, or a forced one under an allowed root. */
  ghost predicate Routed(cfg: Config, default: string, s: State) {
    Resolved(s) && s.candidate.value.targetPath.Some? &&
    var t := s.candidate.value.targetPath.value;
    Norm(t) == t && (t == Norm(Norm(default)) || UnderSomeRoot(cfg.allowedRoots, t))
  }

  ghost predicate Persisted(s: State) {
    s.candidate.Some? &&
    var c := s.candidate.value;
    c.targetPath.Some? && c.persistedPath == c.targetPath &&
    c.recordId == s.recordId && s.recordId.Some? && s.recordId.value != ""
  }

  lemma {:induction false} SettledRoot(roots: seq<string>, path: string)
    requires UnderSomeRoot(roots, Norm(path))
    ensures UnderSomeRoot(roots, Norm(Norm(path)))
  {
    NormSettles(path);
    if !UnderRoot(Norm(path), roots[0]) {
      SettledRoot(roots[1..], path);
    }
  }

  lemma RouteRoutes(cfg: Config, w: World, s: State, t: State)
    requires Resolved(s) && RunRoute(cfg, w, s) == Leads(Persist, t)
    ensures Routed(cfg, w.defaultTarget, t) && t.result == s.result
    ensures var forced := s.event.forcePath;
            var chosen := if forced.Some? && Text.Strip(forced.value) != "" then forced.value else w.defaultTarget;
            t.candidate.value == s.candidate.value.(targetPath := Some(Norm(Norm(chosen))))
  {
    var forced := s.event.forcePath;
    var chosen := if forced.None? || MP.Blank(forced.value) then w.defaultTarget else forced.value;
    var path := ForcePath(cfg.allowedRoots, forced, w.defaultTarget).value;
    assert path == Norm(chosen);
    NormSettles(chosen);
    if UnderSomeRoot(cfg.allowedRoots, path) {
      SettledRoot(cfg.allowedRoots, chosen);
    }
    assert t.candidate == WithRoute(s.candidate.value, path);
    assert t.candidate.value.targetPath.value == Norm(path);
  }

  /** Persisting puts the candidate at its routed path, after every planned move succeeded. */
  lemma PersistPersists(w: World, s: State, t: State)
    requires s.candidate.Some? && s.candidate.value.targetPath.Some?
    requires Norm(s.candidate.value.targetPath.value) == s.candidate.value.targetPath.value
    requires RunPersist(w, s) == Leads(PostPersist, t)
    ensures Arrived(w, s, t)
  {
  }

  // ----- whole runs -----

  ghost predicate ShippedRun(cfg: Config, w: nat -> World, r: Runner<State>, init: State, calls: seq<Call<State>>) {
    Default(r) && r.handlers == Shipped(cfg, w) && Chained(r, init, calls) && |calls| == 6
  }

  lemma ShippedStep(cfg: Config, w: nat -> World, r: Runner<State>, init: State, calls: seq<Call<State>>, i: nat)
    requires ShippedRun(cfg, w, r, init, calls) && i < 6
    ensures calls[i].answer == Handle(cfg, w(i), ORDER[i], calls[i].before)
    ensures i < 5 ==> calls[i].answer.Ok? && calls[i].answer.value.Continue? && calls[i + 1].before == After(calls[i])
  {
    CallAt(r, init, calls, i);
    assert Linked(r, init, calls, i);
    if i < 5 {
      assert Linked(r, init, calls, i + 1);
    }
  }

  lemma HandleLeads(cfg: Config, w: World, i: nat, s: State)
    requires i < 5
    ensures var a := Handle(cfg, w, ORDER[i], s); a.Ok? && a.value.Continue? ==>
            a.value.state.Some? && a == Leads(ORDER[i + 1], a.value.state.value)
  {
  }

  /** Each handler call of a complete run leads to the state the next one is given. */
  lemma StageStep(cfg: Config, w: nat -> World, r: Runner<State>, init: State, calls: seq<Call<State>>, i: nat)
    requires ShippedRun(cfg, w, r, init, calls) && i < 5
    ensures Handle(cfg, w(i), ORDER[i], calls[i].before) == Leads(ORDER[i + 1], calls[i + 1].before)
  {
    ShippedStep(cfg, w, r, init, calls, i);
    HandleLeads(cfg, w(i), i, calls[i].before);
  }

  ghost predicate StepAt(cfg: Config, w: nat -> World, calls: seq<Call<State>>, i: nat)
    requires i + 1 < |calls| == 6
  {
    Handle(cfg, w(i), ORDER[i], calls[i].before) == Leads(ORDER[i + 1], calls[i + 1].before)
  }

  ghost predicate Stepped(cfg: Config, w: nat -> World, calls: seq<Call<State>>) {
    |calls| == 6 && forall i: nat :: i < 5 ==> StepAt(cfg, w, calls, i)
  }

  lemma RunSteps(cfg: Config, w: nat -> World, r: Runner<State>, init: State, calls: seq<Call<State>>)
    requires ShippedRun(cfg, w, r, init, calls)
    ensures Stepped(cfg, w, calls)
  {
    forall i: nat | i < 5 ensures StepAt(cfg, w, calls, i) {
      StageStep(cfg, w, r, init, calls, i);
    }
  }

  lemma RunResolved(cfg: Config, w: nat -> World, calls: seq<Call<State>>)
    requires Stepped(cfg, w, calls)
    ensures Resolved(calls[1].before)
  {
    assert StepAt(cfg, w, calls, 0);
  }

  lemma RunStabilized(cfg: Config, w: nat -> World, calls: seq<Call<State>>)
    requires Stepped(cfg, w, calls)
    ensures calls[2].before == calls[1].before
  {
    assert StepAt(cfg, w, calls, 1);
  }

  lemma RunTransformed(cfg: Config, w: nat -> World, calls: seq<Call<State>>)
    requires Stepped(cfg, w, calls)
    ensures calls[3].before == calls[2].before.(result := calls[3].before.result)
  {
    assert StepAt(cfg, w, calls, 2);
  }

  lemma RouteStep(cfg: Config, w: nat -> World, calls: seq<Call<State>>)
    requires Stepped(cfg, w, calls)
    ensures RunRoute(cfg, w(3), calls[3].before) == Leads(Persist, calls[4].before)
  {
    assert StepAt(cfg, w, calls, 3);
  }

  lemma RunRouted(cfg: Config, w: nat -> World, calls: seq<Call<State>>)
    requires Stepped(cfg, w, calls)
    ensures Routed(cfg, w(3).defaultTarget, calls[4].before)
  {
    RunResolved(cfg, w, calls);
    RunStabilized(cfg, w, calls);
    RunTransformed(cfg, w, calls);
    RouteStep(cfg, w, calls);
    RouteRoutes(cfg, w(3), calls[3].before, calls[4].before);
  }

  /** The state handed to the last stage: persisted at the routed path, every move made. */
  ghost predicate Arrived(w: World, s: State, t: State) {
    Persisted(t) && s.candidate.Some? && s.candidate.value.targetPath.Some? &&
    t.candidate.value == s.candidate.value.(recordId := t.recordId, persistedPath := s.candidate.value.targetPath) &&
    t.event == s.event && (forall i: nat :: i < |PlanOf(s)| ==> w.moves(i).None?) && w.saved.Stored? &&
    t.recordId == Some(if Text.Strip(w.saved.recordId) == "" then "unknown-record" else Text.Strip(w.saved.recordId)) &&
    MP.Recorded(s.candidate.value.targetPath.value, s.result) == Some(t.result)
  }

  lemma PersistStep(cfg: Config, w: nat -> World, calls: seq<Call<State>>)
    requires Stepped(cfg, w, calls)
    ensures RunPersist(w(4), calls[4].before) == Leads(PostPersist, calls[5].before)
  {
    assert StepAt(cfg, w, calls, 4);
  }

  lemma RunPersisted(cfg: Config, w: nat -> World, calls: seq<Call<State>>)
    requires Stepped(cfg, w, calls)
    ensures Arrived(w(4), calls[4].before, calls[5].before)
  {
    RunRouted(cfg, w, calls);
    PersistStep(cfg, w, calls);
    PersistRouted(cfg, w(3).defaultTarget, w(4), calls[4].before, calls[5].before);
  }

  lemma PersistRouted(cfg: Config, default: string, w: World, s: State, t: State)
    requires Routed(cfg, default, s) && RunPersist(w, s) == Leads(PostPersist, t)
    ensures Arrived(w, s, t)
  {
    PersistPersists(w, s, t);
  }

  lemma RunClosed(cfg: Config, w: nat -> World, r: Runner<State>, init: State, calls: seq<Call<State>>)
    requires ShippedRun(cfg, w, r, init, calls)
    requires calls[5].answer.Ok? && calls[5].answer.value.Stop? && calls[5].answer.value.outcome == Some(Completed)
    ensures After(calls[5]) == calls[5].before.(syncWarning := After(calls[5]).syncWarning)
  {
    ShippedStep(cfg, w, r, init, calls, 5);
  }

  /** A completed run with the shipped stages leaves a candidate that is resolved, routed to a
      settled path (the default one, or a forced one under an allowed root) and persisted at
      exactly that path, with every planned move made. */
  lemma SuccessMeansPersisted(
    cfg: Config, w: nat -> World, r: Runner<State>, init: State, calls: seq<Call<State>>, end: End<State>)
    requires Default(r) && r.handlers == Shipped(cfg, w) && r.cancelOutcome != Completed
    requires Chained(r, init, calls) && EndsAs(r, init, calls, end)
    requires end.Returned? && end.outcome == Completed
    ensures |calls| == 6 && Arrived(w(4), calls[4].before, end.state)
    ensures Routed(cfg, w(3).defaultTarget, end.state)
  {
    CompletedIff(r, init, calls, end);
    assert ShippedRun(cfg, w, r, init, calls);
    RunSteps(cfg, w, r, init, calls);
    RunRouted(cfg, w, calls);
    RunPersisted(cfg, w, calls);
    RunClosed(cfg, w, r, init, calls);
  }
}
