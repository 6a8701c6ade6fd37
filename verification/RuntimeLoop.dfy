/** The runtime loop: polling for event batches, handing events to the ingestion engine, and
    keeping the session and the emitted lifecycle events in step. */
module RuntimeLoop {
  import opened Wrappers
  import opened Seqs
  import opened Session
  import opened Outcomes

  predicate Fails(kind: OutcomeKind) { kind == Rejected || kind == FailedTerminal }

  datatype Reason = EndOfStream | HardLimit | SoftLimit | Cancelled | Failure

  function ReasonCode(r: Reason): string {
    match r
    case EndOfStream => "end_of_stream"
    case HardLimit => "hard_timeout"
    case SoftLimit => "soft_timeout"
    case Cancelled => "cancelled"
    case Failure => "failed_terminal"
  }

  const CRASH := "runtime_exception"

  datatype Emission =
    | RuntimeStarted
    | EventSkipped(id: string)
    | EventProcessed(id: string, kind: OutcomeKind)
    | OutcomeEvent(kind: OutcomeKind)
    | RuntimeCompleted(reason: string)
    | RuntimeCancelled(reason: string)
    | RuntimeFailed(reason: string)

  predicate Lifecycle(e: Emission) {
    e.RuntimeStarted? || e.RuntimeCompleted? || e.RuntimeCancelled? || e.RuntimeFailed?
  }

  /** Where handling one event raises, if it does; at the report, the emitter raises on the skipped
      or processed event. */
  datatype Crash = Nowhere | BeforeEngine | InEngine | AtReport | AfterReport

  /** One event of a batch with the answers its surroundings give while it is handled. */
  datatype EventIn = EventIn(
    id: Option<string>,   // `None`: the payload has no usable event id
    timeoutAt: int,       // clock reading of the timeout check
    signalRaises: bool,   // the cancellation signal raises
    cancelled: bool,
    activityAt: int,      // clock reading of the activity record
    outcome: OutcomeKind,
    crash: Crash)

  /** One poll of the event source. */
  datatype PollIn = PollIn(
    timeoutAt: int, sourceRaises: bool, batch: seq<EventIn>, signalRaises: bool, cancelled: bool, idleRaises: bool)

  datatype Counts = Counts(processed: nat, skipped: nat, failed: nat)

  datatype BatchEnd = Finished | Stopped(reason: Reason) | Crashed

  datatype RunEnd =
    | Returned(counts: Counts, why: Reason)
    | Raised         // an exception left `run`
    | StillPolling   // the given polls are used up and the loop goes on

  // ----- counting emissions -----

  function Plus(a: Counts, b: Counts): Counts {
    Counts(a.processed + b.processed, a.skipped + b.skipped, a.failed + b.failed)
  }

  function One(e: Emission): Counts {
    Counts(if e.EventProcessed? then 1 else 0, if e.EventSkipped? then 1 else 0,
           if e.EventProcessed? && Fails(e.kind) then 1 else 0)
  }

  /** How many events the emissions from `lo` up to `hi` report processed, skipped and failed. */
  function Tally(log: seq<Emission>, lo: nat, hi: nat): Counts
    requires lo <= hi <= |log|
    decreases hi
  {
    if lo == hi then Counts(0, 0, 0) else Plus(Tally(log, lo, hi - 1), One(log[hi - 1]))
  }

  /** The counters agree with what was emitted, and no lifecycle event is among it. */
  ghost predicate Tallied(c: Counts, log: seq<Emission>, lo: nat, hi: nat) {
    lo <= hi <= |log| && c == Tally(log, lo, hi) && forall i :: lo <= i < hi ==> !Lifecycle(log[i])
  }

  lemma {:induction false} TallyStays(log: seq<Emission>, longer: seq<Emission>, lo: nat, hi: nat)
    requires log <= longer && lo <= hi <= |log|
    ensures Tally(longer, lo, hi) == Tally(log, lo, hi)
    decreases hi
  {
    if lo < hi {
      TallyStays(log, longer, lo, hi - 1);
    }
  }

  lemma {:induction false} TallyJoins(log: seq<Emission>, lo: nat, mid: nat, hi: nat)
    requires lo <= mid <= hi <= |log|
    ensures Tally(log, lo, hi) == Plus(Tally(log, lo, mid), Tally(log, mid, hi))
    decreases hi
  {
    if mid < hi {
      TallyJoins(log, lo, mid, hi - 1);
    }
  }

  lemma TallyConcat(a: Counts, b: Counts, before: seq<Emission>, after: seq<Emission>, lo: nat)
    requires before <= after && Tallied(a, before, lo, |before|) && Tallied(b, after, |before|, |after|)
    ensures Tallied(Plus(a, b), after, lo, |after|)
  {
    TallyStays(before, after, lo, |before|);
    TallyJoins(after, lo, |before|, |after|);
  }

  lemma StillTallied(c: Counts, log: seq<Emission>, longer: seq<Emission>, lo: nat)
    requires log <= longer && Tallied(c, log, lo, |log|)
    ensures Tallied(c, longer, lo, |log|)
  {
    TallyStays(log, longer, lo, |log|);
  }

  lemma AppendTallied(c: Counts, log: seq<Emission>, lo: nat, e: Emission)
    requires Tallied(c, log, lo, |log|) && !Lifecycle(e)
    ensures Tallied(Plus(c, One(e)), log + [e], lo, |log + [e]|)
  {
    TallyStays(log, log + [e], lo, |log|);
  }

  /** What handling one event emits: a duplicate is reported skipped, any other processed. */
  function Reports(duplicate: bool, id: string, kind: OutcomeKind): seq<Emission> {
    if duplicate then [EventSkipped(id)] else [EventProcessed(id, kind), OutcomeEvent(kind)]
  }

  function CountsOf(duplicate: bool, kind: OutcomeKind): Counts {
    if duplicate then Counts(0, 1, 0) else Counts(1, 0, if Fails(kind) then 1 else 0)
  }

  lemma ReportsTallied(c: Counts, log: seq<Emission>, lo: nat, duplicate: bool, id: string, kind: OutcomeKind)
    requires Tallied(c, log, lo, |log|)
    ensures var after := log + Reports(duplicate, id, kind);
            Tallied(Plus(c, CountsOf(duplicate, kind)), after, lo, |after|)
  {
    if duplicate {
      AppendTallied(c, log, lo, EventSkipped(id));
    } else {
      var p, o := EventProcessed(id, kind), OutcomeEvent(kind);
      AppendTallied(c, log, lo, p);
      AppendTallied(Plus(c, One(p)), log + [p], lo, o);
      assert log + [p] + [o] == log + [p, o];
    }
  }

  /** Before each of the first `n` events the session was found active and nothing asked to stop;
      `states` are the session's states between the events. */
  ghost predicate Watched(policy: Policy, id: string, batch: seq<EventIn>, states: seq<State>, n: nat) {
    n <= |batch| && |states| == n + 1 &&
    forall i: nat :: i < n ==> WatchedAt(policy, id, batch[i], states[i], states[i + 1])
  }

  ghost predicate WatchedAt(policy: Policy, id: string, e: EventIn, before: State, after: State) {
    Evaluate(policy, before, e.timeoutAt) == Ok(StillActive) && !e.signalRaises && !e.cancelled && before.Active? &&
    (after == before || after == Active(id, before.startedAt, e.activityAt))
  }

  /** A batch is ended by its n-th event for this reason; `state` is the session's state then. */
  ghost predicate EndedBy(why: Reason, policy: Policy, state: State, batch: seq<EventIn>, n: nat) {
    match why
    case EndOfStream => false
    case HardLimit => n < |batch| && Evaluate(policy, state, batch[n].timeoutAt) == Ok(HardTimeout)
    case SoftLimit => n < |batch| && Evaluate(policy, state, batch[n].timeoutAt) == Ok(SoftTimeout)
    case Cancelled => n < |batch| && Evaluate(policy, state, batch[n].timeoutAt).Ok? && batch[n].cancelled
    case Failure => 0 < n <= |batch| && (batch[n - 1].outcome == Rejected || batch[n - 1].outcome == FailedTerminal)
  }

  /** A poll ends the loop for this reason, itself or through one of its events. */
  ghost predicate PollEnds(why: Reason, policy: Policy, state: State, oneshot: bool, poll: PollIn) {
    match why
    case EndOfStream => oneshot
    case HardLimit => Evaluate(policy, state, poll.timeoutAt) == Ok(HardTimeout) || BatchEnds(why, policy, state, poll)
    case SoftLimit => Evaluate(policy, state, poll.timeoutAt) == Ok(SoftTimeout) || BatchEnds(why, policy, state, poll)
    case Cancelled => (poll.batch == [] && poll.cancelled) || BatchEnds(why, policy, state, poll)
    case Failure => BatchEnds(why, policy, state, poll)
  }

  ghost predicate BatchEnds(why: Reason, policy: Policy, state: State, poll: PollIn) {
    exists n: nat :: EndedBy(why, policy, state, poll.batch, n)
  }

  /** The loop goes on after these polls: none raises, asks to stop while idle, or is the only one. */
  ghost predicate GoesOn(polls: seq<PollIn>, oneshot: bool) {
    (oneshot ==> polls == []) && forall i :: 0 <= i < |polls| ==> Idles(polls[i])
  }

  predicate Idles(poll: PollIn) {
    !poll.sourceRaises && (poll.batch == [] ==> !poll.signalRaises && !poll.cancelled && !poll.idleRaises)
  }

  /** Some poll ended the loop for this reason, with the session in some active state; all before it
      let the loop go on. */
  ghost predicate Caused(why: Reason, policy: Policy, oneshot: bool, polls: seq<PollIn>) {
    exists k: nat, state: State ::
      k < |polls| && GoesOn(polls[..k], oneshot) && state.Active? && PollEnds(why, policy, state, oneshot, polls[k])
  }

  /** Under `stop_on_failure` a failure is counted at most once, and exactly when it ends the loop. */
  predicate FailureStops(stop: bool, failed: nat, failure: bool) {
    if stop then failed == (if failure then 1 else 0) else !failure
  }

  class App {
    const sessionId: string
    const stopOnFailure: bool
    const oneshot: bool
    const session: SessionManager
    var seen: set<string>
    var emitted: seq<Emission>
    var engineCalls: seq<string>   // ids in the order in which they were handed to the engine

    constructor (sessionId: string, stopOnFailure: bool, oneshot: bool, session: SessionManager)
      ensures this.session == session && this.sessionId == sessionId
      ensures this.stopOnFailure == stopOnFailure && this.oneshot == oneshot
      ensures seen == {} && emitted == [] && engineCalls == [] && AtMostOnce()
    {
      this.sessionId, this.stopOnFailure, this.oneshot, this.session := sessionId, stopOnFailure, oneshot, session;
      seen, emitted, engineCalls := {}, [], [];
    }

    /** No id was handed to the engine twice, and every id handed over is remembered. */
    ghost predicate AtMostOnce()
      reads this
    {
      NoDup(engineCalls) && forall i :: 0 <= i < |engineCalls| ==> engineCalls[i] in seen
    }

    predicate Live()
      reads session
    {
      session.state.Active? && session.state.id == sessionId
    }

    method TimeoutReason(now: int) returns (r: Option<BatchEnd>)
      ensures r.Some? ==> r.value in {Crashed, Stopped(HardLimit), Stopped(SoftLimit)}
      ensures r == match Evaluate(session.policy, session.state, now)
                   case Err(_) => Some(Crashed)
                   case Ok(HardTimeout) => Some(Stopped(HardLimit))
                   case Ok(SoftTimeout) => Some(Stopped(SoftLimit))
                   case Ok(_) => None
    {
      var t := session.EvaluateTimeouts(now);
      match t
      case Err(_) => r := Some(Crashed);
      case Ok(HardTimeout) => r := Some(Stopped(HardLimit));
      case Ok(SoftTimeout) => r := Some(Stopped(SoftLimit));
      case Ok(_) => r := None;
    }

    /** One event: skip it, or hand it to the engine and report the outcome. */
    method HandleEvent(e: EventIn) returns (counts: Counts, end: BatchEnd)
      requires AtMostOnce() && Live()
      modifies this, session
      ensures AtMostOnce() && Live()
      ensures old(seen) <= seen && old(engineCalls) <= engineCalls && old(emitted) <= emitted
      ensures end == Crashed || end == Finished || end == Stopped(Failure)
      ensures end != Crashed ==>
                e.id.Some? && e.id.value in seen &&
                if e.id.value in old(seen) then
                  emitted == old(emitted) + [EventSkipped(e.id.value)] && counts == Counts(0, 1, 0) &&
                  engineCalls == old(engineCalls) && session.state == old(session.state) && end == Finished
                else
                  var failure := e.outcome == Rejected || e.outcome == FailedTerminal;
                  emitted == old(emitted) + [EventProcessed(e.id.value, e.outcome), OutcomeEvent(e.outcome)] &&
                  counts == Counts(1, 0, if failure then 1 else 0) && engineCalls == old(engineCalls) + [e.id.value] &&
                  session.state == Active(sessionId, old(session.state).startedAt, e.activityAt) &&
                  (end == Stopped(Failure) <==> stopOnFailure && failure)
      ensures end == Crashed <==>
                e.id.None? ||
                if e.id.value in old(seen) then e.crash.AtReport?
                else !e.crash.Nowhere? || e.activityAt < old(session.state).lastActivity
    {
      counts, end := Counts(0, 0, 0), Crashed;
      if e.id.None? {
        return;
      }
      var id := e.id.value;
      if id in seen {
        if e.crash.AtReport? {
          return;
        }
        emitted := emitted + [EventSkipped(id)];
        return Counts(0, 1, 0), Finished;
      }
      seen := seen + {id};
      if e.crash.BeforeEngine? {
        return;
      }
      var recorded := session.RecordActivity(sessionId, e.activityAt);
      if recorded.Err? {
        return;
      }
      engineCalls := engineCalls + [id];
      if e.crash.InEngine? || e.crash.AtReport? {
        return;
      }
      emitted := emitted + [EventProcessed(id, e.outcome)];
      if e.crash.AfterReport? {
        return;
      }
      emitted := emitted + [OutcomeEvent(e.outcome)];
      counts := Counts(1, 0, if Fails(e.outcome) then 1 else 0);
      end := if Fails(e.outcome) && stopOnFailure then Stopped(Failure) else Finished;
    }

    /** `_process_event_batch`; `decided` is the number of events handled before it ended. */
    method ProcessBatch(batch: seq<EventIn>)
      returns (counts: Counts, end: BatchEnd, ghost decided: nat, ghost states: seq<State>)
      requires AtMostOnce() && Live()
      modifies this, session
      ensures AtMostOnce() && Live()
      ensures old(seen) <= seen && old(engineCalls) <= engineCalls && old(emitted) <= emitted
      ensures decided <= |batch| && (end == Finished ==> decided == |batch|)
      ensures end != Crashed ==>
              Tallied(counts, emitted, |old(emitted)|, |emitted|) && counts.processed + counts.skipped == decided
      ensures end != Crashed ==> FailureStops(stopOnFailure, counts.failed, end == Stopped(Failure))
      ensures end != Crashed ==> Watched(session.policy, sessionId, batch, states, decided)
      ensures end != Crashed ==> states[0] == old(session.state) && states[decided] == session.state
      ensures end.Stopped? ==> EndedBy(end.reason, session.policy, session.state, batch, decided)
    {
      counts, decided, states := Counts(0, 0, 0), 0, [session.state];
      for i := 0 to |batch|
        invariant AtMostOnce() && Live()
        invariant old(seen) <= seen && old(engineCalls) <= engineCalls && old(emitted) <= emitted
        invariant decided == i
        invariant Tallied(counts, emitted, |old(emitted)|, |emitted|) && counts.processed + counts.skipped == decided
        invariant FailureStops(stopOnFailure, counts.failed, false)
        invariant Watched(session.policy, sessionId, batch, states, i)
        invariant states[0] == old(session.state) && states[i] == session.state
      {
        var timeout := TimeoutReason(batch[i].timeoutAt);
        if timeout.Some? {
          return counts, timeout.value, decided, states;
        }
        if batch[i].signalRaises {
          return counts, Crashed, decided, states;
        }
        if batch[i].cancelled {
          return counts, Stopped(Cancelled), decided, states;
        }
        ghost var before, known := emitted, seen;
        var one, how := HandleEvent(batch[i]);
        if how == Crashed {
          return counts, Crashed, decided, states;
        }
        ReportsTallied(counts, before, |old(emitted)|, batch[i].id.value in known, batch[i].id.value, batch[i].outcome);
        counts, decided, states := Plus(counts, one), decided + 1, states + [session.state];
        if how.Stopped? {
          return counts, how, decided, states;
        }
      }
      return counts, Finished, decided, states;
    }

    /** The loop of `run`, up to the point where it leaves the `try` block. */
    method Poll(polls: seq<PollIn>) returns (counts: Counts, end: BatchEnd, ghost used: nat)
      requires AtMostOnce() && Live()
      modifies this, session
      ensures AtMostOnce() && Live()
      ensures old(engineCalls) <= engineCalls && old(emitted) <= emitted
      ensures end != Crashed ==> Tallied(counts, emitted, |old(emitted)|, |emitted|)
      ensures end != Crashed ==> FailureStops(stopOnFailure, counts.failed, end == Stopped(Failure))
      ensures used <= |polls| && GoesOn(polls[..used], oneshot)
      ensures end == Finished ==> used == |polls|
      ensures end.Stopped? ==>
                used < |polls| && PollEnds(end.reason, session.policy, session.state, oneshot, polls[used])
    {
      counts, used := Counts(0, 0, 0), 0;
      for i := 0 to |polls|
        invariant AtMostOnce() && Live()
        invariant old(engineCalls) <= engineCalls && old(emitted) <= emitted
        invariant Tallied(counts, emitted, |old(emitted)|, |emitted|)
        invariant FailureStops(stopOnFailure, counts.failed, false)
        invariant used == i && GoesOn(polls[..used], oneshot)
      {
        var poll := polls[i];
        var timeout := TimeoutReason(poll.timeoutAt);
        if timeout.Some? {
          return counts, timeout.value, used;
        }
        if poll.sourceRaises {
          return counts, Crashed, used;
        }
        if poll.batch == [] {
          if poll.signalRaises {
            return counts, Crashed, used;
          }
          if poll.cancelled {
            return counts, Stopped(Cancelled), used;
          }
          if oneshot {
            return counts, Stopped(EndOfStream), used;
          }
          if poll.idleRaises {
            return counts, Crashed, used;
          }
          used := used + 1;
          continue;
        }
        ghost var before := emitted;
        var more, how, _, _ := ProcessBatch(poll.batch);
        if how == Crashed {
          return counts, Crashed, used;
        }
        TallyConcat(counts, more, before, emitted, |old(emitted)|);
        counts := Plus(counts, more);
        if how.Stopped? {
          return counts, how, used;
        }
        if oneshot {
          return counts, Stopped(EndOfStream), used;
        }
        used := used + 1;
      }
      return counts, Finished, used;
    }

    /** The lifecycle event and the session state that go with a reason. */
    ghost predicate Concluded(why: Reason, last: Emission)
      reads session
    {
      match why
      case Failure => Failed("failed_terminal", last)
      case HardLimit => Failed("hard_timeout", last)
      case Cancelled => last == RuntimeCancelled("cancelled") && AbortedFor("cancelled")
      case SoftLimit => last == RuntimeCompleted("soft_timeout") && session.state.Completed?
      case EndOfStream => last == RuntimeCompleted("end_of_stream") && session.state.Completed?
    }

    ghost predicate Failed(code: string, last: Emission)
      reads session
    {
      last == RuntimeFailed(code) && AbortedFor(code)
    }

    ghost predicate AbortedFor(code: string)
      reads session
    {
      session.state.Aborted? && session.state.reason == code
    }

    /** `run`, where the emitter may raise on the start event or on the last one: every normal return
        emits one start and one terminal event around the event reports, the terminal event matches
        the session's final state, the counters equal the reports, and no id is handed to the engine
        twice. */
    method Run(startAt: int, polls: seq<PollIn>, endAt: int, startFails: bool, lastFails: bool) returns (end: RunEnd)
      requires AtMostOnce()
      modifies this, session
      ensures AtMostOnce()
      ensures old(engineCalls) <= engineCalls && old(emitted) <= emitted
      ensures end.Returned? ==>
                var first, last := |old(emitted)|, |emitted| - 1;
                first < last && emitted[first] == RuntimeStarted &&
                Tallied(end.counts, emitted, first + 1, last) &&
                Concluded(end.why, emitted[last]) && session.state.id == sessionId
      ensures end.Returned? ==> FailureStops(stopOnFailure, end.counts.failed, end.why == Failure)
      ensures end.Returned? ==> Caused(end.why, session.policy, oneshot, polls)
      ensures end.StillPolling? ==> Live()
      ensures end.Raised? ==> session.state == old(session.state) || startFails || lastFails || Broken(endAt)
    {
      var started := session.StartSession(sessionId, startAt);
      if started.Err? {
        return Raised;
      }
      if startFails {
        return Raised;
      }
      emitted := emitted + [RuntimeStarted];
      end := PollAndConclude(polls, endAt, lastFails);
    }

    /** An exception is reported and aborts the session, unless the clock is behind it. */
    ghost predicate Broken(endAt: int)
      reads this, session
    {
      (Live() && endAt < session.state.lastActivity) ||
      (emitted != [] && Failed("runtime_exception", emitted[|emitted| - 1]))
    }

    /** What follows the start event. */
    method PollAndConclude(polls: seq<PollIn>, endAt: int, lastFails: bool) returns (end: RunEnd)
      requires AtMostOnce() && Live()
      modifies this, session
      ensures AtMostOnce()
      ensures old(engineCalls) <= engineCalls && old(emitted) <= emitted
      ensures end.Returned? ==>
                var last := |emitted| - 1;
                last >= 0 && Tallied(end.counts, emitted, |old(emitted)|, last) && Concluded(end.why, emitted[last]) &&
                session.state.id == sessionId
      ensures end.Returned? ==> FailureStops(stopOnFailure, end.counts.failed, end.why == Failure)
      ensures end.Returned? ==> Caused(end.why, session.policy, oneshot, polls)
      ensures end.StillPolling? ==> Live()
      ensures end.Raised? ==> lastFails || Broken(endAt)
    {
      var counts, stop, _ := Poll(polls);
      if stop == Crashed {
        Abandon(endAt, lastFails);
        return Raised;
      }
      if stop == Finished {
        return StillPolling;
      }
      assert Caused(stop.reason, session.policy, oneshot, polls);
      ghost var polled := emitted;
      var closed := Conclude(stop.reason, endAt, lastFails);
      StillTallied(counts, polled, emitted, |old(emitted)|);
      return if closed then Returned(counts, stop.reason) else Raised;
    }

    /** Aborts the session after an exception and reports the failure. */
    method Abandon(endAt: int, lastFails: bool)
      requires Live()
      modifies this`emitted, session
      ensures old(emitted) <= emitted && !session.state.Completed?
      ensures if endAt < old(session.state).lastActivity then session.state == old(session.state)
              else AbortedFor("runtime_exception") &&
                   emitted == old(emitted) + if lastFails then [] else [RuntimeFailed("runtime_exception")]
    {
      var aborted := session.AbortSession(sessionId, endAt, CRASH);
      if aborted.Ok? && !lastFails {
        emitted := emitted + [RuntimeFailed(CRASH)];
      }
    }

    /** Ends the session and emits the terminal event that goes with the reason. */
    method Conclude(why: Reason, endAt: int, lastFails: bool) returns (closed: bool)
      requires Live()
      modifies this`emitted, session
      ensures old(emitted) <= emitted
      ensures closed ==>
                |emitted| == |old(emitted)| + 1 && Concluded(why, emitted[|old(emitted)|]) &&
                    session.state.id == sessionId
      ensures !closed ==>
                emitted == old(emitted) && (lastFails || (Live() && endAt < session.state.lastActivity))
    {
      var code := ReasonCode(why);
      var r: Result<(), SessionError>;
      if why == Failure || why == HardLimit || why == Cancelled {
        r := session.AbortSession(sessionId, endAt, code);
      } else {
        r := session.StopSession(sessionId, endAt);
      }
      if r.Err? || lastFails {
        return false;
      }
      var last := if why == Failure || why == HardLimit then RuntimeFailed(code)
                  else if why == Cancelled then RuntimeCancelled(code)
                  else RuntimeCompleted(code);
      emitted := emitted + [last];
      return true;
    }
  }
}
