/** The session lifecycle state machine. */
module Session {
  import opened Wrappers

  datatype State =
    | Inactive
    | Active(id: string, startedAt: int, lastActivity: int)
    | Completed(id: string, startedAt: int, lastActivity: int, endedAt: int)
    | Aborted(id: string, startedAt: int, lastActivity: int, endedAt: int, reason: string)

  datatype SessionError = TransitionError | NotStarted | ClockWentBack

  datatype Policy = Policy(idleTimeout: Option<int>, maxRuntime: Option<int>)

  datatype Timeout = StillActive | SoftTimeout | HardTimeout | NoSession

  /** A clock reading is usable when it is not before the session's start or last activity. */
  predicate Monotonic(s: State, now: int)
    requires s.Active?
  {
    s.startedAt <= now && s.lastActivity <= now
  }

  function Evaluate(p: Policy, s: State, now: int): Result<Timeout, SessionError> {
    if !s.Active? then Ok(NoSession)
    else if !Monotonic(s, now) then Err(ClockWentBack)
    else if p.maxRuntime.Some? && now - s.startedAt >= p.maxRuntime.value then Ok(HardTimeout)
    else if p.idleTimeout.Some? && now - s.lastActivity >= p.idleTimeout.value then Ok(SoftTimeout)
    else Ok(StillActive)
  }

  /** A call for `id` succeeds exactly on the active session with that id and a clock that is not
      behind the last activity; otherwise it says which of the three was missing first. */
  predicate Answered(s: State, id: string, now: int, r: Result<(), SessionError>) {
    (r.Ok? <==> s.Active? && s.id == id && s.lastActivity <= now) &&
    (r == Err(NotStarted) <==> !s.Active?) &&
    (r == Err(TransitionError) <==> s.Active? && s.id != id) &&
    (r == Err(ClockWentBack) <==> s.Active? && s.id == id && now < s.lastActivity)
  }

  class SessionManager {
    const policy: Policy
    var state: State

    constructor (policy: Policy)
      ensures this.policy == policy && state == Inactive
    {
      this.policy := policy;
      state := Inactive;
    }

    method StartSession(id: string, now: int) returns (r: Result<(), SessionError>)
      modifies this
      ensures r.Ok? <==> old(state).Inactive? || (old(state).Active? && old(state).id == id)
      ensures old(state).Inactive? ==> state == Active(id, now, now)
      ensures !old(state).Inactive? ==> state == old(state)
      ensures r.Err? ==> r.error == TransitionError
    {
      if state.Active? {
        return if state.id == id then Ok(()) else Err(TransitionError);
      }
      if !state.Inactive? {
        return Err(TransitionError);
      }
      state := Active(id, now, now);
      return Ok(());
    }

    /** `_require_active_session` followed by `_ensure_monotonic` against the last activity. */
    predicate Accepts(id: string, now: int)
      reads this
    {
      state.Active? && state.id == id && state.lastActivity <= now
    }

    function Refusal(id: string): SessionError
      reads this
    {
      if !state.Active? then NotStarted else if state.id != id then TransitionError else ClockWentBack
    }

    method RecordActivity(id: string, now: int) returns (r: Result<(), SessionError>)
      modifies this
      ensures Answered(old(state), id, now, r)
      ensures state == if r.Ok? then Active(id, old(state).startedAt, now) else old(state)
    {
      if !Accepts(id, now) {
        return Err(Refusal(id));
      }
      state := Active(id, state.startedAt, now);
      return Ok(());
    }

    method StopSession(id: string, now: int) returns (r: Result<(), SessionError>)
      modifies this
      ensures Answered(old(state), id, now, r)
      ensures state == if r.Ok? then Completed(id, old(state).startedAt, old(state).lastActivity, now) else old(state)
    {
      if !Accepts(id, now) {
        return Err(Refusal(id));
      }
      state := Completed(id, state.startedAt, state.lastActivity, now);
      return Ok(());
    }

    method AbortSession(id: string, now: int, reason: string) returns (r: Result<(), SessionError>)
      modifies this
      ensures Answered(old(state), id, now, r)
      ensures state ==
              if r.Ok? then Aborted(id, old(state).startedAt, old(state).lastActivity, now, reason) else old(state)
    {
      if !Accepts(id, now) {
        return Err(Refusal(id));
      }
      state := Aborted(id, state.startedAt, state.lastActivity, now, reason);
      return Ok(());
    }

    method EvaluateTimeouts(now: int) returns (r: Result<Timeout, SessionError>)
      ensures r == Evaluate(policy, state, now)
      ensures r == Ok(NoSession) <==> !state.Active?
      ensures r.Err? <==> state.Active? && (now < state.startedAt || now < state.lastActivity)
      ensures r.Err? ==> r.error == ClockWentBack
      ensures r == Ok(StillActive) ==>
                state.Active? && (policy.maxRuntime.Some? ==> now < state.startedAt + policy.maxRuntime.value) &&
                (policy.idleTimeout.Some? ==> now < state.lastActivity + policy.idleTimeout.value)
      ensures r == Ok(HardTimeout) ==> policy.maxRuntime.Some? && state.startedAt + policy.maxRuntime.value <= now
      ensures r == Ok(SoftTimeout) ==>
                policy.idleTimeout.Some? && state.lastActivity + policy.idleTimeout.value <= now &&
                (policy.maxRuntime.Some? ==> now < state.startedAt + policy.maxRuntime.value)
    {
      if !state.Active? {
        return Ok(NoSession);
      }
      if now < state.startedAt || now < state.lastActivity {
        return Err(ClockWentBack);
      }
      if policy.maxRuntime.Some? && now - state.startedAt >= policy.maxRuntime.value {
        return Ok(HardTimeout);
      }
      if policy.idleTimeout.Some? && now - state.lastActivity >= policy.idleTimeout.value {
        return Ok(SoftTimeout);
      }
      return Ok(StillActive);
    }
  }

  // ----- when a session stays alive -----

  /** The active session after the given activity. */
  function Beating(id: string, start: int, beats: seq<int>): State {
    Active(id, start, if beats == [] then start else beats[|beats| - 1])
  }

  /** The time before the k-th beat: the beat before it, or the start. */
  function Previous(start: int, beats: seq<int>, k: nat): int
    requires k <= |beats|
  {
    if k == 0 then start else beats[k - 1]
  }

  ghost predicate Ordered(start: int, beats: seq<int>) {
    forall k: nat :: k < |beats| ==> Previous(start, beats, k) <= beats[k]
  }

  /** Checked at every beat, just before it is recorded, the session was still active. */
  ghost predicate Alive(p: Policy, id: string, start: int, beats: seq<int>) {
    forall k: nat :: k < |beats| ==> Evaluate(p, Beating(id, start, beats[..k]), beats[k]) == Ok(StillActive)
  }

  /** Every gap is shorter than the idle limit and the whole shorter than the runtime limit. */
  ghost predicate Brisk(p: Policy, start: int, beats: seq<int>) {
    (p.idleTimeout.Some? ==> forall k: nat :: k < |beats| ==>
        beats[k] - Previous(start, beats, k) < p.idleTimeout.value) &&
    (p.maxRuntime.Some? && beats != [] ==> beats[|beats| - 1] - start < p.maxRuntime.value)
  }

  lemma {:induction false} LastIsLatest(start: int, beats: seq<int>, k: nat)
    requires Ordered(start, beats) && k < |beats|
    ensures start <= beats[k] <= beats[|beats| - 1]
    decreases |beats|
  {
    if k > 0 {
      assert Previous(start, beats, k) <= beats[k];
    }
    var n := |beats| - 1;
    forall j: nat | j < n ensures Previous(start, beats[..n], j) <= beats[..n][j] {
      assert Previous(start, beats, j) <= beats[j];
    }
    assert Previous(start, beats, n) <= beats[n];
    if n > 0 {
      LastIsLatest(start, beats[..n], if k < n then k else n - 1);
    }
  }

  /** A session is found active at every check if and only if each gap between activities is
      shorter than the idle limit and the last check comes before the runtime limit. */
  lemma AliveIff(p: Policy, id: string, start: int, beats: seq<int>)
    requires Ordered(start, beats)
    ensures Alive(p, id, start, beats) <==> Brisk(p, start, beats)
  {
    forall k: nat | k < |beats|
      ensures start <= beats[k] <= beats[|beats| - 1]
      ensures Beating(id, start, beats[..k]) == Active(id, start, Previous(start, beats, k))
      ensures Previous(start, beats, k) <= beats[k]
    {
      LastIsLatest(start, beats, k);
    }
    if Alive(p, id, start, beats) && beats != [] {
      var n := |beats| - 1;
      assert Evaluate(p, Beating(id, start, beats[..n]), beats[n]) == Ok(StillActive);
    }
    if Alive(p, id, start, beats) {
      forall k: nat | k < |beats| && p.idleTimeout.Some?
          ensures beats[k] - Previous(start, beats, k) < p.idleTimeout.value {
        assert Evaluate(p, Beating(id, start, beats[..k]), beats[k]) == Ok(StillActive);
      }
    }
  }
}
