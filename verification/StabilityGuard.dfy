/** The stability guard: poll a path until it stops changing, vanishes or takes too long. */
module StabilityGuard {
  import opened Wrappers

  /** Times in microseconds; a window of zero or less allows no reappearance. */
  datatype Config = Config(maxWait: int, window: int, poll: int, stableCycles: int, sentinelName: string)

  /** What one turn of the loop sees; it reads the clock once. `None` is a path without snapshot. */
  datatype Turn = Turn(onDisk: bool, now: int, snapshot: Option<int>, isDir: bool, sentinelOnDisk: bool)

  datatype Outcome = Stable | Vanished | TimedOut

  /** Deadlines fixed when the wait begins. */
  datatype Limits = Limits(deadline: int, reappear: Option<int>)

  datatype Progress = Waiting(last: Option<int>, cycles: nat) | Done(outcome: Outcome)

  function LimitsOf(cfg: Config, startedAt: int, windowAt: int): Limits {
    Limits(startedAt + cfg.maxWait, if cfg.window > 0 then Some(windowAt + cfg.window) else None)
  }

  predicate AwaitsSentinel(cfg: Config, t: Turn) { t.isDir && cfg.sentinelName != "" && !t.sentinelOnDisk }

  function Turned(cfg: Config, lim: Limits, last: Option<int>, cycles: nat, t: Turn): Progress {
    if !t.onDisk then
      if lim.reappear.Some? && t.now < lim.reappear.value then Waiting(last, cycles) else Done(Vanished)
    else if t.now >= lim.deadline then Done(TimedOut)
    else if t.snapshot != last then Waiting(t.snapshot, 0)
    else if cycles + 1 < cfg.stableCycles || AwaitsSentinel(cfg, t) then Waiting(last, cycles + 1)
    else Done(Stable)
  }

  /** Where the guard stands after these turns. */
  function Watch(cfg: Config, lim: Limits, first: Option<int>, turns: seq<Turn>): Progress {
    if turns == [] then Waiting(first, 0)
    else
      match Watch(cfg, lim, first, turns[..|turns| - 1])
      case Waiting(last, cycles) => Turned(cfg, lim, last, cycles, turns[|turns| - 1])
      case Done(outcome) => Done(outcome)
  }

  // ----- the verdict, in the waits as they are configured -----

  /** The last turn finds the path before the maximal wait is over, with max(1, stable cycles)
      readings equal to the one before them and no sentinel file missing. */
  ghost predicate SettlesInTime(cfg: Config, startedAt: int, first: Option<int>, turns: seq<Turn>) {
    turns != [] && var t := turns[|turns| - 1];
    t.onDisk && t.now < startedAt + cfg.maxWait && (t.isDir && cfg.sentinelName != "" ==> t.sentinelOnDisk) &&
    Steady(Readings(startedAt + cfg.maxWait, first, turns), Max(1, cfg.stableCycles))
  }

  /** The last turn finds the path when the maximal wait is over. */
  ghost predicate OverdueOnDisk(cfg: Config, startedAt: int, turns: seq<Turn>) {
    turns != [] && var t := turns[|turns| - 1]; t.onDisk && t.now >= startedAt + cfg.maxWait
  }

  /** The last turn finds the path gone, and there is no reappearance window or it is over. */
  ghost predicate GoneForGood(cfg: Config, windowAt: int, turns: seq<Turn>) {
    turns != [] && var t := turns[|turns| - 1]; !t.onDisk && (cfg.window <= 0 || t.now >= windowAt + cfg.window)
  }

  ghost predicate Decides(cfg: Config, startedAt: int, windowAt: int, first: Option<int>, turns: seq<Turn>) {
    SettlesInTime(cfg, startedAt, first, turns) || OverdueOnDisk(cfg, startedAt, turns) ||
    GoneForGood(cfg, windowAt, turns)
  }

  lemma SameDecisions(cfg: Config, startedAt: int, windowAt: int, first: Option<int>, turns: seq<Turn>)
    ensures var lim := LimitsOf(cfg, startedAt, windowAt);
            (SettlesInTime(cfg, startedAt, first, turns) <==> Settles(cfg, lim, first, turns)) &&
            (OverdueOnDisk(cfg, startedAt, turns) <==> Late(lim, turns)) &&
            (GoneForGood(cfg, windowAt, turns) <==> Gone(lim, turns))
  {
  }

  /** The guard still waits after the turns if and only if none of them was decisive. */
  lemma WaitsIff(cfg: Config, startedAt: int, windowAt: int, first: Option<int>, turns: seq<Turn>)
    ensures Watch(cfg, LimitsOf(cfg, startedAt, windowAt), first, turns).Waiting? <==>
            forall k :: 1 <= k <= |turns| ==> !Decides(cfg, startedAt, windowAt, first, turns[..k])
  {
    var lim := LimitsOf(cfg, startedAt, windowAt);
    WaitingIff(cfg, lim, first, turns);
    forall k | 1 <= k <= |turns|
      ensures Decides(cfg, startedAt, windowAt, first, turns[..k]) <==> Decisive(cfg, lim, first, turns[..k])
    {
      SameDecisions(cfg, startedAt, windowAt, first, turns[..k]);
    }
  }

  /** The verdict that falls with the last turn. */
  lemma VerdictFalls(cfg: Config, startedAt: int, windowAt: int, first: Option<int>, turns: seq<Turn>)
    requires turns != [] && Watch(cfg, LimitsOf(cfg, startedAt, windowAt), first, turns[..|turns| - 1]).Waiting?
    ensures match Watch(cfg, LimitsOf(cfg, startedAt, windowAt), first, turns)
            case Done(Stable) => SettlesInTime(cfg, startedAt, first, turns)
            case Done(TimedOut) => OverdueOnDisk(cfg, startedAt, turns)
            case Done(Vanished) => GoneForGood(cfg, windowAt, turns)
            case Waiting(_, _) => !Decides(cfg, startedAt, windowAt, first, turns)
  {
    var lim := LimitsOf(cfg, startedAt, windowAt);
    StableIff(cfg, lim, first, turns);
    SameDecisions(cfg, startedAt, windowAt, first, turns);
  }

  /** Whatever turns follow, the verdict and the turn it falls with stay. */
  lemma VerdictStays(cfg: Config, startedAt: int, windowAt: int, first: Option<int>, turns: seq<Turn>, n: nat)
    requires 1 <= n <= |turns|
    requires Watch(cfg, LimitsOf(cfg, startedAt, windowAt), first, turns[..n - 1]).Waiting?
    requires Watch(cfg, LimitsOf(cfg, startedAt, windowAt), first, turns[..n]).Done?
    ensures Watch(cfg, LimitsOf(cfg, startedAt, windowAt), first, turns) ==
            Watch(cfg, LimitsOf(cfg, startedAt, windowAt), first, turns[..n])
    ensures forall k :: 1 <= k < n ==> !Decides(cfg, startedAt, windowAt, first, turns[..k])
    ensures match Watch(cfg, LimitsOf(cfg, startedAt, windowAt), first, turns).outcome
            case Stable => SettlesInTime(cfg, startedAt, first, turns[..n])
            case TimedOut => OverdueOnDisk(cfg, startedAt, turns[..n])
            case Vanished => GoneForGood(cfg, windowAt, turns[..n])
  {
    var upTo, before := turns[..n], turns[..n - 1];
    assert upTo[..n - 1] == before;
    DoneStays(cfg, LimitsOf(cfg, startedAt, windowAt), first, turns, n);
    WaitsIff(cfg, startedAt, windowAt, first, before);
    VerdictFalls(cfg, startedAt, windowAt, first, upTo);
    forall k | 1 <= k < n ensures !Decides(cfg, startedAt, windowAt, first, turns[..k]) {
      assert before[..k] == turns[..k];
    }
  }

  /** `wait`, over the turns its surroundings provide; `Waiting` when they are used up. `used` is
      the number of turns taken. */
  method Wait(cfg: Config, startedAt: int, windowAt: int, first: Option<int>, turns: seq<Turn>)
    returns (p: Progress, used: nat)
    ensures used <= |turns| && p == Watch(cfg, LimitsOf(cfg, startedAt, windowAt), first, turns)
    ensures p.Waiting? ==>
              used == |turns| && forall k :: 1 <= k <= |turns| ==> !Decides(cfg, startedAt, windowAt, first, turns[..k])
    ensures p.Done? ==>
              used > 0 && (forall k :: 1 <= k < used ==> !Decides(cfg, startedAt, windowAt, first, turns[..k])) &&
              match p.outcome
              case Stable => SettlesInTime(cfg, startedAt, first, turns[..used])
              case TimedOut => OverdueOnDisk(cfg, startedAt, turns[..used])
              case Vanished => GoneForGood(cfg, windowAt, turns[..used])
  {
    var deadline := startedAt + cfg.maxWait;
    var reappear := if cfg.window > 0 then Some(windowAt + cfg.window) else None;
    ghost var lim := LimitsOf(cfg, startedAt, windowAt);
    var last, cycles: nat, i := first, 0, 0;
    while i < |turns|
      invariant i <= |turns| && Watch(cfg, lim, first, turns[..i]) == Waiting(last, cycles)
    {
      var t := turns[i];
      assert turns[..i + 1][..i] == turns[..i];
      i := i + 1;
      if !t.onDisk {
        if reappear.Some? && t.now < reappear.value {
          continue;
        }
        VerdictStays(cfg, startedAt, windowAt, first, turns, i);
        return Done(Vanished), i;
      }
      if t.now >= deadline {
        VerdictStays(cfg, startedAt, windowAt, first, turns, i);
        return Done(TimedOut), i;
      }
      if t.snapshot != last {
        last, cycles := t.snapshot, 0;
        continue;
      }
      cycles := cycles + 1;
      if cycles < cfg.stableCycles || (t.isDir && cfg.sentinelName != "" && !t.sentinelOnDisk) {
        continue;
      }
      VerdictStays(cfg, startedAt, windowAt, first, turns, i);
      return Done(Stable), i;
    }
    assert turns[..i] == turns;
    WaitsIff(cfg, startedAt, windowAt, first, turns);
    return Waiting(last, cycles), i;
  }

  lemma {:induction false} DoneStays(cfg: Config, lim: Limits, first: Option<int>, turns: seq<Turn>, i: nat)
    requires i <= |turns| && Watch(cfg, lim, first, turns[..i]).Done?
    ensures Watch(cfg, lim, first, turns) == Watch(cfg, lim, first, turns[..i])
    decreases |turns| - i
  {
    if i < |turns| {
      assert turns[..i + 1][..i] == turns[..i];
      DoneStays(cfg, lim, first, turns, i + 1);
    } else {
      assert turns[..i] == turns;
    }
  }

  // ----- soundness -----

  /** The snapshots taken: the first one, then one per turn that found the path in time. */
  function Readings(deadline: int, first: Option<int>, turns: seq<Turn>): (r: seq<Option<int>>)
    ensures |r| >= 1
  {
    if turns == [] then [first]
    else
      var r, t := Readings(deadline, first, turns[..|turns| - 1]), turns[|turns| - 1];
      if t.onDisk && t.now < deadline then r + [t.snapshot] else r
  }

  /** The last `k` readings equal the reading before them. */
  ghost predicate Steady(r: seq<Option<int>>, k: int) {
    0 <= k < |r| && forall i :: |r| - 1 - k <= i < |r| ==> r[i] == r[|r| - 1 - k]
  }

  lemma {:induction false} WaitingSteady(cfg: Config, lim: Limits, first: Option<int>, turns: seq<Turn>)
    requires Watch(cfg, lim, first, turns).Waiting?
    ensures var p, r := Watch(cfg, lim, first, turns), Readings(lim.deadline, first, turns);
            Steady(r, p.cycles) && r[|r| - 1] == p.last
    decreases |turns|
  {
    if turns != [] {
      WaitingSteady(cfg, lim, first, turns[..|turns| - 1]);
    }
  }

  function Max(a: int, b: int): int { if a >= b then a else b }

  /** A stable verdict means that the last max(1, stable cycles) readings equal the one before
      them, that the path was there in time and that no sentinel file is being waited for. */
  lemma StableIsSteady(cfg: Config, lim: Limits, first: Option<int>, turns: seq<Turn>)
    requires turns != [] && Watch(cfg, lim, first, turns[..|turns| - 1]).Waiting?
    requires Watch(cfg, lim, first, turns) == Done(Stable)
    ensures Steady(Readings(lim.deadline, first, turns), Max(1, cfg.stableCycles))
    ensures var t := turns[|turns| - 1]; t.onDisk && t.now < lim.deadline && !AwaitsSentinel(cfg, t)
  {
    var init := turns[..|turns| - 1];
    var p, r := Watch(cfg, lim, first, init), Readings(lim.deadline, first, init);
    WaitingSteady(cfg, lim, first, init);
    assert Readings(lim.deadline, first, turns) == r + [turns[|turns| - 1].snapshot];
  }

  /** While the guard waits, its counter is the longest steady stretch of readings. */
  lemma {:induction false} CyclesAreLongest(cfg: Config, lim: Limits, first: Option<int>, turns: seq<Turn>, k: int)
    requires Watch(cfg, lim, first, turns).Waiting? && Steady(Readings(lim.deadline, first, turns), k)
    ensures k <= Watch(cfg, lim, first, turns).cycles
    decreases |turns|
  {
    if turns != [] && k > 0 {
      var init, t := turns[..|turns| - 1], turns[|turns| - 1];
      var r := Readings(lim.deadline, first, init);
      WaitingSteady(cfg, lim, first, init);
      if t.onDisk {
        assert Readings(lim.deadline, first, turns) == r + [t.snapshot];
        SteadyBefore(r, t.snapshot, k);
        CyclesAreLongest(cfg, lim, first, init, k - 1);
      } else {
        CyclesAreLongest(cfg, lim, first, init, k);
      }
    }
  }

  lemma SteadyBefore(r: seq<Option<int>>, x: Option<int>, k: int)
    requires r != [] && Steady(r + [x], k) && k > 0
    ensures Steady(r, k - 1) && r[|r| - 1] == x
  {
    var all := r + [x];
    assert all[|r| - k] == r[|r| - k] && all[|r|] == x;
    forall i | |r| - k <= i < |r| ensures r[i] == r[|r| - k] {
      assert all[i] == r[i];
    }
    assert all[|r| - 1] == r[|r| - 1];
  }

  /** The last turn finds the path in time, with steady readings and no sentinel to wait for. */
  ghost predicate Settles(cfg: Config, lim: Limits, first: Option<int>, turns: seq<Turn>) {
    turns != [] && var t := turns[|turns| - 1];
    t.onDisk && t.now < lim.deadline && Steady(Readings(lim.deadline, first, turns), Max(1, cfg.stableCycles)) &&
        !AwaitsSentinel(cfg, t)
  }

  ghost predicate Late(lim: Limits, turns: seq<Turn>) {
    turns != [] && turns[|turns| - 1].onDisk && turns[|turns| - 1].now >= lim.deadline
  }

  ghost predicate Gone(lim: Limits, turns: seq<Turn>) {
    turns != [] && !turns[|turns| - 1].onDisk && (lim.reappear.None? || turns[|turns| - 1].now >= lim.reappear.value)
  }

  ghost predicate Decisive(cfg: Config, lim: Limits, first: Option<int>, turns: seq<Turn>) {
    Settles(cfg, lim, first, turns) || Late(lim, turns) || Gone(lim, turns)
  }

  /** A guard still waiting gives the verdict stable at the next turn if and only if that turn
      settles the readings. */
  lemma StableIff(cfg: Config, lim: Limits, first: Option<int>, turns: seq<Turn>)
    requires turns != [] && Watch(cfg, lim, first, turns[..|turns| - 1]).Waiting?
    ensures Watch(cfg, lim, first, turns) == Done(Stable) <==> Settles(cfg, lim, first, turns)
  {
    var init, t := turns[..|turns| - 1], turns[|turns| - 1];
    var p, r := Watch(cfg, lim, first, init), Readings(lim.deadline, first, init);
    if Watch(cfg, lim, first, turns) == Done(Stable) {
      StableIsSteady(cfg, lim, first, turns);
    }
    if Settles(cfg, lim, first, turns) {
      WaitingSteady(cfg, lim, first, init);
      assert Readings(lim.deadline, first, turns) == r + [t.snapshot];
      SteadyBefore(r, t.snapshot, Max(1, cfg.stableCycles));
      CyclesAreLongest(cfg, lim, first, init, Max(1, cfg.stableCycles) - 1);
    }
  }

  /** The guard waits exactly as long as no turn was decisive. */
  lemma {:induction false} WaitingIff(cfg: Config, lim: Limits, first: Option<int>, turns: seq<Turn>)
    ensures Watch(cfg, lim, first, turns).Waiting? <==>
            forall k :: 1 <= k <= |turns| ==> !Decisive(cfg, lim, first, turns[..k])
    decreases |turns|
  {
    if turns != [] {
      var n := |turns| - 1;
      WaitingIff(cfg, lim, first, turns[..n]);
      assert forall k :: 1 <= k <= n ==> turns[..n][..k] == turns[..k];
      assert turns[..n + 1] == turns;
      if Watch(cfg, lim, first, turns[..n]).Waiting? {
        StableIff(cfg, lim, first, turns);
      }
    }
  }

  /** The verdict is that of the first decisive turn, whatever comes after it. */
  lemma VerdictOfFirstDecisive(cfg: Config, lim: Limits, first: Option<int>, turns: seq<Turn>, n: nat)
    requires 1 <= n <= |turns| && Decisive(cfg, lim, first, turns[..n])
    requires forall k :: 1 <= k < n ==> !Decisive(cfg, lim, first, turns[..k])
    ensures Watch(cfg, lim, first, turns) ==
            Done(if Late(lim, turns[..n]) then TimedOut else if Gone(lim, turns[..n]) then Vanished else Stable)
  {
    var upTo, before := turns[..n], turns[..n - 1];
    assert upTo[..n - 1] == before;
    forall k | 1 <= k <= |before| ensures !Decisive(cfg, lim, first, before[..k]) {
      assert before[..k] == turns[..k];
    }
    WaitingIff(cfg, lim, first, before);
    StableIff(cfg, lim, first, upTo);
    DoneStays(cfg, lim, first, turns, n);
  }

  // ----- termination -----

  /** Each turn begins at least one poll after the one before, the first not before the start. */
  ghost predicate Clocked(poll: int, windowAt: int, turns: seq<Turn>) {
    (turns != [] ==> turns[0].now >= windowAt) &&
    forall i :: 0 <= i < |turns| - 1 ==> turns[i].now + poll <= turns[i + 1].now
  }

  lemma {:induction false} ClockAdvances(poll: nat, windowAt: int, turns: seq<Turn>)
    requires turns != [] && Clocked(poll, windowAt, turns)
    ensures turns[|turns| - 1].now >= windowAt + (|turns| - 1) * poll
    decreases |turns|
  {
    if |turns| > 1 {
      var init := turns[..|turns| - 1];
      forall i | 0 <= i < |init| - 1 ensures init[i].now + poll <= init[i + 1].now {
        assert turns[i].now + poll <= turns[i + 1].now;
      }
      ClockAdvances(poll, windowAt, init);
      var n := |turns| - 2;
      assert turns[n].now + poll <= turns[n + 1].now;
      assert (n + 1) * poll == n * poll + poll;
    }
  }

  lemma MulMono(a: int, b: int, p: nat)
    requires a <= b
    ensures a * p <= b * p
  {
  }

  lemma DivBound(n: nat, poll: int, m: int)
    requires poll > 0 && n * poll < m
    ensures n <= m / poll
  {
    var q, r := m / poll, m % poll;
    assert m == q * poll + r && 0 <= r < poll;
    if n > q {
      MulMono(q + 1, n, poll);
    }
  }

  /** With a positive poll interval the loop ends: at most the larger of the maximal wait and the
      reappear window, divided by the interval, plus one turns keep it waiting. */
  lemma GuardTerminates(cfg: Config, startedAt: int, windowAt: int, first: Option<int>, turns: seq<Turn>)
    requires cfg.poll > 0 && startedAt <= windowAt && Clocked(cfg.poll, windowAt, turns)
    requires Watch(cfg, LimitsOf(cfg, startedAt, windowAt), first, turns).Waiting?
    ensures |turns| <= Max(0, Max(cfg.maxWait, cfg.window) / cfg.poll + 1)
  {
    if turns != [] {
      ClockAdvances(cfg.poll, windowAt, turns);
      DivBound(|turns| - 1, cfg.poll, Max(cfg.maxWait, cfg.window));
    }
  }
}
