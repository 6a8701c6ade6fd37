/** The cooldown gate for modified events, with the pruning that bounds its memory. */
module ModifiedEventGate {
  import opened Wrappers

  datatype Config = Config(cooldown: real, pruneAfter: Option<real>, pruneInterval: Option<real>)

  function Max(a: real, b: real): real { if a >= b then a else b }

  function PruneAfter(c: Config): real {
    Max(if c.pruneAfter.Some? then c.pruneAfter.value else Max(c.cooldown * 2.0, 60.0), c.cooldown)
  }

  function PruneInterval(c: Config): real {
    Max(if c.pruneInterval.Some? then c.pruneInterval.value else PruneAfter(c), c.cooldown)
  }

  datatype Gate = Gate(lastSeen: map<string, real>, nextPruneAt: real)

  /** A modified event that reached the gate. */
  datatype Event = Event(key: string, now: real)

  predicate TooSoon(seen: map<string, real>, e: Event, cooldown: real) {
    e.key in seen && e.now - seen[e.key] < cooldown
  }

  function Pruned(c: Config, g: Gate, now: real): Gate {
    if now < g.nextPruneAt then g
    else
      var cutoff := now - PruneAfter(c);
      Gate(if cutoff <= 0.0 then g.lastSeen else map k | k in g.lastSeen && g.lastSeen[k] >= cutoff :: g.lastSeen[k],
           now + PruneInterval(c))
  }

  /** What the gate holds after an event. */
  function After(c: Config, g: Gate, e: Event): Gate {
    var p := Pruned(c, g, e.now);
    if TooSoon(p.lastSeen, e, c.cooldown) then p else p.(lastSeen := p.lastSeen[e.key := e.now])
  }

  /** Whether the gate lets the event through. */
  predicate Allows(c: Config, g: Gate, e: Event) {
    !TooSoon(Pruned(c, g, e.now).lastSeen, e, c.cooldown)
  }

  function Opened(c: Config, start: real): Gate { Gate(map[], start + PruneInterval(c)) }

  function Run(c: Config, start: real, events: seq<Event>): Gate {
    if events == [] then Opened(c, start)
    else After(c, Run(c, start, events[..|events| - 1]), events[|events| - 1])
  }

  /** The answer to the i-th event of a history. */
  predicate Answer(c: Config, start: real, events: seq<Event>, i: nat)
    requires i < |events|
  {
    Allows(c, Run(c, start, events[..i]), events[i])
  }

  // ----- a gate that never forgets -----

  function Remembered(c: Config, events: seq<Event>): map<string, real> {
    if events == [] then map[]
    else
      var seen, e := Remembered(c, events[..|events| - 1]), events[|events| - 1];
      if TooSoon(seen, e, c.cooldown) then seen else seen[e.key := e.now]
  }

  ghost predicate ClockRuns(events: seq<Event>) {
    forall i, j :: 0 <= i < j < |events| ==> events[i].now <= events[j].now
  }

  /** The pruned memory is part of the full one, and what is missing is past its cooldown. */
  ghost predicate Refines(c: Config, g: Gate, full: map<string, real>, now: real) {
    (forall k :: k in g.lastSeen ==> k in full && full[k] == g.lastSeen[k]) &&
    (forall k :: k in full && k !in g.lastSeen ==> now - full[k] >= c.cooldown)
  }

  lemma {:induction false} RunRefines(c: Config, start: real, events: seq<Event>, now: real)
    requires ClockRuns(events) && forall i :: 0 <= i < |events| ==> events[i].now <= now
    ensures Refines(c, Run(c, start, events), Remembered(c, events), now)
    decreases |events|
  {
    if events != [] {
      var init, e := events[..|events| - 1], events[|events| - 1];
      RunRefines(c, start, init, e.now);
    }
  }

  /** Pruning never changes an answer: under a clock that does not go back, for every history
      and configuration, the gate answers as the one that never forgets. */
  lemma PrunedGateRefinesUnpruned(c: Config, start: real, events: seq<Event>, i: nat)
    requires ClockRuns(events) && i < |events|
    ensures Answer(c, start, events, i) <==> !TooSoon(Remembered(c, events[..i]), events[i], c.cooldown)
  {
    var now := events[i].now;
    RunRefines(c, start, events[..i], now);
  }

  // ----- how long the gate remembers -----

  /** Until when an entry is kept, and how long pruning may take to come round, as configured: by
      default twice the cooldown or a minute, whichever is more, and the same again. */
  predicate Spans(c: Config, kept: real, interval: real) {
    kept >= c.cooldown && interval >= c.cooldown &&
    (c.pruneAfter.Some? && c.pruneAfter.value >= c.cooldown ==> kept == c.pruneAfter.value) &&
    (c.pruneAfter.Some? && c.pruneAfter.value < c.cooldown ==> kept == c.cooldown) &&
    (c.pruneAfter.None? && c.cooldown >= 30.0 ==> kept == 2.0 * c.cooldown) &&
    (c.pruneAfter.None? && 0.0 <= c.cooldown < 30.0 ==> kept == 60.0) &&
    (c.pruneInterval.Some? && c.pruneInterval.value >= c.cooldown ==> interval == c.pruneInterval.value) &&
    (c.pruneInterval.Some? && c.pruneInterval.value < c.cooldown ==> interval == c.cooldown) &&
    (c.pruneInterval.None? ==> interval == kept)
  }

  /** Every entry is younger than the last pruning's cutoff. */
  ghost predicate Bounded(g: Gate, kept: real, interval: real) {
    forall k :: k in g.lastSeen ==> g.lastSeen[k] >= g.nextPruneAt - interval - kept
  }

  /** What the pruned memory lacks is older than `kept`. */
  ghost predicate Retains(g: Gate, full: map<string, real>, kept: real, now: real) {
    forall k :: k in full && k !in g.lastSeen ==> now - full[k] > kept
  }

  lemma SpansOf(c: Config)
    requires c.cooldown >= 0.0
    ensures Spans(c, PruneAfter(c), PruneInterval(c))
  {
  }

  lemma {:induction false} RunBounded(c: Config, start: real, events: seq<Event>)
    requires c.cooldown >= 0.0 && start >= 0.0 && ClockRuns(events)
    requires forall i :: 0 <= i < |events| ==> events[i].now >= start
    ensures Bounded(Run(c, start, events), PruneAfter(c), PruneInterval(c))
    ensures forall k :: k in Run(c, start, events).lastSeen ==> Run(c, start, events).lastSeen[k] >= start
    ensures Run(c, start, events).nextPruneAt - PruneInterval(c) <=
            if events == [] then start else events[|events| - 1].now
    ensures events != [] ==> events[|events| - 1].now <= Run(c, start, events).nextPruneAt
    decreases |events|
  {
    if events != [] {
      RunBounded(c, start, events[..|events| - 1]);
    }
  }

  lemma {:induction false} RunRetains(c: Config, start: real, events: seq<Event>, now: real)
    requires ClockRuns(events) && forall i :: 0 <= i < |events| ==> events[i].now <= now
    ensures Retains(Run(c, start, events), Remembered(c, events), PruneAfter(c), now)
    decreases |events|
  {
    if events != [] {
      var init, e := events[..|events| - 1], events[|events| - 1];
      RunRetains(c, start, init, e.now);
      RunRefines(c, start, init, e.now);
    }
  }

  /** Over every history with times that start at zero or later and a clock that does not go back,
      the gate forgets nothing younger than the retention span, and after each event holds nothing
      older than that span and a pruning interval together. */
  lemma MemoryIsBounded(c: Config, start: real, events: seq<Event>, key: string)
    requires c.cooldown >= 0.0 && start >= 0.0 && ClockRuns(events) && events != []
    requires forall i :: 0 <= i < |events| ==> events[i].now >= start
    ensures exists kept, interval ::
              Spans(c, kept, interval) &&
              var seen, full, now := Run(c, start, events).lastSeen, Remembered(c, events), events[|events| - 1].now;
              (key in seen ==> key in full && full[key] == seen[key] && now - seen[key] <= kept + interval) &&
              (key in full && now - full[key] <= kept ==> key in seen)
  {
    var now := events[|events| - 1].now;
    SpansOf(c);
    RunBounded(c, start, events);
    RunRetains(c, start, events, now);
    RunRefines(c, start, events, now);
  }

  // ----- the answers without any state -----

  /** Of the events of `key`, the i-th is the latest that was let through. */
  ghost predicate LastAllowed(c: Config, start: real, events: seq<Event>, key: string, i: int) {
    0 <= i < |events| && events[i].key == key && Answer(c, start, events, i) &&
        NoneAllowedAfter(c, start, events, key, i)
  }

  ghost predicate NoneAllowedAfter(c: Config, start: real, events: seq<Event>, key: string, i: int) {
    forall j :: 0 <= j < |events| && i < j && events[j].key == key ==> !Answer(c, start, events, j)
  }

  lemma AnswerOfPrefix(c: Config, start: real, events: seq<Event>, n: nat, i: nat)
    requires i < n <= |events|
    ensures Answer(c, start, events[..n], i) == Answer(c, start, events, i)
  {
    assert events[..n][..i] == events[..i];
  }

  /** An event that is turned away, or is of another key, leaves the latest allowed one as it was. */
  lemma StillLast(c: Config, start: real, events: seq<Event>, key: string, i: int)
    requires events != [] && NoneAllowedAfter(c, start, events[..|events| - 1], key, i)
    requires events[|events| - 1].key != key || !Answer(c, start, events, |events| - 1)
    ensures NoneAllowedAfter(c, start, events, key, i)
  {
    var n := |events| - 1;
    forall j | 0 <= j < |events| && i < j && events[j].key == key ensures !Answer(c, start, events, j) {
      if j < n {
        AnswerOfPrefix(c, start, events, n, j);
        assert events[..n][j] == events[j];
      }
    }
  }

  /** The full memory holds, for each key, the time of its latest allowed event. */
  lemma {:induction false} RememberedIsLast(c: Config, start: real, events: seq<Event>, key: string) returns (i: int)
    requires ClockRuns(events)
    ensures key in Remembered(c, events) ==>
              LastAllowed(c, start, events, key, i) && Remembered(c, events)[key] == events[i].now
    ensures key !in Remembered(c, events) ==> NoneAllowedAfter(c, start, events, key, -1)
    decreases |events|
  {
    i := -1;
    if events != [] {
      var n := |events| - 1;
      PrunedGateRefinesUnpruned(c, start, events, n);
      i := RememberedIsLast(c, start, events[..n], key);
      if events[n].key == key && Answer(c, start, events, n) {
        i := n;
      } else if key in Remembered(c, events[..n]) {
        AnswerOfPrefix(c, start, events, n, i);
        StillLast(c, start, events, key, i);
      } else {
        StillLast(c, start, events, key, -1);
      }
    }
  }

  /** No event of the same key was let through less than a cooldown before the i-th. */
  ghost predicate Rested(c: Config, start: real, events: seq<Event>, i: nat)
    requires i < |events|
  {
    forall j :: 0 <= j < i && events[j].key == events[i].key && Answer(c, start, events, j) ==>
                  events[i].now - events[j].now >= c.cooldown
  }

  /** An event is let through exactly when no event of the same key was let through less than a
      cooldown before it; hence two allowed events of one key are at least a cooldown apart. */
  lemma AllowedIff(c: Config, start: real, events: seq<Event>, i: nat)
    requires ClockRuns(events) && i < |events|
    ensures Answer(c, start, events, i) <==> Rested(c, start, events, i)
  {
    var before, key := events[..i], events[i].key;
    PrunedGateRefinesUnpruned(c, start, events, i);
    var k := RememberedIsLast(c, start, before, key);
    var last := if key in Remembered(c, before) then k else -1;
    forall j | 0 <= j < i && events[j].key == key && Answer(c, start, events, j) ensures j <= last {
      AnswerOfPrefix(c, start, events, i, j);
      assert before[j] == events[j];
    }
    if key in Remembered(c, before) {
      AnswerOfPrefix(c, start, events, i, k);
      assert before[k] == events[k];
      assert Remembered(c, before)[key] == events[k].now;
    }
  }

  /** The gate object. */
  class EventGate {
    const config: Config
    var lastSeen: map<string, real>
    var nextPruneAt: real

    constructor (config: Config, now: real)
      ensures this.config == config && View() == Opened(config, now)
    {
      this.config := config;
      lastSeen := map[];
      nextPruneAt := now + PruneInterval(config);
    }

    function View(): Gate
      reads this
    {
      Gate(lastSeen, nextPruneAt)
    }

    method AllowModifiedEvent(e: Event) returns (allowed: bool)
      modifies this
      ensures View() == After(config, old(View()), e)
      ensures allowed == Allows(config, old(View()), e)
    {
      MaybePrune(e.now);
      if e.key in lastSeen && e.now - lastSeen[e.key] < config.cooldown {
        return false;
      }
      lastSeen := lastSeen[e.key := e.now];
      return true;
    }

    method MaybePrune(now: real)
      modifies this
      ensures View() == Pruned(config, old(View()), now)
    {
      if now < nextPruneAt {
        return;
      }
      nextPruneAt := now + PruneInterval(config);
      var cutoff := now - PruneAfter(config);
      if cutoff <= 0.0 {
        return;
      }
      var stale := set k | k in lastSeen && lastSeen[k] < cutoff;
      ghost var before := lastSeen;
      while stale != {}
        invariant stale <= lastSeen.Keys <= before.Keys
        invariant forall k :: k in lastSeen ==> lastSeen[k] == before[k]
        invariant forall k :: k in before && k !in lastSeen ==> before[k] < cutoff
        invariant forall k :: k in stale ==> before[k] < cutoff
        invariant forall k :: k in lastSeen && k !in stale ==> before[k] >= cutoff
        invariant nextPruneAt == now + PruneInterval(config)
      {
        var k :| k in stale;
        lastSeen := lastSeen - {k};
        stale := stale - {k};
      }
    }
  }
}
