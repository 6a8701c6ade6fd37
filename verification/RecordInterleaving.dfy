/** `update` and `mark_unsynced` of several callers, interleaved at their database accesses. */
module RecordInterleaving {
  import opened RecordStore

  /** Where a caller stands inside its call. */
  datatype Phase =
    | Resting
    | MarkRead(id: string, snap: Row)                                    // mark_unsynced has read the row
    | Checked(id: string, snap: Row, patch: Payload, merged: Payload)    // update has read, checked and merged
    | Written(id: string, expected: int, effective: bool)                // the guarded write is done

  /** A row together with the patch that made it out of its predecessor. */
  datatype Version = Version(row: Row, patch: Payload)

  /** The table, the callers, and every version each row has gone through. */
  datatype Db = Db(rows: Table, callers: map<nat, Phase>, history: map<string, seq<Version>>)

  datatype Step =
    | Insert(id: string, revision: int, payload: Payload)
    | UpdateReads(caller: nat, id: string, expected: int, patch: Payload)
    | MarkReads(caller: nat, id: string)
    | MarkChecks(caller: nat)
    | GuardedWrite(caller: nat)
    | ReRead(caller: nat)

  function PhaseOf(db: Db, c: nat): Phase { if c in db.callers then db.callers[c] else Resting }

  function Moved(db: Db, c: nat, phase: Phase): Db { db.(callers := db.callers[c := phase]) }

  /** One database access of one caller; a step a caller cannot take changes nothing. */
  function Next(db: Db, step: Step): Db {
    match step
    case Insert(id, revision, payload) =>
      if id in db.rows then db
      else
        var row := Row(revision, payload);
        Db(db.rows[id := row], db.callers, db.history[id := [Version(row, payload)]])
    case UpdateReads(c, id, expected, patch) =>
      if !PhaseOf(db, c).Resting? || id !in db.rows || db.rows[id].revision != expected then db
      else Moved(db, c, Checked(id, db.rows[id], patch, db.rows[id].payload + patch))
    case MarkReads(c, id) =>
      if !PhaseOf(db, c).Resting? || id !in db.rows then db
      else Moved(db, c, MarkRead(id, db.rows[id]))
    case MarkChecks(c) =>
      if !PhaseOf(db, c).MarkRead? then db
      else
        var MarkRead(id, first) := PhaseOf(db, c);
        if id !in db.rows || db.rows[id].revision != first.revision then Moved(db, c, Resting)
        else Moved(db, c, Checked(id, db.rows[id], UNSYNCED, db.rows[id].payload + (first.payload + UNSYNCED)))
    case GuardedWrite(c) =>
      if !PhaseOf(db, c).Checked? then db
      else
        var Checked(id, snap, patch, merged) := PhaseOf(db, c);
        if id in db.rows && db.rows[id].revision == snap.revision then
          var row := Row(snap.revision + 1, merged);
          Db(db.rows[id := row], db.callers[c := Written(id, snap.revision, true)],
             db.history[id := Versions(db, id) + [Version(row, patch)]])
        else Moved(db, c, Written(id, snap.revision, false))
    case ReRead(c) =>
      if PhaseOf(db, c).Written? then Moved(db, c, Resting) else db
  }

  function Versions(db: Db, id: string): seq<Version> { if id in db.history then db.history[id] else [] }

  /** The call reports success when the row it re-reads carries the revision it meant to write. */
  predicate ReportsSuccess(db: Db, c: nat) {
    PhaseOf(db, c).Written? &&
    var w := PhaseOf(db, c); w.id in db.rows && db.rows[w.id].revision == w.expected + 1
  }

  /** A database at rest: every row is the first of its versions. */
  function Start(rows: Table): Db {
    Db(rows, map[], map id | id in rows :: [Version(rows[id], rows[id].payload)])
  }

  function Run(rows: Table, steps: seq<Step>): Db {
    if steps == [] then Start(rows)
    else Next(Run(rows, steps[..|steps| - 1]), steps[|steps| - 1])
  }

  // ----- what every interleaving keeps -----

  /** Each version is its immediate predecessor with one patch merged in, one revision later. */
  ghost predicate Chain(h: seq<Version>) {
    h != [] &&
    (forall i :: 0 <= i < |h| ==> h[i].row.revision == h[0].row.revision + i) &&
    (forall i :: 0 < i < |h| ==> h[i].row.payload == h[i - 1].row.payload + h[i].patch)
  }

  /** `row` is what the table held at that revision. */
  ghost predicate WasThere(h: seq<Version>, row: Row) {
    h != [] && var k := row.revision - h[0].row.revision; 0 <= k < |h| && h[k].row == row
  }

  ghost predicate PhaseOk(db: Db, phase: Phase) {
    match phase
    case Resting => true
    case MarkRead(id, snap) => WasThere(Versions(db, id), snap)
    case Checked(id, snap, patch, merged) => WasThere(Versions(db, id), snap) && merged == snap.payload + patch
    case Written(id, expected, effective) =>
      var h := Versions(db, id);
      h != [] && expected + 1 <= h[0].row.revision + |h| - 1
  }

  ghost predicate RowOk(db: Db, id: string) {
    id in db.rows ==> Chain(Versions(db, id)) && db.rows[id] == Versions(db, id)[|Versions(db, id)| - 1].row
  }

  ghost predicate DbOk(db: Db) {
    db.history.Keys == db.rows.Keys &&
    (forall id :: RowOk(db, id)) &&
    (forall c :: PhaseOk(db, PhaseOf(db, c)))
  }

  /** A caller's standing survives any growth of the histories. */
  lemma PhaseStays(db: Db, db': Db, phase: Phase)
    requires PhaseOk(db, phase)
    requires forall id :: Versions(db, id) <= Versions(db', id)
    ensures PhaseOk(db', phase)
  {
    if !phase.Resting? {
      assert Versions(db, phase.id) <= Versions(db', phase.id);
    }
  }

  lemma InsertKeeps(db: Db, id: string, revision: int, payload: Payload)
    requires DbOk(db) && id !in db.rows
    ensures DbOk(Next(db, Insert(id, revision, payload)))
  {
    var db' := Next(db, Insert(id, revision, payload));
    forall c ensures PhaseOk(db', PhaseOf(db', c)) {
      assert PhaseOk(db, PhaseOf(db, c));
    }
    forall other ensures RowOk(db', other) {
      assert RowOk(db, other);
    }
  }

  lemma MoveKeeps(db: Db, c: nat, phase: Phase)
    requires DbOk(db) && PhaseOk(db, phase)
    ensures DbOk(Moved(db, c, phase))
  {
    var db' := Moved(db, c, phase);
    forall id ensures RowOk(db', id) {
      assert RowOk(db, id);
    }
    forall d ensures PhaseOk(db', PhaseOf(db', d)) {
      assert PhaseOk(db, PhaseOf(db, d));
    }
  }

  /** The guarded write that takes effect continues the chain: its snapshot is the current row. */
  lemma WriteContinues(db: Db, c: nat)
    requires DbOk(db) && PhaseOf(db, c).Checked?
    requires var p := PhaseOf(db, c); p.id in db.rows && db.rows[p.id].revision == p.snap.revision
    ensures var p := PhaseOf(db, c);
            p.snap == db.rows[p.id] &&
            Chain(Versions(db, p.id) + [Version(Row(p.snap.revision + 1, p.merged), p.patch)])
  {
    var p := PhaseOf(db, c);
    assert RowOk(db, p.id) && PhaseOk(db, p);
  }

  lemma WriteKeeps(db: Db, c: nat)
    requires DbOk(db) && PhaseOf(db, c).Checked?
    ensures DbOk(Next(db, GuardedWrite(c)))
  {
    var p := PhaseOf(db, c);
    var db' := Next(db, GuardedWrite(c));
    assert PhaseOk(db, p) && RowOk(db, p.id);
    if p.id in db.rows && db.rows[p.id].revision == p.snap.revision {
      WriteContinues(db, c);
      forall id ensures RowOk(db', id) {
        assert RowOk(db, id);
      }
      forall d ensures PhaseOk(db', PhaseOf(db', d)) {
        assert PhaseOk(db, PhaseOf(db, d));
        PhaseStays(db, db', PhaseOf(db, d));
      }
    } else {
      MoveKeeps(db, c, Written(p.id, p.snap.revision, false));
    }
  }

  lemma MarkChecksKeeps(db: Db, c: nat)
    requires DbOk(db) && PhaseOf(db, c).MarkRead?
    ensures DbOk(Next(db, MarkChecks(c)))
  {
    var MarkRead(id, first) := PhaseOf(db, c);
    assert PhaseOk(db, PhaseOf(db, c)) && RowOk(db, id);
    if id in db.rows && db.rows[id].revision == first.revision {
      var merged := db.rows[id].payload + (first.payload + UNSYNCED);
      assert merged == db.rows[id].payload + UNSYNCED;
      MoveKeeps(db, c, Checked(id, db.rows[id], UNSYNCED, merged));
    } else {
      MoveKeeps(db, c, Resting);
    }
  }

  lemma NextKeeps(db: Db, step: Step)
    requires DbOk(db)
    ensures DbOk(Next(db, step))
  {
    match step
    case Insert(id, revision, payload) =>
      if id !in db.rows {
        InsertKeeps(db, id, revision, payload);
      }
    case UpdateReads(c, id, expected, patch) =>
      assert RowOk(db, id);
      if PhaseOf(db, c).Resting? && id in db.rows && db.rows[id].revision == expected {
        MoveKeeps(db, c, Checked(id, db.rows[id], patch, db.rows[id].payload + patch));
      }
    case MarkReads(c, id) =>
      assert RowOk(db, id);
      if PhaseOf(db, c).Resting? && id in db.rows {
        MoveKeeps(db, c, MarkRead(id, db.rows[id]));
      }
    case MarkChecks(c) =>
      if PhaseOf(db, c).MarkRead? {
        MarkChecksKeeps(db, c);
      }
    case GuardedWrite(c) =>
      if PhaseOf(db, c).Checked? {
        WriteKeeps(db, c);
      }
    case ReRead(c) =>
      if PhaseOf(db, c).Written? {
        MoveKeeps(db, c, Resting);
      }
  }

  lemma {:induction false} RunKeeps(rows: Table, steps: seq<Step>)
    ensures DbOk(Run(rows, steps))
    decreases |steps|
  {
    if steps == [] {
      var db := Start(rows);
      assert forall id :: RowOk(db, id);
      assert forall c :: PhaseOk(db, PhaseOf(db, c));
    } else {
      RunKeeps(rows, steps[..|steps| - 1]);
      NextKeeps(Run(rows, steps[..|steps| - 1]), steps[|steps| - 1]);
    }
  }

  // ----- no lost updates -----

  /** Caller `c`'s write to `id`, computed from revision `expected`, takes effect in `db`. */
  predicate TakesEffect(db: Db, step: Step, id: string, expected: int) {
    step.GuardedWrite? && PhaseOf(db, step.caller).Checked? &&
    var p := PhaseOf(db, step.caller);
    p.id == id && p.snap.revision == expected && id in db.rows && db.rows[id].revision == expected
  }

  /** How many writes to `id` took effect in the run. */
  function EffectiveWrites(rows: Table, steps: seq<Step>, id: string): nat {
    if steps == [] then 0
    else
      var before := Run(rows, steps[..|steps| - 1]);
      var step := steps[|steps| - 1];
      EffectiveWrites(rows, steps[..|steps| - 1], id) + Counted(before, step, id)
  }

  function Counted(db: Db, step: Step, id: string): nat {
    if id in db.rows && TakesEffect(db, step, id, db.rows[id].revision) then 1 else 0
  }

  lemma NextHistory(db: Db, step: Step, id: string)
    requires id in db.rows && id in db.history
    ensures var db' := Next(db, step);
            id in db'.rows && id in db'.history &&
            if TakesEffect(db, step, id, db.rows[id].revision) then
              db'.history[id] == db.history[id] + [Version(db'.rows[id], PhaseOf(db, step.caller).patch)]
            else db'.history[id] == db.history[id] && db'.rows[id] == db.rows[id]
  {
  }

  lemma {:induction false} HistoryOf(rows: Table, steps: seq<Step>, id: string)
    requires id in rows
    ensures var db := Run(rows, steps);
            id in db.rows && id in db.history && db.history[id] != [] &&
            db.history[id][0].row == rows[id] && |db.history[id]| == 1 + EffectiveWrites(rows, steps, id)
    decreases |steps|
  {
    if steps != [] {
      HistoryOf(rows, steps[..|steps| - 1], id);
      NextHistory(Run(rows, steps[..|steps| - 1]), steps[|steps| - 1], id);
    }
  }

  /** No lost updates: over any interleaving a row's revision has risen by exactly one for every
      write that took effect, and every version is its predecessor merged with one writer's patch. */
  lemma NoLostUpdates(rows: Table, steps: seq<Step>, id: string)
    requires id in rows
    ensures var db := Run(rows, steps);
            id in db.rows && db.rows[id].revision == rows[id].revision + EffectiveWrites(rows, steps, id) &&
            Chain(Versions(db, id)) && Versions(db, id)[0].row == rows[id] &&
            Versions(db, id)[|Versions(db, id)| - 1].row == db.rows[id]
  {
    HistoryOf(rows, steps, id);
    RunKeeps(rows, steps);
    assert RowOk(Run(rows, steps), id);
  }

  lemma RunSnoc(rows: Table, steps: seq<Step>, n: nat, id: string)
    requires 0 < n <= |steps|
    ensures var db := Run(rows, steps[..n - 1]);
            Run(rows, steps[..n]) == Next(db, steps[n - 1]) &&
            EffectiveWrites(rows, steps[..n], id) ==
            EffectiveWrites(rows, steps[..n - 1], id) + Counted(db, steps[n - 1], id)
  {
    assert steps[..n][..n - 1] == steps[..n - 1];
  }

  lemma RevisionStep(db: Db, step: Step, id: string)
    requires id in db.rows && id in db.history
    ensures id in Next(db, step).rows &&
            Next(db, step).rows[id].revision == db.rows[id].revision + Counted(db, step, id)
  {
  }

  /** Between two points of a run a row's revision rises by the writes that took effect. */
  lemma {:induction false} RevisionCounts(rows: Table, steps: seq<Step>, i: nat, n: nat, id: string)
    requires i <= n <= |steps| && id in Run(rows, steps[..i]).rows
    ensures id in Run(rows, steps[..n]).rows
    ensures EffectiveWrites(rows, steps[..i], id) <= EffectiveWrites(rows, steps[..n], id)
    ensures Run(rows, steps[..n]).rows[id].revision ==
            Run(rows, steps[..i]).rows[id].revision +
                EffectiveWrites(rows, steps[..n], id) - EffectiveWrites(rows, steps[..i], id)
    decreases n
  {
    if i < n {
      RevisionCounts(rows, steps, i, n - 1, id);
      RunSnoc(rows, steps, n, id);
      RunKeeps(rows, steps[..n - 1]);
      RevisionStep(Run(rows, steps[..n - 1]), steps[n - 1], id);
    }
  }

  /** At most one writer per expected revision: a later effective write expects a later revision. */
  lemma OneWinnerPerRevision(rows: Table, steps: seq<Step>, i: nat, j: nat, id: string, e: int, f: int)
    requires i < j < |steps|
    requires TakesEffect(Run(rows, steps[..i]), steps[i], id, e)
    requires TakesEffect(Run(rows, steps[..j]), steps[j], id, f)
    ensures e < f
  {
    RunSnoc(rows, steps, i + 1, id);
    RunKeeps(rows, steps[..i]);
    RevisionStep(Run(rows, steps[..i]), steps[i], id);
    RevisionCounts(rows, steps, i + 1, j, id);
  }

  // ----- what a caller is told -----

  /** Step `i` is the read from which caller `c` computes its write, and `c` has not returned since. */
  ghost predicate ReadsAt(rows: Table, steps: seq<Step>, i: nat, c: nat) {
    i < |steps| && !PhaseOf(Run(rows, steps[..i]), c).Checked? && PhaseOf(Run(rows, steps[..i + 1]), c).Checked? &&
    forall j :: i < j <= |steps| ==> StillCalling(rows, steps, j, c)
  }

  ghost predicate StillCalling(rows: Table, steps: seq<Step>, j: int, c: nat)
    requires 0 <= j <= |steps|
  {
    var p := PhaseOf(Run(rows, steps[..j]), c); p.Checked? || p.Written?
  }

  /** The read takes the row as it is. */
  lemma ReadIsCurrent(rows: Table, steps: seq<Step>, i: nat, c: nat)
    requires ReadsAt(rows, steps, i, c)
    ensures var p, db := PhaseOf(Run(rows, steps[..i + 1]), c), Run(rows, steps[..i]);
            p.id in db.rows && p.snap == db.rows[p.id]
  {
    var db := Run(rows, steps[..i]);
    RunSnoc(rows, steps, i + 1, "");
    ReadStep(db, steps[i], c);
  }

  lemma ReadStep(db: Db, step: Step, c: nat)
    requires !PhaseOf(db, c).Checked? && PhaseOf(Next(db, step), c).Checked?
    ensures var p := PhaseOf(Next(db, step), c); p.id in db.rows && p.snap == db.rows[p.id]
  {
  }

  /** Both phases belong to one call, computed from one snapshot. */
  ghost predicate SameCall(p: Phase, q: Phase) {
    (p.Checked? || p.Written?) && (q.Checked? || q.Written?) && q.id == p.id && Basis(q) == Basis(p)
  }

  function Basis(p: Phase): int
    requires p.Checked? || p.Written?
  {
    if p.Checked? then p.snap.revision else p.expected
  }

  lemma SameCallStep(db: Db, step: Step, c: nat)
    requires var p := PhaseOf(db, c); p.Checked? || p.Written?
    requires var q := PhaseOf(Next(db, step), c); q.Checked? || q.Written?
    ensures SameCall(PhaseOf(db, c), PhaseOf(Next(db, step), c))
  {
  }

  lemma StillAt(rows: Table, steps: seq<Step>, i: nat, c: nat, j: nat)
    requires ReadsAt(rows, steps, i, c) && i < j <= |steps|
    ensures var p := PhaseOf(Run(rows, steps[..j]), c); p.Checked? || p.Written?
  {
    assert StillCalling(rows, steps, j, c);
  }

  /** Until it returns, a caller keeps to the record and revision it read. */
  lemma {:induction false} CallKeeps(rows: Table, steps: seq<Step>, i: nat, c: nat, n: nat)
    requires ReadsAt(rows, steps, i, c) && i < n <= |steps|
    ensures SameCall(PhaseOf(Run(rows, steps[..i + 1]), c), PhaseOf(Run(rows, steps[..n]), c))
    decreases n
  {
    if n > i + 1 {
      CallKeeps(rows, steps, i, c, n - 1);
      RunSnoc(rows, steps, n, "");
      StillAt(rows, steps, i, c, n - 1);
      StillAt(rows, steps, i, c, n);
      SameCallStep(Run(rows, steps[..n - 1]), steps[n - 1], c);
    }
  }

  /** A caller is told that its update succeeded if and only if exactly one write to the record,
      its own or another caller's, took effect since the read its update was computed from. */
  lemma ToldSuccessIff(rows: Table, steps: seq<Step>, i: nat, c: nat)
    requires ReadsAt(rows, steps, i, c) && PhaseOf(Run(rows, steps), c).Written?
    ensures var id := PhaseOf(Run(rows, steps), c).id;
            ReportsSuccess(Run(rows, steps), c) <==>
            EffectiveWrites(rows, steps, id) - EffectiveWrites(rows, steps[..i], id) == 1
  {
    ReadIsCurrent(rows, steps, i, c);
    assert steps[..|steps|] == steps;
    CallKeeps(rows, steps, i, c, |steps|);
    RevisionCounts(rows, steps, i, |steps|, PhaseOf(Run(rows, steps), c).id);
  }

  /** Two callers that read the same revision: the second write has no effect, the table holds the
      first writer's merge, and both calls report success. */
  lemma LostRace(db: Db, a: nat, b: nat)
    requires a != b && PhaseOf(db, a).Checked? && PhaseOf(db, b).Checked?
    requires PhaseOf(db, a).id == PhaseOf(db, b).id && PhaseOf(db, a).snap.revision == PhaseOf(db, b).snap.revision
    requires var p := PhaseOf(db, a); p.id in db.rows && db.rows[p.id].revision == p.snap.revision
    ensures var p := PhaseOf(db, a);
            var db' := Next(Next(db, GuardedWrite(a)), GuardedWrite(b));
            db'.rows == db.rows[p.id := Row(p.snap.revision + 1, p.merged)] &&
            !PhaseOf(db', b).effective && ReportsSuccess(db', a) && ReportsSuccess(db', b)
  {
  }

  // ----- an undisturbed update -----

  /** An update that no other caller interrupts does what the adapter's `update` does. */
  lemma UndisturbedUpdate(db: Db, c: nat, id: string, expected: int, patch: Payload)
    requires PhaseOf(db, c).Resting?
    ensures var read := Next(db, UpdateReads(c, id, expected, patch));
            var written := Next(read, GuardedWrite(c));
            var reply := Updated(db.rows, id, expected, patch, NoFault);
            written.rows == reply.rows && (ReportsSuccess(written, c) <==> reply.answer.Ok?) &&
            (reply.answer.Ok? ==> id in written.rows && reply.answer.value == written.rows[id]) &&
            Next(written, ReRead(c)).rows == reply.rows && PhaseOf(Next(written, ReRead(c)), c).Resting?
  {
  }

  /** So does an uninterrupted `mark_unsynced`. */
  lemma UndisturbedMark(db: Db, c: nat, id: string)
    requires PhaseOf(db, c).Resting?
    ensures var written := Next(Next(Next(db, MarkReads(c, id)), MarkChecks(c)), GuardedWrite(c));
            var reply := Marked(db.rows, id, NoFault);
            written.rows == reply.rows && (ReportsSuccess(written, c) <==> reply.answer.Ok?)
  {
  }
}
