/** The runtime's cache of record revisions above the record store. */
module RevisionCache {
  import opened Wrappers
  import opened RecordStore
  import Text

  /** The table and the `record_revisions` dictionary. */
  datatype Runtime = Runtime(rows: Table, cache: map<string, int>)

  datatype Op =
    | SaveRecord(id: string, payload: Payload, fault: Fault)
    | Bookkeep(id: string, patch: Payload, fault: Fault)
    | Sync(id: string, accepted: bool, fault: Fault, rereadFails: bool)

  datatype Effect = Effect(rt: Runtime, answer: Result<(), StoreError>)

  /** The cache takes the revision of a successful answer; a failed call leaves it alone. */
  function Learn(rt: Runtime, id: string, reply: Reply): Effect {
    match reply.answer
    case Ok(row) => Effect(Runtime(reply.rows, rt.cache[id := row.revision]), Ok(()))
    case Err(e) => Effect(Runtime(reply.rows, rt.cache), Err(e))
  }

  function CachedOr(rt: Runtime, id: string, default: int): int {
    if id in rt.cache then rt.cache[id] else default
  }

  /** A record id that a sync refuses outright. */
  predicate Blank(id: string) { Text.Strip(id) == "" }

  lemma BlankIff(id: string)
    ensures Blank(id) <==> forall i :: 0 <= i < |id| ==> Text.IsSpace(id[i])
  {
    var lo, hi := Text.StripSlice(id);
    if lo < hi {
      assert Text.Strip(id)[0] == id[lo];
    }
  }

  function Apply(rt: Runtime, op: Op): Effect {
    match op
    case SaveRecord(id, payload, fault) =>
      Learn(rt, id, Saved(rt.rows, id, CachedOr(rt, id, -1) + 1, payload, fault))
    case Bookkeep(id, patch, fault) =>
      if id !in rt.cache then Effect(rt, Ok(()))
      else Learn(rt, id, Updated(rt.rows, id, rt.cache[id], patch, fault))
    case Sync(id, accepted, fault, rereadFails) =>
      if Blank(id) then Effect(rt, Err(Unavailable))
      else if accepted then Effect(rt, Ok(()))
      else
        var reply := Marked(rt.rows, id, fault);
        if reply.answer.Err? || rereadFails then Effect(Runtime(reply.rows, rt.cache), Err(Unavailable))
        else Effect(Runtime(reply.rows, rt.cache[id := reply.rows[id].revision]), Err(Unavailable))
  }

  function Run(rt: Runtime, ops: seq<Op>): Runtime {
    if ops == [] then rt else Apply(Run(rt, ops[..|ops| - 1]), ops[|ops| - 1]).rt
  }

  const EMPTY := Runtime(map[], map[])

  /** The cache holds exactly the stored revisions. */
  ghost predicate Coherent(rt: Runtime) {
    rt.cache.Keys == rt.rows.Keys && forall id :: id in rt.rows ==> rt.cache[id] == rt.rows[id].revision
  }

  /** The database failed between the commit and the read the cache would have learned from. */
  predicate LateFault(op: Op) { op.fault.AfterCommit? || (op.Sync? && op.rereadFails && !op.fault.BeforeCommit?) }

  /** The call gets as far as committing, were it not for an early fault. */
  predicate Commits(rt: Runtime, op: Op) {
    op.SaveRecord? || (op.Bookkeep? && op.id in rt.cache) ||
        (op.Sync? && !op.accepted && !Blank(op.id) && op.id in rt.rows)
  }

  /** From a coherent state, a call keeps the cache in step with the table exactly when no fault
      separates its commit from the read that follows. */
  lemma CoherentIff(rt: Runtime, op: Op)
    requires Coherent(rt)
    ensures Coherent(Apply(rt, op).rt) <==> !(LateFault(op) && Commits(rt, op))
  {
    var rt' := Apply(rt, op).rt;
    if op.id in rt'.rows && op.id in rt'.cache {
      assert Coherent(rt') ==> rt'.cache[op.id] == rt'.rows[op.id].revision;
    }
  }

  /** With one writer and no late fault no revision conflict is raised; a failed call changes
      nothing, unless it is a failed sync marking its record; a successful one never lowers a
      revision and raises that of the record it writes by one. */
  lemma CallIsClean(rt: Runtime, op: Op)
    requires Coherent(rt) && !LateFault(op)
    ensures var e := Apply(rt, op);
            (e.answer.Err? ==> e.answer.error !in {StaleRevision, RevisionConflict, AlreadyThere}) &&
            (e.answer.Err? && !op.Sync? ==> e.rt == rt) &&
            (forall id :: id in rt.rows && id != op.id ==> id in e.rt.rows && e.rt.rows[id] == rt.rows[id]) &&
            (op.id in rt.rows ==> op.id in e.rt.rows && rt.rows[op.id].revision <= e.rt.rows[op.id].revision) &&
            (op.SaveRecord? && e.answer.Ok? ==>
               op.id in e.rt.rows &&
               e.rt.rows[op.id] == Row((if op.id in rt.rows then rt.rows[op.id].revision else -1) + 1, op.payload)) &&
            (op.Bookkeep? && e.answer.Ok? && op.id in rt.rows ==>
               e.rt.rows[op.id] == Row(rt.rows[op.id].revision + 1, rt.rows[op.id].payload + op.patch)) &&
            (op.Sync? && !op.accepted && !Blank(op.id) && op.id in rt.rows && op.fault.NoFault? ==>
               e.rt.rows[op.id] == Row(rt.rows[op.id].revision + 1, rt.rows[op.id].payload + UNSYNCED))
  {
    if op.Sync? && op.id in rt.rows {
      assert rt.rows[op.id].payload + (rt.rows[op.id].payload + UNSYNCED) == rt.rows[op.id].payload + UNSYNCED;
    }
  }

  /** Starting with both empty, the cache agrees with the store after every run without late faults. */
  lemma {:induction false} CacheAgrees(ops: seq<Op>)
    requires forall i :: 0 <= i < |ops| ==> !LateFault(ops[i])
    ensures Coherent(Run(EMPTY, ops))
    decreases |ops|
  {
    if ops != [] {
      CacheAgrees(ops[..|ops| - 1]);
      CoherentIff(Run(EMPTY, ops[..|ops| - 1]), ops[|ops| - 1]);
    }
  }

  /** In such a run no call ever fails on a revision, and each successful save or bookkeeping
      call raises the stored revision of its record. */
  lemma NoConflictEver(ops: seq<Op>, op: Op)
    requires forall i :: 0 <= i < |ops| ==> !LateFault(ops[i])
    requires !LateFault(op) && !op.Sync?
    ensures var rt := Run(EMPTY, ops);
            var e := Apply(rt, op);
            (e.answer.Err? ==> e.answer.error == Unavailable && e.rt == rt) &&
            (e.answer.Ok? && op.id in rt.rows ==>
               op.id in e.rt.rows && e.rt.rows[op.id].revision == rt.rows[op.id].revision + 1)
  {
    CacheAgrees(ops);
    CallIsClean(Run(EMPTY, ops), op);
  }

  /** The cache lags behind the stored revision of `id`. */
  predicate Lags(rt: Runtime, id: string) {
    id in rt.rows && CachedOr(rt, id, -1) < rt.rows[id].revision
  }

  /** Once the cache lags, no save or bookkeeping call writes the record again, until a failed
      sync reads its revision back. */
  lemma {:induction false} LaggingIsStuck(rt: Runtime, ops: seq<Op>, id: string)
    requires Lags(rt, id)
    requires forall i :: 0 <= i < |ops| ==> ops[i].Sync? ==> ops[i].id != id
    ensures var end := Run(rt, ops);
            Lags(end, id) && end.rows[id] == rt.rows[id] && (id in end.cache <==> id in rt.cache)
    decreases |ops|
  {
    if ops != [] {
      LaggingIsStuck(rt, ops[..|ops| - 1], id);
      StuckStep(Run(rt, ops[..|ops| - 1]), ops[|ops| - 1], id);
    }
  }

  lemma StuckStep(rt: Runtime, op: Op, id: string)
    requires Lags(rt, id) && (op.Sync? ==> op.id != id)
    ensures var e := Apply(rt, op).rt;
            Lags(e, id) && e.rows[id] == rt.rows[id] && (id in e.cache <==> id in rt.cache)
  {
  }

  lemma LateFaultLags(rt: Runtime, op: Op)
    requires Coherent(rt) && LateFault(op) && Commits(rt, op)
    requires forall id :: id in rt.rows ==> rt.rows[id].revision >= 0
    ensures Lags(Apply(rt, op).rt, op.id)
    ensures !Coherent(Apply(rt, op).rt)
  {
    CoherentIff(rt, op);
  }

  /** A failed sync that marks its record frees a lagging cache: the next save goes through. */
  lemma FailedSyncUnsticks(rt: Runtime, id: string, payload: Payload)
    requires Lags(rt, id) && !Blank(id)
    ensures var marked := Apply(rt, Sync(id, false, NoFault, false)).rt;
            var saved := Apply(marked, SaveRecord(id, payload, NoFault));
            !Lags(marked, id) && saved.answer.Ok? && id in saved.rt.rows &&
            saved.rt.rows[id] == Row(rt.rows[id].revision + 2, payload)
  {
  }

  /** The closures of the composed runtime, updating the shared dictionary. */
  class Closures {
    const store: Adapter
    var recordRevisions: map<string, int>

    constructor (store: Adapter)
      ensures this.store == store && recordRevisions == map[]
    {
      this.store := store;
      recordRevisions := map[];
    }

    function View(): Runtime
      reads this, store
    {
      Runtime(store.rows, recordRevisions)
    }

    method SaveRecord(id: string, payload: Payload, fault: Fault) returns (ok: bool)
      modifies this, store
      ensures var e := Apply(old(View()), Op.SaveRecord(id, payload, fault)); View() == e.rt && ok == e.answer.Ok?
      ensures var next := if id in old(recordRevisions) then old(recordRevisions)[id] + 1 else 0;
              (ok <==> fault.NoFault? && (id in old(store.rows) ==> old(store.rows)[id].revision < next)) &&
              (ok ==> store.rows == old(store.rows)[id := Row(next, payload)]) &&
              recordRevisions == if ok then old(recordRevisions)[id := next] else old(recordRevisions)
    {
      var next := (if id in recordRevisions then recordRevisions[id] else -1) + 1;
      var answer := store.Save(id, next, payload, fault);
      if answer.Ok? {
        recordRevisions := recordRevisions[id := answer.value.revision];
      }
      ok := answer.Ok?;
    }

    method UpdateBookkeeping(id: string, patch: Payload, fault: Fault) returns (ok: bool)
      modifies this, store
      ensures var e := Apply(old(View()), Bookkeep(id, patch, fault)); View() == e.rt && ok == e.answer.Ok?
      ensures id !in old(recordRevisions) ==> ok && View() == old(View())
      ensures id in old(recordRevisions) ==>
                (ok <==> fault.NoFault? && id in old(store.rows) &&
                         old(store.rows)[id].revision == old(recordRevisions)[id]) &&
                recordRevisions == if ok then old(recordRevisions)[id := old(recordRevisions)[id] + 1]
                                   else old(recordRevisions)
    {
      if id !in recordRevisions {
        return true;
      }
      var answer := store.Update(id, recordRevisions[id], patch, fault);
      if answer.Ok? {
        recordRevisions := recordRevisions[id := answer.value.revision];
      }
      ok := answer.Ok?;
    }

    method TriggerSync(id: string, accepted: bool, fault: Fault, rereadFails: bool) returns (ok: bool)
      modifies this, store
      ensures var e := Apply(old(View()), Sync(id, accepted, fault, rereadFails)); View() == e.rt && ok == e.answer.Ok?
      ensures ok <==> accepted && exists i :: 0 <= i < |id| && !Text.IsSpace(id[i])
      ensures ok || (forall i :: 0 <= i < |id| ==> Text.IsSpace(id[i])) ==> View() == old(View())
    {
      BlankIff(id);
      if Blank(id) {
        return false;
      }
      if accepted {
        return true;
      }
      var answer := store.MarkUnsynced(id, fault);
      if answer.Ok? && !rereadFails && id in store.rows {
        recordRevisions := recordRevisions[id := store.rows[id].revision];
      }
      ok := false;
    }
  }
}
