/** The records table and its adapter, one caller at a time. */
module RecordStore {
  import opened Wrappers

  type Payload = map<string, string>

  /** One row; the time stamp column is not modelled. */
  datatype Row = Row(revision: int, payload: Payload)

  type Table = map<string, Row>

  datatype StoreError = NotFound | AlreadyThere | StaleRevision | RevisionConflict | Unavailable

  /** Where the database may fail during a call: not at all, before the transaction commits, or
      on the read that follows the commit. */
  datatype Fault = NoFault | BeforeCommit | AfterCommit

  const UNSYNCED: Payload := map["sync_status" := "unsynced"]

  /** What a call did to the table and what it answered. */
  datatype Reply = Reply(rows: Table, answer: Result<Row, StoreError>)

  function Commit(rows: Table, id: string, row: Row, fault: Fault): Reply {
    match fault
    case BeforeCommit => Reply(rows, Err(Unavailable))
    case AfterCommit => Reply(rows[id := row], Err(Unavailable))
    case NoFault => Reply(rows[id := row], Ok(row))
  }

  function Created(rows: Table, id: string, revision: int, payload: Payload, fault: Fault): Reply {
    if id in rows then Reply(rows, Err(if fault.BeforeCommit? then Unavailable else AlreadyThere))
    else Commit(rows, id, Row(revision, payload), fault)
  }

  function Saved(rows: Table, id: string, revision: int, payload: Payload, fault: Fault): Reply {
    if id !in rows then Created(rows, id, revision, payload, fault)
    else if revision <= rows[id].revision then Reply(rows, Err(StaleRevision))
    else Commit(rows, id, Row(revision, payload), fault)
  }

  function Updated(rows: Table, id: string, expected: int, patch: Payload, fault: Fault): Reply {
    if id !in rows then Reply(rows, Err(NotFound))
    else if expected != rows[id].revision then Reply(rows, Err(RevisionConflict))
    else Commit(rows, id, Row(rows[id].revision + 1, rows[id].payload + patch), fault)
  }

  function Marked(rows: Table, id: string, fault: Fault): Reply {
    if id !in rows then Reply(rows, Err(NotFound))
    else Updated(rows, id, rows[id].revision, rows[id].payload + UNSYNCED, fault)
  }

  /** Key by key, the patch where it has an entry and the old payload elsewhere. */
  ghost predicate Patched(before: Payload, patch: Payload, after: Payload) {
    (forall k :: k in after <==> k in before || k in patch) &&
    (forall k :: k in after ==> after[k] == if k in patch then patch[k] else before[k])
  }

  class Adapter {
    var rows: Table

    constructor ()
      ensures rows == map[]
    {
      rows := map[];
    }

    /** The transaction every writing call ends in: commit, then read the row back. */
    method WriteBack(id: string, row: Row, fault: Fault) returns (answer: Result<Row, StoreError>)
      modifies this
      ensures Reply(rows, answer) == Commit(old(rows), id, row, fault)
    {
      if fault.BeforeCommit? {
        return Err(Unavailable);
      }
      rows := rows[id := row];
      if fault.AfterCommit? {
        return Err(Unavailable);
      }
      return Ok(rows[id]);
    }

    method Create(id: string, revision: int, payload: Payload, fault: Fault) returns (answer: Result<Row, StoreError>)
      modifies this
      ensures Reply(rows, answer) == Created(old(rows), id, revision, payload, fault)
      ensures id in old(rows) ==> rows == old(rows) && answer.Err? && (fault.NoFault? ==> answer.error == AlreadyThere)
      ensures id !in old(rows) && fault.NoFault? ==> answer.Ok? && rows == old(rows)[id := Row(revision, payload)]
    {
      if id in rows {
        return Err(if fault.BeforeCommit? then Unavailable else AlreadyThere);
      }
      answer := WriteBack(id, Row(revision, payload), fault);
    }

    method Save(id: string, revision: int, payload: Payload, fault: Fault) returns (answer: Result<Row, StoreError>)
      modifies this
      ensures Reply(rows, answer) == Saved(old(rows), id, revision, payload, fault)
      ensures rows == old(rows) || rows == old(rows)[id := Row(revision, payload)]
      ensures answer.Ok? <==> fault.NoFault? && (id in old(rows) ==> old(rows)[id].revision < revision)
      ensures answer.Ok? ==> id in rows && rows[id] == Row(revision, payload)
      ensures answer == Err(StaleRevision) <==> id in old(rows) && revision <= old(rows)[id].revision
    {
      if id !in rows {
        answer := Create(id, revision, payload, fault);
        return;
      }
      if revision <= rows[id].revision {
        return Err(StaleRevision);
      }
      answer := WriteBack(id, Row(revision, payload), fault);
    }

    method Update(id: string, expected: int, patch: Payload, fault: Fault) returns (answer: Result<Row, StoreError>)
      modifies this
      ensures Reply(rows, answer) == Updated(old(rows), id, expected, patch, fault)
      ensures answer.Ok? <==> fault.NoFault? && id in old(rows) && old(rows)[id].revision == expected
      ensures answer == Err(NotFound) <==> id !in old(rows)
      ensures answer == Err(RevisionConflict) <==> id in old(rows) && old(rows)[id].revision != expected
      ensures answer.Ok? ==>
                id in rows && rows[id].revision == expected + 1 &&
                Patched(old(rows)[id].payload, patch, rows[id].payload)
      ensures forall other :: other != id ==>
                (other in rows <==> other in old(rows)) && (other in rows ==> rows[other] == old(rows)[other])
    {
      if id !in rows {
        return Err(NotFound);
      }
      var current := rows[id];
      if expected != current.revision {
        return Err(RevisionConflict);
      }
      answer := WriteBack(id, Row(current.revision + 1, current.payload + patch), fault);
    }

    method MarkUnsynced(id: string, fault: Fault) returns (answer: Result<Row, StoreError>)
      modifies this
      ensures Reply(rows, answer) == Marked(old(rows), id, fault)
      ensures answer.Ok? <==> fault.NoFault? && id in old(rows)
      ensures answer == Err(NotFound) <==> id !in old(rows)
      ensures answer.Ok? ==>
                id in rows && rows[id].revision == old(rows)[id].revision + 1 &&
                Patched(old(rows)[id].payload, map["sync_status" := "unsynced"], rows[id].payload)
    {
      if id !in rows {
        return Err(NotFound);
      }
      var current := rows[id];
      answer := Update(id, current.revision, current.payload + UNSYNCED, fault);
    }
  }
}
