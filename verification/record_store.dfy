/**
 * The record store behind the dispatcher: the `algorithm_requests` table as a map
 * from id to row, reached through create and update calls that may fail.
 * Whether a call fails, and with what cause, is up to the environment.
 */
module RecordStore {
  import opened Wrappers
  import opened Errors
  import opened Payloads

  type Id = nat

  /** An opaque clock reading (`datetime.utcnow()`). */
  type Timestamp = int

  /** The fields `process_algorithm` inserts. */
  datatype NewRow = NewRow(userId: string, algorithmType: string, inputData: Input, status: string, createdAt: Timestamp)

  /** One row of the table. */
  datatype Row = Row(
    id: Id,
    userId: string,
    algorithmType: string,
    inputData: Input,
    status: string,
    result: Option<Output>,
    error: Option<string>,
    createdAt: Timestamp,
    completedAt: Option<Timestamp>)

  /** The fields one update writes: the completion fields or the failure fields. */
  datatype Patch =
    | Completion(result: Output, completedAt: Timestamp)
    | Failure(error: string, completedAt: Timestamp)

  function Inserted(id: Id, fields: NewRow): Row {
    Row(id, fields.userId, fields.algorithmType, fields.inputData, fields.status, None, None, fields.createdAt, None)
  }

  /** An update overwrites exactly the fields its patch names. */
  function Patched(row: Row, patch: Patch): (r: Row)
    ensures r.id == row.id && r.userId == row.userId && r.algorithmType == row.algorithmType
    ensures r.inputData == row.inputData && r.createdAt == row.createdAt
    ensures r.completedAt == Some(patch.completedAt)
    ensures patch.Completion? ==> r.status == "completed" && r.result == Some(patch.result) && r.error == row.error
    ensures patch.Failure? ==> r.status == "failed" && r.error == Some(patch.error) && r.result == row.result
  {
    match patch
    case Completion(result, at) => row.(result := Some(result), status := "completed", completedAt := Some(at))
    case Failure(error, at) => row.(status := "failed", error := Some(error), completedAt := Some(at))
  }

  /**
   * One call made on the store and what came back: a create answers with the new
   * record's id, with an empty response (`{}`), or with an exception; an update
   * answers with nothing or with an exception.
   */
  datatype Call =
    | CreateCall(fields: NewRow, outcome: Result<Option<Id>, Error>)
    | UpdateCall(id: Id, patch: Patch, failure: Option<Error>)

  /** What one call does to the table. An update of an id with no row matches nothing. */
  function Effect(rows: map<Id, Row>, call: Call): map<Id, Row> {
    match call
    case CreateCall(fields, Ok(Some(id))) => rows[id := Inserted(id, fields)]
    case CreateCall(_, _) => rows
    case UpdateCall(id, patch, None) => if id in rows then rows[id := Patched(rows[id], patch)] else rows
    case UpdateCall(_, _, Some(_)) => rows
  }

  /** The table after a sequence of calls. */
  function Replay(rows: map<Id, Row>, calls: seq<Call>): map<Id, Row>
    decreases |calls|
  {
    if calls == [] then rows else Replay(Effect(rows, calls[0]), calls[1..])
  }

  /** Replaying two runs of calls one after the other is replaying their concatenation. */
  lemma {:induction false} ReplayConcat(rows: map<Id, Row>, first: seq<Call>, second: seq<Call>)
    ensures Replay(rows, first + second) == Replay(Replay(rows, first), second)
    decreases |first|
  {
    if first == [] {
      assert first + second == second;
    } else {
      assert (first + second)[0] == first[0];
      assert (first + second)[1..] == first[1..] + second;
      ReplayConcat(Effect(rows, first[0]), first[1..], second);
    }
  }

  /** The store wrapper raises `Exception("Failed to ...")`, a StoreError, on every failure. */
  predicate StoreFailuresOnly(calls: seq<Call>) {
    forall k :: 0 <= k < |calls| ==>
      match calls[k]
      case CreateCall(_, outcome) => outcome.Err? ==> outcome.error.StoreError?
      case UpdateCall(_, _, failure) => failure.Some? ==> failure.value.StoreError?
  }

  /** Every run of calls taken from the end of a log of store failures is one too. */
  lemma FailuresSuffix(log: seq<Call>, k: nat)
    requires StoreFailuresOnly(log) && k <= |log|
    ensures StoreFailuresOnly(log[k..])
  {
    forall i | 0 <= i < |log| - k ensures log[k..][i] == log[k + i] {
    }
  }

  class Store {
    var rows: map<Id, Row>
    var nextId: Id
    /** Every call made so far, in order, with its outcome. */
    var log: seq<Call>

    ghost predicate Valid()
      reads this
    {
      && (forall id :: id in rows ==> id < nextId && rows[id].id == id)
      && StoreFailuresOnly(log)
    }

    constructor ()
      ensures Valid() && rows == map[] && log == []
    {
      rows := map[];
      nextId := 0;
      log := [];
    }

    /** `create_record`: insert a row and return it, or return `{}`, or raise. */
    method CreateRecord(fields: NewRow) returns (r: Result<Option<Id>, Error>)
      requires Valid()
      modifies this
      ensures Valid()
      ensures log == old(log) + [CreateCall(fields, r)]
      ensures rows == Effect(old(rows), CreateCall(fields, r))
      ensures r.Ok? && r.value.Some? ==> r.value.value !in old(rows)
      ensures r.Err? ==> r.error.StoreError? && CreateFailedPrefix <= r.error.message
    {
      var answer: nat := *;
      if answer == 0 {
        var id := nextId;
        rows := rows[id := Inserted(id, fields)];
        nextId := nextId + 1;
        r := Ok(Some(id));
      } else if answer == 1 {
        r := Ok(None);
      } else {
        var cause: string := *;
        r := Err(StoreError(CreateFailedPrefix + cause));
      }
      log := log + [CreateCall(fields, r)];
    }

    /** `update_record`: write the patch's fields into the row with this id, or raise. */
    method UpdateRecord(id: Id, patch: Patch) returns (failure: Option<Error>)
      requires Valid()
      modifies this
      ensures Valid()
      ensures log == old(log) + [UpdateCall(id, patch, failure)]
      ensures rows == Effect(old(rows), UpdateCall(id, patch, failure))
      ensures failure.Some? ==> failure.value.StoreError? && UpdateFailedPrefix <= failure.value.message
    {
      var succeeds: bool := *;
      if succeeds {
        if id in rows {
          rows := rows[id := Patched(rows[id], patch)];
        }
        failure := None;
      } else {
        var cause: string := *;
        failure := Some(StoreError(UpdateFailedPrefix + cause));
      }
      log := log + [UpdateCall(id, patch, failure)];
    }
  }

  const CreateFailedPrefix := "Failed to create record: "
  const UpdateFailedPrefix := "Failed to update record: "
}
