/** The dispatcher `process_algorithm`: one record per invocation, tracked through the record store. */
module AlgorithmService {
  import opened Wrappers
  import opened Errors
  import opened Payloads
  import opened FibonacciRoutine
  import opened PrimeCheckRoutine
  import opened SortingRoutine
  import opened MatrixRoutine
  import opened RecordStore

  /** What the routine chosen by `algorithmType` produces for `input`; any other name is a ValueError. */
  function Routine(algorithmType: string, input: Input): (r: Result<Output, Error>)
    ensures ParseAlgorithmType(algorithmType).None? ==>
      r == Err(ValueError(UnknownTypePrefix + algorithmType))
  {
    if algorithmType == "fibonacci" then FibonacciOutcome(input)
    else if algorithmType == "prime_check" then PrimeCheckOutcome(input)
    else if algorithmType == "sorting" then Ok(SortingAlgorithm(input))
    else if algorithmType == "matrix_multiply" then MatrixMultiplyOutcome(input)
    else Err(ValueError(UnknownTypePrefix + algorithmType))
  }

  const UnknownTypePrefix := "Unknown algorithm type: "

  /** The unknown-type error is raised for exactly the names that are not algorithm types. */
  lemma UnknownTypeExactly(algorithmType: string, input: Input)
    ensures Routine(algorithmType, input) == Err(ValueError(UnknownTypePrefix + algorithmType))
        <==> ParseAlgorithmType(algorithmType).None?
  {
    // Every error message of the four routines has a different length from the unknown-type message.
    var unknown := UnknownTypePrefix + algorithmType;
    if algorithmType == "fibonacci" {
      var r := FibonacciOutcome(input);
      assert r.Err? ==> |r.error.message| == 22 < |unknown|;
    } else if algorithmType == "prime_check" {
      var r := PrimeCheckOutcome(input);
      assert r.Err? ==> |r.error.message| == 18 < |unknown|;
    } else if algorithmType == "matrix_multiply" {
      var r := MatrixMultiplyOutcome(input);
      var a, b := input.matrixA.GetOr([]), input.matrixB.GetOr([]);
      if |a| == 0 || |b| == 0 {
        assert |r.error.message| == 26 < |unknown|;
      } else if |a[0]| != |b| {
        assert |r.error.message| == 53 > |unknown|;
      }
    }
  }

  /** The dictionary `process_algorithm` returns on success. */
  datatype Response = Response(requestId: Id, algorithmType: string, result: Output, processingTime: string, status: string)

  /** `Exception(f"Algorithm processing failed: {str(e)}")`. */
  function Wrapped(e: Error): Error {
    ProcessingError(WrapPrefix + Str(e))
  }

  const WrapPrefix := "Algorithm processing failed: "

  /** The record is marked failed with `str(cause)`; the call raises the wrapped cause, or the update's own exception. */
  predicate MarkedFailed(calls: seq<Call>, id: Id, cause: Error, r: Result<Response, Error>, failedAt: Timestamp) {
    && |calls| == 1
    && calls[0].UpdateCall?
    && calls[0].id == id
    && calls[0].patch == Failure(Str(cause), failedAt)
    && r == Err(if calls[0].failure.Some? then calls[0].failure.value else Wrapped(cause))
  }

  /**
   * The store calls after the record `id` was created. The routine's result is
   * written as a completion; a routine error, or a failed completion write, is
   * written as a failure instead.
   */
  predicate Settled(calls: seq<Call>, id: Id, r: Result<Response, Error>, algorithmType: string,
                    routine: Result<Output, Error>, completedAt: Timestamp, failedAt: Timestamp)
  {
    match routine
    case Ok(out) =>
      && |calls| >= 1
      && calls[0].UpdateCall?
      && calls[0].id == id
      && calls[0].patch == Completion(out, completedAt)
      && (match calls[0].failure
          case None => |calls| == 1 && r == Ok(Response(id, algorithmType, out, "calculated", "completed"))
          case Some(e) => MarkedFailed(calls[1..], id, e, r, failedAt))
    case Err(e) => MarkedFailed(calls, id, e, r, failedAt)
  }

  /**
   * The store calls of one invocation and its result. First a create with status
   * "processing". If it raised, or answered without a row, nothing else is called;
   * otherwise the record is settled.
   */
  predicate Lifecycle(calls: seq<Call>, r: Result<Response, Error>, algorithmType: string,
                      routine: Result<Output, Error>, fields: NewRow, completedAt: Timestamp, failedAt: Timestamp)
  {
    && |calls| >= 1
    && calls[0].CreateCall?
    && calls[0].fields == fields
    && match calls[0].outcome
       case Err(e) => |calls| == 1 && r == Err(Wrapped(e))
       case Ok(None) => |calls| == 1 && r == Err(KeyError("id"))
       case Ok(Some(id)) => Settled(calls[1..], id, r, algorithmType, routine, completedAt, failedAt)
  }

  /** The if/elif chain of `process_algorithm` that runs the chosen routine. */
  method RunRoutine(algorithmType: string, input: Input) returns (outcome: Result<Output, Error>)
    ensures outcome == Routine(algorithmType, input)
  {
    if algorithmType == "fibonacci" {
      outcome := FibonacciAlgorithm(input);
    } else if algorithmType == "prime_check" {
      outcome := PrimeCheckAlgorithm(input);
    } else if algorithmType == "sorting" {
      outcome := Ok(SortingAlgorithm(input));
    } else if algorithmType == "matrix_multiply" {
      outcome := MatrixMultiplyAlgorithm(input);
    } else {
      outcome := Err(ValueError(UnknownTypePrefix + algorithmType));
    }
  }

  /** The except block: write the failure, then raise the wrapped cause, or the update's own exception. */
  method RecordFailure(store: Store, id: Id, cause: Error, failedAt: Timestamp)
    returns (r: Result<Response, Error>, ghost calls: seq<Call>)
    requires store.Valid()
    modifies store
    ensures store.Valid()
    ensures store.log == old(store.log) + calls
    ensures MarkedFailed(calls, id, cause, r, failedAt)
    ensures store.rows == Replay(old(store.rows), calls)
  {
    ghost var rows0 := store.rows;
    var marking := store.UpdateRecord(id, Failure(Str(cause), failedAt));
    calls := [UpdateCall(id, Failure(Str(cause), failedAt), marking)];
    assert Replay(rows0, calls) == Replay(Effect(rows0, calls[0]), []);
    if marking.Some? {
      r := Err(marking.value);
    } else {
      r := Err(Wrapped(cause));
    }
  }

  /** Everything `process_algorithm` does once the record `id` exists. */
  method Settle(store: Store, id: Id, algorithmType: string, outcome: Result<Output, Error>,
                completedAt: Timestamp, failedAt: Timestamp)
    returns (r: Result<Response, Error>, ghost calls: seq<Call>)
    requires store.Valid()
    modifies store
    ensures store.Valid()
    ensures store.log == old(store.log) + calls
    ensures Settled(calls, id, r, algorithmType, outcome, completedAt, failedAt)
    ensures store.rows == Replay(old(store.rows), calls)
  {
    if outcome.Err? {
      r, calls := RecordFailure(store, id, outcome.error, failedAt);
      return;
    }
    ghost var log0, rows0 := store.log, store.rows;
    var completion := store.UpdateRecord(id, Completion(outcome.value, completedAt));
    ghost var call := UpdateCall(id, Completion(outcome.value, completedAt), completion);
    assert Replay(rows0, [call]) == Replay(Effect(rows0, call), []);
    if completion.None? {
      r, calls := Ok(Response(id, algorithmType, outcome.value, "calculated", "completed")), [call];
      return;
    }
    ghost var marking;
    r, marking := RecordFailure(store, id, completion.value, failedAt);
    calls := [call] + marking;
    assert calls[0] == call && calls[1..] == marking;
    ReplayConcat(rows0, [call], marking);
  }

  /** `process_algorithm`, with its clock readings passed in: at creation, at completion and at failure. */
  method ProcessAlgorithm(store: Store, algorithmType: string, input: Input, userId: string,
                          startedAt: Timestamp, completedAt: Timestamp, failedAt: Timestamp)
    returns (r: Result<Response, Error>)
    requires store.Valid()
    modifies store
    ensures store.Valid()
    ensures |store.log| > |old(store.log)| && store.log[..|old(store.log)|] == old(store.log)
    ensures Lifecycle(store.log[|old(store.log)|..], r, algorithmType, Routine(algorithmType, input),
                      NewRow(userId, algorithmType, input, "processing", startedAt), completedAt, failedAt)
    ensures store.rows == Replay(old(store.rows), store.log[|old(store.log)|..])
    ensures StoreFailuresOnly(store.log[|old(store.log)|..])
    ensures store.log[|old(store.log)|].outcome.Ok? && store.log[|old(store.log)|].outcome.value.Some? ==>
      store.log[|old(store.log)|].outcome.value.value !in old(store.rows)
  {
    ghost var log0, rows0 := store.log, store.rows;
    var fields := NewRow(userId, algorithmType, input, "processing", startedAt);
    var created := store.CreateRecord(fields);
    ghost var call := CreateCall(fields, created);
    ghost var calls := [call];
    assert Replay(rows0, [call]) == Replay(Effect(rows0, call), []);
    if created.Err? {
      r := Err(Wrapped(created.error));
    } else {
      var outcome := RunRoutine(algorithmType, input);
      if created.value.None? {
        r := Err(KeyError("id"));
      } else {
        ghost var rest;
        r, rest := Settle(store, created.value.value, algorithmType, outcome, completedAt, failedAt);
        calls := [call] + rest;
        assert calls[0] == call && calls[1..] == rest;
        ReplayConcat(rows0, [call], rest);
      }
    }
    assert store.log == log0 + calls;
    assert store.log[|log0|..] == calls && store.log[..|log0|] == log0;
    FailuresSuffix(store.log, |log0|);
  }

  /**
   * Where the created record ends up: "completed" with the result exactly when the
   * call succeeds, "failed" with the cause exactly when the call raises the wrapped
   * error, and still "processing" when writing the failure itself failed.
   */
  lemma FinalRecord(rows: map<Id, Row>, calls: seq<Call>, r: Result<Response, Error>, algorithmType: string,
                    routine: Result<Output, Error>, fields: NewRow, completedAt: Timestamp, failedAt: Timestamp, id: Id)
    requires Lifecycle(calls, r, algorithmType, routine, fields, completedAt, failedAt)
    requires calls[0].outcome == Ok(Some(id)) && fields.status == "processing"
    requires StoreFailuresOnly(calls)
    ensures id in Replay(rows, calls)
    ensures var row := Replay(rows, calls)[id];
      && row.id == id && row.userId == fields.userId && row.algorithmType == fields.algorithmType
      && row.inputData == fields.inputData && row.createdAt == fields.createdAt
      && (r.Ok? <==> row.status == "completed")
      && (r.Ok? ==> r.value.requestId == id && r.value.status == "completed" &&
                    row.result == Some(r.value.result) && row.completedAt == Some(completedAt))
      && (r.Err? && r.error.ProcessingError? <==> row.status == "failed")
      && (row.status == "failed" ==>
            row.error.Some? && r.error.message == WrapPrefix + row.error.value && row.completedAt == Some(failedAt))
      && (r.Err? && r.error.StoreError? <==> row.status == "processing")
  {
    var created := Effect(rows, calls[0]);
    assert created[id] == Inserted(id, fields);
    assert Replay(rows, calls) == Replay(created, calls[1..]);
    var rest := calls[1..];
    var patched := Effect(created, rest[0]);
    assert Replay(created, rest) == Replay(patched, rest[1..]);
    if |rest| == 2 {
      assert Replay(patched, rest[1..]) == Replay(Effect(patched, rest[1]), rest[1..][1..]);
      assert rest[1..][1..] == [];
    } else {
      assert rest[1..] == [];
    }
  }
}
