/** The status enum and the in-memory request record with its three mutators. */
module AlgorithmModel {
  import opened Wrappers
  import opened Payloads
  import opened RecordStore

  /** `AlgorithmStatus`, a string enum. */
  datatype AlgorithmStatus = Pending | Processing | Completed | Failed {
    /** The enum member's string value. */
    function Value(): (v: string)
      ensures |v| > 0
    {
      match this
      case Pending => "pending"
      case Processing => "processing"
      case Completed => "completed"
      case Failed => "failed"
    }
  }

  /** `AlgorithmStatus(s)`: the member whose value is `s`, if any. */
  function ParseStatus(s: string): (r: Option<AlgorithmStatus>)
    ensures r.Some? ==> r.value.Value() == s
  {
    if s == "pending" then Some(Pending)
    else if s == "processing" then Some(Processing)
    else if s == "completed" then Some(Completed)
    else if s == "failed" then Some(Failed)
    else None
  }

  /** Rendering a status and reading it back gives the same status. */
  lemma ParseValue(status: AlgorithmStatus)
    ensures ParseStatus(status.Value()) == Some(status)
  {
  }

  /** Distinct statuses render as distinct strings. */
  lemma ValueInjective(s1: AlgorithmStatus, s2: AlgorithmStatus)
    requires s1.Value() == s2.Value()
    ensures s1 == s2
  {
    ParseValue(s1);
    ParseValue(s2);
  }

  /** The dictionary `to_dict` returns. */
  datatype RequestDict = RequestDict(
    id: string,
    userId: string,
    algorithmType: string,
    inputData: Input,
    status: string,
    result: Option<Output>,
    error: Option<string>,
    createdAt: Timestamp,
    completedAt: Option<Timestamp>)

  /** `AlgorithmRequest`; the clock reading `datetime.utcnow()` is passed in as `now`. */
  class AlgorithmRequest {
    var id: string
    var userId: string
    var algorithmType: string
    var inputData: Input
    var status: AlgorithmStatus
    var result: Option<Output>
    var error: Option<string>
    var createdAt: Timestamp
    var completedAt: Option<Timestamp>

    /** A missing `created_at` is the current time; every other field is taken as given, with its default. */
    constructor(id: string, userId: string, algorithmType: string, inputData: Input, now: Timestamp,
                status: AlgorithmStatus := Pending, result: Option<Output> := None, error: Option<string> := None,
                createdAt: Option<Timestamp> := None, completedAt: Option<Timestamp> := None)
      ensures this.id == id && this.userId == userId && this.algorithmType == algorithmType
      ensures this.inputData == inputData
      ensures this.status == status && this.result == result && this.error == error
      ensures this.createdAt == createdAt.GetOr(now) && this.completedAt == completedAt
    {
      this.id := id;
      this.userId := userId;
      this.algorithmType := algorithmType;
      this.inputData := inputData;
      this.status := status;
      this.result := result;
      this.error := error;
      this.createdAt := createdAt.GetOr(now);
      this.completedAt := completedAt;
    }

    /** Sets the status to processing, whatever it was. */
    method MarkProcessing()
      modifies this`status
      ensures status == Processing
      ensures result == old(result) && error == old(error) && completedAt == old(completedAt)
      ensures id == old(id) && userId == old(userId) && algorithmType == old(algorithmType)
      ensures inputData == old(inputData) && createdAt == old(createdAt)
    {
      status := Processing;
    }

    /** Sets status, result and completion time; the error is left as it was. */
    method MarkCompleted(result: Output, now: Timestamp)
      modifies this`status, this`result, this`completedAt
      ensures status == Completed && this.result == Some(result) && completedAt == Some(now)
      ensures error == old(error)
      ensures id == old(id) && userId == old(userId) && algorithmType == old(algorithmType)
      ensures inputData == old(inputData) && createdAt == old(createdAt)
    {
      status := Completed;
      this.result := Some(result);
      completedAt := Some(now);
    }

    /** Sets status, error and completion time; the result is left as it was. */
    method MarkFailed(error: string, now: Timestamp)
      modifies this`status, this`error, this`completedAt
      ensures status == Failed && this.error == Some(error) && completedAt == Some(now)
      ensures result == old(result)
      ensures id == old(id) && userId == old(userId) && algorithmType == old(algorithmType)
      ensures inputData == old(inputData) && createdAt == old(createdAt)
    {
      status := Failed;
      this.error := Some(error);
      completedAt := Some(now);
    }

    /** Every field as it is, the status as its string value (which reads back as the same status). */
    function ToDict(): (d: RequestDict)
      reads this
      ensures ParseStatus(d.status) == Some(status)
      ensures d.id == id && d.userId == userId && d.algorithmType == algorithmType && d.inputData == inputData
      ensures d.result == result && d.error == error && d.createdAt == createdAt && d.completedAt == completedAt
    {
      ParseValue(status);
      RequestDict(id, userId, algorithmType, inputData, status.Value(), result, error, createdAt, completedAt)
    }
  }

  /** A fresh request with only the required arguments: pending, no result, no error, not completed, created now. */
  method NewRequestDefaults(id: string, userId: string, algorithmType: string, inputData: Input, now: Timestamp)
    returns (d: RequestDict)
    ensures d == RequestDict(id, userId, algorithmType, inputData, "pending", None, None, now, None)
  {
    var request := new AlgorithmRequest(id, userId, algorithmType, inputData, now);
    d := request.ToDict();
  }

  /**
   * The mutators check nothing about the current status: a request marked completed
   * and then failed ends up failed while still holding the result, with the error
   * and the second completion time.
   */
  method CompletedThenFailed(inputData: Input, result: Output, error: string, t0: Timestamp, t1: Timestamp, t2: Timestamp)
    returns (d: RequestDict)
    ensures d.status == "failed" && d.result == Some(result) && d.error == Some(error)
    ensures d.createdAt == t0 && d.completedAt == Some(t2)
  {
    var request := new AlgorithmRequest("request", "user", "sorting", inputData, t0);
    request.MarkProcessing();
    request.MarkCompleted(result, t1);
    request.MarkFailed(error, t2);
    d := request.ToDict();
  }

  /** Marking a failed request completed makes it completed again, keeping the old error. */
  method FailedThenCompleted(inputData: Input, result: Output, error: string, t0: Timestamp, t1: Timestamp, t2: Timestamp)
    returns (d: RequestDict)
    ensures d.status == "completed" && d.result == Some(result) && d.error == Some(error)
    ensures d.completedAt == Some(t2)
  {
    var request := new AlgorithmRequest("request", "user", "sorting", inputData, t0);
    request.MarkFailed(error, t1);
    request.MarkCompleted(result, t2);
    d := request.ToDict();
  }
}
