/** The service-side vocabulary of dynamodb.go: items and write requests,
    backend errors and the errors the service reports, and the scripted
    backend every operation runs against.

    The AWS client and the sleeper are collaborators. A `Backend` is a finite
    script: for each kind of AWS call, the replies it will give in order, and
    the durations the sleeper will report. Each operation returns a `Run`: its
    outcome, the calls it made in order, and what is left of the script. A
    call the script has no reply for ends the run with `ScriptEnded` and is not
    recorded, so the number of recorded calls of a kind is the number of
    replies of that kind consumed. */
module DynamoDB {
  import opened Wrappers
  import opened TableProvisioning

  /** Most write requests one BatchWriteItem call carries. */
  const MaxBatchWriteSize: nat := 25

  /** AWS error code for exhausted provisioned throughput. */
  const ProvisionedThroughputExceeded: string := "ProvisionedThroughputExceededException"

  /** AWS error code for request-rate throttling. */
  const Throttling: string := "ThrottlingException"

  /** Table status reported once a table can be used again. */
  const TableStatusActive: string := "ACTIVE"

  /** A table item. The core relays items without looking inside them, so an
      item is represented only by an identity. */
  datatype Item = Item(id: int)

  /** A BatchWriteItem entry; the service only issues puts. */
  datatype WriteRequest = PutRequest(item: Item)

  /** An error returned by the AWS client: an AWS error carrying a code, or
      any other Go error. */
  datatype ApiError = AwsError(code: string, message: string) | PlainError(message: string)

  /** The errors the service returns, one per `return` site of dynamodb.go. */
  datatype Error =
    | DescribeFailed(cause: ApiError)
    | InvalidCapacity(read: Int64, write: Int64)
    | UpdateFailed(cause: ApiError)
    | TooManyRetries(cause: ApiError)
    | AwsWriteFailed(code: string, cause: ApiError)
    | WriteFailed(cause: ApiError)
    | InvalidTotalSegments
    | ScanFailed(cause: ApiError)

  /** How an operation ended: `Ok` (nil error), with an error, or because the
      script had no reply for the next call. */
  datatype Outcome = Ok | Fail(error: Error) | ScriptEnded

  /** Reply to one BatchWriteItem call: success with the requests the backend
      left unprocessed, or an error. */
  datatype WriteReply = Written(unprocessed: seq<WriteRequest>) | WriteError(cause: ApiError)

  /** One step of a ScanPages paginator: a page with its items and whether it
      is the last one, or a paging error. */
  datatype PageEvent = Page(items: seq<Item>, lastPage: bool) | PageError(cause: ApiError)

  /** A scan request: the whole table, or one segment of a segmented scan. */
  datatype ScanInput = Unsegmented | Segmented(segment: int, totalSegments: int)

  /** A call made to a collaborator. */
  datatype Call =
    | DescribeTableCall
    | UpdateTableCall(read: Int64, write: Int64)
    | BatchWriteItemCall(requests: seq<WriteRequest>)
    | ScanPagesCall(input: ScanInput)
    | SleepCall(ms: int)

  /** The scripted collaborators. Each ScanPages call consumes one whole
      paginator script from `scanReplies`. */
  datatype Backend = Backend(
    describeReplies: seq<Result<TableDescription, ApiError>>,
    updateReplies: seq<Option<ApiError>>,
    writeReplies: seq<WriteReply>,
    scanReplies: seq<seq<PageEvent>>,
    sleeps: seq<int>)

  datatype Run = Run(outcome: Outcome, calls: seq<Call>, rest: Backend)

  /** `r` preceded by the call `c`. */
  function Then(c: Call, r: Run): Run
  {
    r.(calls := [c] + r.calls)
  }

  function CountSends(calls: seq<Call>): nat
  {
    if calls == [] then 0
    else (if calls[0].BatchWriteItemCall? then 1 else 0) + CountSends(calls[1..])
  }

  function CountDescribes(calls: seq<Call>): nat
  {
    if calls == [] then 0
    else (if calls[0].DescribeTableCall? then 1 else 0) + CountDescribes(calls[1..])
  }

  /** The arguments the sleeper was called with, in order. */
  function SleepArgs(calls: seq<Call>): seq<int>
  {
    if calls == [] then []
    else (if calls[0].SleepCall? then [calls[0].ms] else []) + SleepArgs(calls[1..])
  }

  /** The parts joined end to end, in order. */
  function Flatten<T>(parts: seq<seq<T>>): seq<T>
  {
    if parts == [] then [] else parts[0] + Flatten(parts[1..])
  }

  function Sum(s: seq<int>): int
  {
    if s == [] then 0 else s[0] + Sum(s[1..])
  }

  lemma {:induction false} CountSendsAppend(a: seq<Call>, b: seq<Call>)
    ensures CountSends(a + b) == CountSends(a) + CountSends(b)
    decreases |a|
  {
    if a != [] {
      assert (a + b)[1..] == a[1..] + b;
      CountSendsAppend(a[1..], b);
    } else {
      assert a + b == b;
    }
  }

  lemma {:induction false} SleepArgsAppend(a: seq<Call>, b: seq<Call>)
    ensures SleepArgs(a + b) == SleepArgs(a) + SleepArgs(b)
    decreases |a|
  {
    if a != [] {
      assert (a + b)[1..] == a[1..] + b;
      SleepArgsAppend(a[1..], b);
    } else {
      assert a + b == b;
    }
  }

  lemma {:induction false} CountDescribesAppend(a: seq<Call>, b: seq<Call>)
    ensures CountDescribes(a + b) == CountDescribes(a) + CountDescribes(b)
    decreases |a|
  {
    if a != [] {
      assert (a + b)[1..] == a[1..] + b;
      CountDescribesAppend(a[1..], b);
    } else {
      assert a + b == b;
    }
  }
}
