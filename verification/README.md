# DynamoDB table copy — a Dafny model

This project models the sequential core of a command-line tool that copies one
DynamoDB table into another. It covers four parts:

- **Resilient batch writer.** `BatchWrite` splits items into chunks of at most 25
  put requests. `batchWriteItem` then drives each chunk through a retry state
  machine:
  - unprocessed requests are resent at once and the counters reset;
  - throughput-exceeded and throttling errors back off through the sleeper;
  - any other error is fatal;
  - an elapsed-sleep ceiling is checked whenever an error arrives.
- **Table readiness, capacity update and segmented scan.**
  - `UpdateCapacity` rejects a zero capacity, issues UpdateTable and then waits
    in `WaitForReadyTable`.
  - `WaitForReadyTable` describes the table until it reports `ACTIVE`, sleeping
    between polls.
  - `Scan` validates the segment count and sets the segment parameters only for
    more than one segment. Each page becomes one batch of items.
- **Capacity elevation rule and provisioning data.** `Config.Provisioning` raises
  the source read and target write capacity to the configured units when those
  are strictly greater. It leaves on-demand sides alone. The provisioning
  accessors read capacities out of two table descriptions.
- **Top-level run.** The run fetches the provisioning, computes and applies the
  copy provisioning, copies, and restores the fetched provisioning. It stops at
  the first error.

## How the collaborators are modelled

- The AWS API and the sleeper are a finite script, `DynamoDB.Backend`. It holds:
  - one reply sequence for each API call kind: DescribeTable, UpdateTable,
    BatchWriteItem, and one paginator script per ScanPages call;
  - the sequence of durations the sleeper reports.
- Every operation returns a `Run`: its outcome, the calls it made in order
  (sleeper calls with their argument), and what is left of the script.
- A call that the script cannot answer ends the run with `ScriptEnded` and is
  not recorded. So the number of recorded calls of a kind equals the replies
  consumed.
- A paginator script that runs out while the callback still asks for more
  pages has hit a page request it cannot answer, so the scan also ends with
  `ScriptEnded`. The SDK itself only finishes after the page it marks as last.
- The retry and poll loops are recursive functions that terminate on the
  remaining script length.
- The top-level run is generic in the provisioning and error types. It is driven
  by a scripted copy service.

Modules, one per file:

| file | module | models |
|---|---|---|
| wrappers.dfy | `Wrappers` | `Option`, `Result` |
| table_provisioning.dfy | `TableProvisioning` | provisioning.go |
| configuration.dfy | `Configuration` | config.go |
| dynamodb.dfy | `DynamoDB` | constants, requests, replies, calls, scripts |
| batch_writer.dfy | `BatchWriter` | `BatchWrite`, `batchWriteItem` |
| table_readiness.dfy | `TableReadiness` | `WaitForReadyTable`, `DescribeTable`, `UpdateCapacity` |
| segment_scan.dfy | `SegmentScan` | `Scan` and its page callback |
| copy_table.dfy | `CopyTable` | `Run` of the copy-table command |

## Behaviour of the code worth knowing

- **Zero-only capacity check.** Only a zero read or write capacity is rejected
  (dynamodb.go:75). A negative capacity reaches UpdateTable.
  `TableReadiness.UpdateCapacity` does the same.
- **Zero-only segment check.** Only `totalSegments == 0` is rejected
  (dynamodb.go:203). A negative count scans the whole table unsegmented.
- **No restore after a failed copy.** After a failed `Copy` no restore is
  attempted: the run returns at once (pkg/cmd/copytable/copytable.go:63-65).
  `CopyTable.Run` does the same.
- **Backoff units.** The ceiling `int(time.Minute)*3` counts nanoseconds, but it
  is compared with elapsed sleep counted in milliseconds. The model keeps the
  constants as computed (`BatchWriter.AsWritten`); see Findings.

## Model

| member | source | states |
|---|---|---|
| TableProvisioning.SourceCapacity | provisioning.go:19-24 | The source capacity is the source description's read units as read and its write units as write, not swapped. It is defined only when provisioned throughput is present, because the code dereferences it. |
| TableProvisioning.TargetCapacity | provisioning.go:26-31 | The target capacity is the target description's read and write units, not swapped. It requires provisioned throughput. |
| TableProvisioning.NewProvisioning | provisioning.go:15-17 | The first description becomes the source table's and the second the target's, not swapped. The round-trip lemma below is its partner. |
| TableProvisioning.NewProvisioningRoundTrip | provisioning.go:15-31 | `NewProvisioning(src, trg)` keeps `src` as source and `trg` as target. Each capacity accessor depends only on its own table. |
| Configuration.NewConfig | config.go:11-18 | Each value keeps its role: the read units are the source read units, the write units are the target write units, and the worker counts are readers and writers. |
| Configuration.Workers | config.go:38-40 | Returns the reader count first, then the writer count; the capacity units play no part. |
| Configuration.WorkersRoundTrip | config.go:11-40 | `Workers` returns exactly the reader and writer counts passed to `NewConfig`, readers first. |
| Configuration.CopyProvisioning | config.go:23-35 | A nil (on-demand) side stays nil and a provisioned side stays provisioned. Source write and target read are unchanged. Source read and target write never decrease, are at least the configured units, and are either the current value or the configured units. |
| Configuration.CopyProvisioningUnchangedIff | config.go:23-35 | The result equals the input if and only if every provisioned side already has at least the configured units, so a side is rewritten exactly when the configured units are strictly greater. |
| Configuration.CopyProvisioningIdempotent | config.go:23-35 | Applying the elevation rule twice gives the same result as applying it once. |
| BatchWriter.WriteChunk | dynamodb.go:127-181 | The first call of a chunk run, if any, sends the pending requests. A non-empty chunk with a reply available always makes that call. |
| BatchWriter.WriteChunkAccounting | dynamodb.go:127-181 | A chunk run consumes only write replies and sleeper durations, from the front of each script, one per recorded BatchWriteItem call and sleep. The rest of the script is untouched. An empty chunk succeeds with no call. |
| BatchWriter.WriteChunkFailures | dynamodb.go:140-173 | A chunk fails only with "too many retries", an AWS write error, or a non-AWS write error. |
| BatchWriter.UnprocessedResentImmediately | dynamodb.go:175-177 | After a successful call, the unprocessed requests are the very next call, with no sleep in between. The run continues from attempt 0 and elapsed 0, whatever the counters were before. |
| BatchWriter.BackoffRequest | dynamodb.go:148-156 | The sleep request after a transient error is `elapsed + attempt` (throughput exceeded) or the throttle unit times `attempt` (throttling), and it is never negative when elapsed and the unit are not. |
| BatchWriter.BackoffGrows | dynamodb.go:148-159 | From one backoff to the next, with attempt + 1 and elapsed grown by what was slept, a throughput-exceeded request grows by at least 1 ms and a throttling request by exactly one throttle unit. |
| BatchWriter.TransientErrorBacksOff | dynamodb.go:146-161 | After a throughput-exceeded or throttling error below the ceiling, the writer sleeps and resends the same requests with attempt + 1 and elapsed + slept. The sleep request is `elapsed + attempt` for throughput-exceeded and `int(time.Second) * attempt` for throttling. |
| BatchWriter.FatalErrorFailsAtOnce | dynamodb.go:162-172 | Any other AWS error code, or a non-AWS error, fails the chunk after that one call, with no sleep. |
| BatchWriter.CeilingCheckedFirst | dynamodb.go:141-144 | Once elapsed is past the ceiling, any error fails with "too many retries" before it is classified, with no sleep. |
| BatchWriter.AcceptingBackendConverges | dynamodb.go:133-178 | Against a backend that never errors, the writer never sleeps or fails. It completes the chunk exactly when some reply leaves nothing unprocessed. |
| BatchWriter.PersistentThrottlingGivesUp | dynamodb.go:140-161 | Against a backend that only throttles, the chunk ends only with "too many retries" or at the end of the script. The number of calls is bounded by the ceiling alone. |
| BatchWriter.PersistentThrottlingHitsCeiling | dynamodb.go:140-161 | Given a script long enough, the always-throttled chunk does fail with "too many retries". |
| BatchWriter.Requests | dynamodb.go:116-121 | One put request per item, in item order. |
| BatchWriter.ChunksShape | dynamodb.go:106-124 | Requests are split into ceil(n/25) chunks. Every chunk but the last holds exactly 25 requests, the last holds 1 to 25, and together they are the requests in order. |
| BatchWriter.ChunkIsSlice | dynamodb.go:106-124 | When there are more than 25k requests, chunk k exists and is requests 25k up to min(25k+25, n). |
| BatchWriter.ChunkExists | dynamodb.go:106-124 | Chunk k exists if and only if there are more than 25k requests. |
| BatchWriter.ChunkLoop | dynamodb.go:106-124 | The item loop as written, flushing a full buffer before taking the next item and flushing the rest at the end. Chunks already flushed are kept, in order, as a prefix, at least one more chunk is produced, and no new chunk exceeds 25 requests. |
| BatchWriter.ChunkLoopMatchesChunks | dynamodb.go:106-124 | The item loop as written, which flushes a full buffer before taking another item, produces the same chunks as the slicing definition, from any buffer of 1 to 25 requests (the empty buffer is `ChunkLoopFromEmpty`'s case). |
| BatchWriter.ChunkLoopFromEmpty | dynamodb.go:106-124 | Starting from an empty buffer, the loop's chunks are exactly the chunks of the items' put requests. |
| BatchWriter.WriteChunks | dynamodb.go:107-124 | Chunks are written in order, each starting from a fresh state on what the previous chunk left of the script. Every chunk before the last one run succeeded. A failure is the outcome of the last chunk run, and no later chunk is sent. Success means every chunk was written. |
| BatchWriter.BatchWrite | dynamodb.go:100-125 | An empty item list succeeds with no call. Otherwise chunk run k is the retry state machine from attempt 0 and elapsed 0, on the put requests of items 25k up to 25k+25, against what chunk k-1 left of the script. At most ceil(n/25) chunks run, and a failing chunk's outcome is returned with no later chunk sent. Success means all ceil(n/25) chunks ran and every one succeeded. |
| BatchWriter.FortyNineItems | dynamodb.go:100-125 | 49 items form chunks of 25 and 24. Against a backend that accepts both, the whole call trace is those two sends. |
| BatchWriter.AsWrittenUnitsMismatch | dynamodb.go:142-161 | As written, a throttled second attempt asks the millisecond sleeper for 1 000 000 000. A chunk that has already slept 180 001 ms is retried rather than stopped. |
| BatchWriter.IntendedUnitsStopAfterThreeMinutes | dynamodb.go:142-161 | With the constants in milliseconds, a throttled attempt asks for 1000 ms per attempt. Any error after more than 180 000 ms of sleep ends the chunk with "too many retries", including in the scenario that the as-written code retries. |
| TableReadiness.Poll | dynamodb.go:183-200 | The polling loop fails only with a describe error, and its first call is always a describe. |
| TableReadiness.WaitForReadyTable | dynamodb.go:183-200 | Waiting fails only with a describe error. |
| TableReadiness.PollStep | dynamodb.go:186-197 | A non-ACTIVE description is followed by a sleep of `elapsed * attempt` and the next iteration, with attempt + 1 and elapsed + slept. |
| TableReadiness.PollStops | dynamodb.go:187-194 | A describe error or an ACTIVE description ends the wait after that one call, with no sleep. An error fails, ACTIVE succeeds. |
| TableReadiness.PollsUntilActive | dynamodb.go:183-200 | With k non-ACTIVE descriptions before an ACTIVE one, the wait succeeds after exactly k+1 describes and k sleeps (none when the table is ACTIVE at once). It consumes exactly that much of the script. |
| TableReadiness.PollSucceedsOnlyWhenActive | dynamodb.go:183-200 | Conversely, success means an ACTIVE description was preceded only by non-ACTIVE ones, one for each sleep. |
| TableReadiness.PollPropagatesFirstError | dynamodb.go:186-190 | A describe error after k non-ACTIVE descriptions is returned after k+1 describes and k sleeps. |
| TableReadiness.PollSleepRequests | dynamodb.go:184-196 | While the table is not ready, the sleeper is asked for exactly the schedule `SleepSchedule`: each request is the elapsed time so far times the iteration number. |
| TableReadiness.SleepScheduleClosedForm | dynamodb.go:184-196 | The j-th sleep request is (elapsed + the sum of the first j reported durations) × (attempt + j). From the loop's start (attempt 0, elapsed 0) that is the sum of the first j durations times j, so the first request is for 0. |
| TableReadiness.UpdateCapacity | dynamodb.go:71-98 | A zero read or write capacity fails with no call, and that is the only way to get the invalid-capacity error. Otherwise one UpdateTable call is made with the requested units. Its error is returned; on success the result is that of `WaitForReadyTable`. |
| SegmentScan.Paginate | dynamodb.go:217-230 | Paging delivers at most one batch per paginator event. Seeing the last page means at least one batch was delivered. A paging error comes after the delivered events, and events that run out end the paging with every event delivered; `PaginateEnds` states what each ending says about the pages. |
| SegmentScan.PaginateDelivers | dynamodb.go:217-228 | Batch i is the items of page i. Every page before the last delivered one asked for more. |
| SegmentScan.PaginateEnds | dynamodb.go:217-232 | Paging ends in one of three ways: the last delivered page was marked last; the next event is a paging error, which is reported; or every event was delivered without a last page, so another page was requested that the script cannot answer. |
| SegmentScan.ScanInputFor | dynamodb.go:207-214 | The request carries segment and total segments if and only if there is more than one segment. |
| SegmentScan.Scan | dynamodb.go:202-237 | Zero segments fails with no call and no batch. Otherwise one ScanPages call is made, and each delivered page is one batch in page order. Every page before the last batch asked for more. Success means the last batch is the page marked last. A failure is a paging error right after the delivered pages, none of which was marked last. |
| SegmentScan.ScanSucceedsAfterLastPage | dynamodb.go:217-237 | When the page marked last arrives before any error, the scan succeeds with exactly the batches up to that page, holding their items in order. |
| SegmentScan.UnfinishedPagingIsNotSuccess | dynamodb.go:217-230 | A scan whose paginator script stops after one page that asked for more delivers that page but does not succeed: it ends as an unanswered page request. |
| SegmentScan.ScanStopsAfterLastPage | dynamodb.go:217-230 | When the last page comes at index n, exactly n+1 batches are delivered. Together they hold the items of those pages in order, and nothing after the last page is read. |
| CopyTable.Run | pkg/cmd/copytable/copytable.go:52-68 | A failed fetch is returned with no other call. Otherwise the calls are a prefix of fetch, calculate, update(copy provisioning), copy, update(initial provisioning). The run stops after the first failing update or copy and returns that error. After a successful copy the result is that of the restore. The run succeeds if and only if all four steps succeed. |
| CopyTable.RestoreTargetsInitialProvisioning | pkg/cmd/copytable/copytable.go:58-67 | The restore update is made exactly when the elevation and the copy both succeeded. It always targets the provisioning fetched at the start. |

## Left out

- copier.go, the concurrent copy pipeline: goroutines, channels and the
  WaitGroup are concurrency and are not modelled.
- `NewDynamoDBAPI`: AWS session and STS credential setup is I/O.
- sleeper.go (`RandomSleeper`): the sleeper is randomness plus a real sleep. It
  is modelled only as the sequence of durations it reports, and each call's
  argument is recorded.
- logger.go and every log call: output only, with no effect on results.
- `New` and `SetAndBindFlags` (command-line flag wiring), tableprovisioner.go (a
  stub with no logic) and the generated mocks.
- Item attribute values and error message text: items are opaque, errors are
  kinds carrying the backend error.
- `DescribeTable` is not a separate member. It is modelled inline in
  `TableReadiness.Poll`, where its error is wrapped as a describe failure.
- `ScriptEnded` is a property of the finite script, not of the code: it marks a
  run that needed a reply the script did not hold.
- BatchWriter.WriteChunk: the elapsed sleep time and `elapsed + attempt` are Go
  `int` sums. They are modelled as unbounded integers, so 64-bit wrap-around of
  a sum near 2^63 is not modelled.
- BatchWriter.PersistentThrottlingGivesUp: the call bound assumes every sleep
  lasts at least a millisecond. A sleeper that reports 0 could keep the writer
  below the ceiling for as long as the script lasts.
- TableReadiness.Poll: `elapsed * attempt` and `elapsed +=` are unbounded
  integers, so Go `int` overflow is not modelled.
- Configuration.WorkersRoundTrip: `NewConfig` converts the unit counts from Go
  `int` to `int64`, which is the identity on the 64-bit targets the model
  assumes.

## Findings

| source | as written | input that shows it | evidently intended | confidence | as-written member | corrected member |
|---|---|---|---|---|---|---|
| dynamodb.go:142-161 | The backoff constants are Go durations in nanoseconds: `int(time.Second)` = 1 000 000 000 and `int(time.Minute)*3` = 180 000 000 000. They are passed to and compared with sleeper values in milliseconds. | A throttling error on attempt 1 asks the sleeper for 1 000 000 000 ms (over eleven days). A throughput-exceeded error arriving after 180 001 ms of sleep is retried, and the chunk then succeeds instead of failing. | 1000 ms per throttled attempt and a ceiling of 180 000 ms (three minutes), as the millisecond sleeper and the three-minute retry policy indicate. | high; not executed | BatchWriter.AsWrittenUnitsMismatch | BatchWriter.IntendedUnitsStopAfterThreeMinutes |
