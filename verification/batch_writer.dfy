/** The resilient batch writer of dynamodb.go: `BatchWrite` splits items into
    chunks of at most 25 put requests, and `batchWriteItem` drives each chunk
    through a retry state machine.

    Per chunk the state is the pending requests, `attempt` and the elapsed
    sleep time. A successful call makes the unprocessed requests the new
    pending set and resets both counters, without sleeping. A
    throughput-exceeded or throttling error sleeps, bumps `attempt`, adds the
    slept time to `elapsed` and resends the same requests. Any other error is
    fatal. An error that arrives once `elapsed` is past the ceiling fails with
    "too many retries" before it is classified. */
module BatchWriter {
  import opened Wrappers
  import opened DynamoDB

  /** `int(time.Second)` and `int(time.Minute)`: Go durations count
      nanoseconds. */
  const GoSecond: int := 1_000_000_000
  const GoMinute: int := 60 * GoSecond

  /** The two constants of the backoff: the throttling sleep per attempt and
      the elapsed-sleep ceiling. Both are compared with, or passed to, the
      sleeper, which counts milliseconds. */
  datatype Backoff = Backoff(throttleUnit: int, ceiling: int)

  /** The constants as the code computes them (dynamodb.go:142, 156). */
  const AsWritten: Backoff := Backoff(GoSecond, GoMinute * 3)

  /** The constants expressed in the sleeper's milliseconds: one second per
      throttled attempt and a three-minute ceiling. */
  const Intended: Backoff := Backoff(1000, 3 * 60 * 1000)

  predicate HasCode(cause: ApiError, code: string)
  {
    cause.AwsError? && cause.code == code
  }

  /** The errors the writer backs off from instead of failing. */
  predicate IsTransient(cause: ApiError)
  {
    HasCode(cause, ProvisionedThroughputExceeded) || HasCode(cause, Throttling)
  }

  /** What the writer asks the sleeper for after a transient error. */
  function BackoffRequest(bo: Backoff, cause: ApiError, attempt: nat, elapsed: int): (ms: int)
    requires IsTransient(cause)
    ensures HasCode(cause, ProvisionedThroughputExceeded) ==> ms == elapsed + attempt
    ensures HasCode(cause, Throttling) ==> ms == bo.throttleUnit * attempt
    ensures elapsed >= 0 && bo.throttleUnit >= 0 ==> ms >= 0
  {
    if HasCode(cause, ProvisionedThroughputExceeded) then elapsed + attempt
    else bo.throttleUnit * attempt
  }

  /** From one backoff to the next (attempt + 1, elapsed grown by what was
      slept) the request never shrinks: throughput-exceeded requests grow by
      at least a millisecond, throttling requests by one throttle unit. */
  lemma BackoffGrows(bo: Backoff, cause: ApiError, attempt: nat, elapsed: int, slept: int)
    requires IsTransient(cause) && slept >= 0
    ensures HasCode(cause, ProvisionedThroughputExceeded) ==>
      BackoffRequest(bo, cause, attempt + 1, elapsed + slept) >= BackoffRequest(bo, cause, attempt, elapsed) + 1
    ensures !HasCode(cause, ProvisionedThroughputExceeded) ==>
      BackoffRequest(bo, cause, attempt + 1, elapsed + slept) == BackoffRequest(bo, cause, attempt, elapsed) + bo.throttleUnit
  {
  }

  /** The error reported for a non-transient error. */
  function FatalError(cause: ApiError): Error
  {
    if cause.AwsError? then AwsWriteFailed(cause.code, cause) else WriteFailed(cause)
  }

  /** The run consumed one write reply per BatchWriteItem call and one
      sleeper duration per sleep, each from the front of its script, and
      nothing else. */
  predicate ConsumesWritesAndSleeps(be: Backend, r: Run)
  {
    var sends := CountSends(r.calls);
    var sleeps := |SleepArgs(r.calls)|;
    && sends <= |be.writeReplies|
    && sleeps <= |be.sleeps|
    && r.rest == be.(writeReplies := be.writeReplies[sends..], sleeps := be.sleeps[sleeps..])
  }

  /** `batchWriteItem` (dynamodb.go:127-181) on one chunk, from the state
      (`pending`, `attempt`, `elapsed`). */
  function WriteChunk(bo: Backoff, pending: seq<WriteRequest>, attempt: nat, elapsed: int, be: Backend): (r: Run)
    ensures r.calls != [] ==> r.calls[0] == BatchWriteItemCall(pending)
    ensures |pending| > 0 && |be.writeReplies| > 0 ==> r.calls != []
    decreases |be.writeReplies|
  {
    if |pending| == 0 then Run(Ok, [], be)
    else if |be.writeReplies| == 0 then Run(ScriptEnded, [], be)
    else
      var send := BatchWriteItemCall(pending);
      var after := be.(writeReplies := be.writeReplies[1..]);
      match be.writeReplies[0]
      case Written(unprocessed) =>
        Then(send, WriteChunk(bo, unprocessed, 0, 0, after))
      case WriteError(cause) =>
        if elapsed > bo.ceiling then Run(Fail(TooManyRetries(cause)), [send], after)
        else if !IsTransient(cause) then Run(Fail(FatalError(cause)), [send], after)
        else if |be.sleeps| == 0 then Run(ScriptEnded, [send], after)
        else
          var next := WriteChunk(bo, pending, attempt + 1, elapsed + be.sleeps[0],
                                 be.(writeReplies := be.writeReplies[1..], sleeps := be.sleeps[1..]));
          Then(send, Then(SleepCall(BackoffRequest(bo, cause, attempt, elapsed)), next))
  }

  /** Writing a chunk consumes only write replies and sleeper durations, each
      from the front, records one call per reply consumed, and succeeds at
      once on an empty chunk. */
  lemma {:induction false} WriteChunkAccounting(bo: Backoff, pending: seq<WriteRequest>, attempt: nat, elapsed: int, be: Backend)
    ensures var r := WriteChunk(bo, pending, attempt, elapsed, be);
      && ConsumesWritesAndSleeps(be, r)
      && (|pending| == 0 ==> r == Run(Ok, [], be))
    decreases |be.writeReplies|
  {
    var r := WriteChunk(bo, pending, attempt, elapsed, be);
    if |pending| == 0 || |be.writeReplies| == 0 {
      assert r.calls == [] && r.rest == be;
      assert be.writeReplies[0..] == be.writeReplies && be.sleeps[0..] == be.sleeps;
    } else {
      var send := BatchWriteItemCall(pending);
      var after := be.(writeReplies := be.writeReplies[1..]);
      match be.writeReplies[0]
      case Written(unprocessed) =>
        WriteChunkAccounting(bo, unprocessed, 0, 0, after);
        SendAccounting(be, after, send, WriteChunk(bo, unprocessed, 0, 0, after));
      case WriteError(cause) =>
        if elapsed > bo.ceiling || !IsTransient(cause) || |be.sleeps| == 0 {
          assert r.calls == [send] && r.rest == after;
          assert CountSends(r.calls) == 1 + CountSends([]);
          assert SleepArgs(r.calls) == SleepArgs([]);
          assert be.sleeps[0..] == be.sleeps;
        } else {
          var rest := be.(writeReplies := be.writeReplies[1..], sleeps := be.sleeps[1..]);
          var next := WriteChunk(bo, pending, attempt + 1, elapsed + be.sleeps[0], rest);
          WriteChunkAccounting(bo, pending, attempt + 1, elapsed + be.sleeps[0], rest);
          RetryAccounting(be, rest, send, BackoffRequest(bo, cause, attempt, elapsed), next);
        }
    }
  }

  /** A chunk fails only with "too many retries" or a fatal write error. */
  lemma {:induction false} WriteChunkFailures(bo: Backoff, pending: seq<WriteRequest>, attempt: nat, elapsed: int, be: Backend)
    ensures var r := WriteChunk(bo, pending, attempt, elapsed, be);
      r.outcome.Fail? ==> r.outcome.error.TooManyRetries? || r.outcome.error.AwsWriteFailed? || r.outcome.error.WriteFailed?
    decreases |be.writeReplies|
  {
    if |pending| > 0 && |be.writeReplies| > 0 {
      var after := be.(writeReplies := be.writeReplies[1..]);
      match be.writeReplies[0]
      case Written(unprocessed) =>
        WriteChunkFailures(bo, unprocessed, 0, 0, after);
      case WriteError(cause) =>
        if elapsed <= bo.ceiling && IsTransient(cause) && |be.sleeps| > 0 {
          var rest := be.(writeReplies := be.writeReplies[1..], sleeps := be.sleeps[1..]);
          WriteChunkFailures(bo, pending, attempt + 1, elapsed + be.sleeps[0], rest);
        }
    }
  }

  /** A send answered by the first write reply keeps the accounting of what
      follows it. */
  lemma SendAccounting(be: Backend, after: Backend, send: Call, next: Run)
    requires send.BatchWriteItemCall? && |be.writeReplies| > 0
    requires after == be.(writeReplies := be.writeReplies[1..])
    requires ConsumesWritesAndSleeps(after, next)
    ensures ConsumesWritesAndSleeps(be, Then(send, next))
  {
    CountSendsAppend([send], next.calls);
    SleepArgsAppend([send], next.calls);
    assert be.writeReplies[1..][CountSends(next.calls)..] == be.writeReplies[CountSends(next.calls) + 1..];
  }

  /** A send answered by the first write reply and followed by a sleep that
      takes the first duration keeps the accounting of what follows them. */
  lemma RetryAccounting(be: Backend, after: Backend, send: Call, ms: int, next: Run)
    requires send.BatchWriteItemCall? && |be.writeReplies| > 0 && |be.sleeps| > 0
    requires after == be.(writeReplies := be.writeReplies[1..], sleeps := be.sleeps[1..])
    requires ConsumesWritesAndSleeps(after, next)
    ensures ConsumesWritesAndSleeps(be, Then(send, Then(SleepCall(ms), next)))
  {
    var calls := Then(send, Then(SleepCall(ms), next)).calls;
    assert calls == [send, SleepCall(ms)] + next.calls;
    CountSendsAppend([send, SleepCall(ms)], next.calls);
    SleepArgsAppend([send, SleepCall(ms)], next.calls);
    assert be.writeReplies[1..][CountSends(next.calls)..] == be.writeReplies[CountSends(next.calls) + 1..];
    assert be.sleeps[1..][|SleepArgs(next.calls)|..] == be.sleeps[|SleepArgs(next.calls)| + 1..];
  }

  /** A successful call makes the unprocessed requests the very next request,
      sent without a sleeper call, and the writer continues as a fresh state
      machine (attempt 0, elapsed 0): the counters the chunk had built up
      before the success make no difference to anything that follows. */
  lemma UnprocessedResentImmediately(bo: Backoff, pending: seq<WriteRequest>, attempt: nat, elapsed: int, be: Backend)
    requires |pending| > 0 && |be.writeReplies| > 0 && be.writeReplies[0].Written?
    ensures var after := be.(writeReplies := be.writeReplies[1..]);
      WriteChunk(bo, pending, attempt, elapsed, be)
        == Then(BatchWriteItemCall(pending), WriteChunk(bo, be.writeReplies[0].unprocessed, 0, 0, after))
    ensures var u := be.writeReplies[0].unprocessed;
      |u| > 0 && |be.writeReplies| > 1 ==>
        WriteChunk(bo, pending, attempt, elapsed, be).calls[..2] == [BatchWriteItemCall(pending), BatchWriteItemCall(u)]
    ensures forall a: nat, e: int ::
      WriteChunk(bo, pending, a, e, be) == WriteChunk(bo, pending, attempt, elapsed, be)
  {
    var after := be.(writeReplies := be.writeReplies[1..]);
    var u := be.writeReplies[0].unprocessed;
    if |u| > 0 && |be.writeReplies| > 1 {
      var next := WriteChunk(bo, u, 0, 0, after);
      assert next.calls != [] && next.calls[0] == BatchWriteItemCall(u);
    }
  }

  /** On a throughput-exceeded or throttling error below the ceiling the
      writer sleeps once, asking for `elapsed + attempt` or
      `throttleUnit * attempt` respectively, then resends the same requests
      with `attempt` one higher and `elapsed` grown by what the sleeper
      reported. */
  lemma TransientErrorBacksOff(bo: Backoff, pending: seq<WriteRequest>, attempt: nat, elapsed: int, be: Backend)
    requires |pending| > 0 && |be.writeReplies| > 0 && be.writeReplies[0].WriteError?
    requires IsTransient(be.writeReplies[0].cause)
    requires elapsed <= bo.ceiling
    requires |be.sleeps| > 0
    ensures var cause := be.writeReplies[0].cause;
      var after := be.(writeReplies := be.writeReplies[1..], sleeps := be.sleeps[1..]);
      var next := WriteChunk(bo, pending, attempt + 1, elapsed + be.sleeps[0], after);
      && WriteChunk(bo, pending, attempt, elapsed, be)
           == Then(BatchWriteItemCall(pending), Then(SleepCall(BackoffRequest(bo, cause, attempt, elapsed)), next))
      && (|after.writeReplies| > 0 ==> next.calls[0] == BatchWriteItemCall(pending))
    ensures HasCode(be.writeReplies[0].cause, ProvisionedThroughputExceeded) ==>
      WriteChunk(bo, pending, attempt, elapsed, be).calls[1] == SleepCall(elapsed + attempt)
    ensures HasCode(be.writeReplies[0].cause, Throttling) ==>
      WriteChunk(bo, pending, attempt, elapsed, be).calls[1] == SleepCall(bo.throttleUnit * attempt)
  {
  }

  /** Any other AWS error, or an error that is not an AWS error, fails the
      chunk at once: one call, no sleep. */
  lemma FatalErrorFailsAtOnce(bo: Backoff, pending: seq<WriteRequest>, attempt: nat, elapsed: int, be: Backend)
    requires |pending| > 0 && |be.writeReplies| > 0 && be.writeReplies[0].WriteError?
    requires !IsTransient(be.writeReplies[0].cause)
    requires elapsed <= bo.ceiling
    ensures var cause := be.writeReplies[0].cause;
      WriteChunk(bo, pending, attempt, elapsed, be)
        == Run(Fail(if cause.AwsError? then AwsWriteFailed(cause.code, cause) else WriteFailed(cause)),
               [BatchWriteItemCall(pending)],
               be.(writeReplies := be.writeReplies[1..]))
  {
  }

  /** Once the elapsed sleep time is past the ceiling, the next error of any
      kind fails the chunk with "too many retries", before it is classified
      and without sleeping. */
  lemma CeilingCheckedFirst(bo: Backoff, pending: seq<WriteRequest>, attempt: nat, elapsed: int, be: Backend)
    requires |pending| > 0 && |be.writeReplies| > 0 && be.writeReplies[0].WriteError?
    requires elapsed > bo.ceiling
    ensures WriteChunk(bo, pending, attempt, elapsed, be)
      == Run(Fail(TooManyRetries(be.writeReplies[0].cause)),
             [BatchWriteItemCall(pending)],
             be.(writeReplies := be.writeReplies[1..]))
  {
  }

  /** Against a backend that never errors, the writer never sleeps and never
      fails, and it completes the chunk exactly when some reply in the script
      leaves nothing unprocessed. */
  lemma {:induction false} AcceptingBackendConverges(bo: Backoff, pending: seq<WriteRequest>, attempt: nat, elapsed: int, be: Backend)
    requires |pending| > 0
    requires forall i :: 0 <= i < |be.writeReplies| ==> be.writeReplies[i].Written?
    ensures var r := WriteChunk(bo, pending, attempt, elapsed, be);
      && (r.outcome == Ok || r.outcome == ScriptEnded)
      && SleepArgs(r.calls) == []
      && (r.outcome == Ok <==> exists i :: 0 <= i < |be.writeReplies| && be.writeReplies[i].unprocessed == [])
    decreases |be.writeReplies|
  {
    var r := WriteChunk(bo, pending, attempt, elapsed, be);
    if |be.writeReplies| > 0 {
      var after := be.(writeReplies := be.writeReplies[1..]);
      var u := be.writeReplies[0].unprocessed;
      var next := WriteChunk(bo, u, 0, 0, after);
      assert r == Then(BatchWriteItemCall(pending), next);
      assert r.calls[1..] == next.calls;
      if u == [] {
        assert be.writeReplies[0].unprocessed == [];
      } else {
        assert forall i :: 0 <= i < |after.writeReplies| ==> after.writeReplies[i] == be.writeReplies[i + 1];
        AcceptingBackendConverges(bo, u, 0, 0, after);
        if next.outcome == Ok {
          var i :| 0 <= i < |after.writeReplies| && after.writeReplies[i].unprocessed == [];
          assert be.writeReplies[i + 1].unprocessed == [];
        }
        if exists i :: 0 <= i < |be.writeReplies| && be.writeReplies[i].unprocessed == [] {
          var i :| 0 <= i < |be.writeReplies| && be.writeReplies[i].unprocessed == [];
          assert i > 0;
          assert after.writeReplies[i - 1].unprocessed == [];
        }
      }
    }
  }

  /** Upper bound on the BatchWriteItem calls a chunk makes against a backend
      that only errors, when every sleep lasts at least one millisecond. */
  function RetryBound(bo: Backoff, elapsed: int): nat
  {
    if elapsed > bo.ceiling then 1 else bo.ceiling - elapsed + 2
  }

  /** Against a backend that only answers with throughput-exceeded or
      throttling errors, and a sleeper that sleeps at least a millisecond each
      time, the writer can only end with "too many retries" (or the script
      ending first), and the elapsed-time ceiling alone bounds the number of
      calls it makes. */
  lemma {:induction false} PersistentThrottlingGivesUp(bo: Backoff, pending: seq<WriteRequest>, attempt: nat, elapsed: int, be: Backend)
    requires |pending| > 0
    requires AlwaysThrottled(be)
    ensures var r := WriteChunk(bo, pending, attempt, elapsed, be);
      && (r.outcome == ScriptEnded || (r.outcome.Fail? && r.outcome.error.TooManyRetries?))
      && CountSends(r.calls) <= RetryBound(bo, elapsed)
    decreases |be.writeReplies|
  {
    var r := WriteChunk(bo, pending, attempt, elapsed, be);
    if |be.writeReplies| == 0 {
      assert r == Run(ScriptEnded, [], be);
    } else if elapsed > bo.ceiling {
      CeilingCheckedFirst(bo, pending, attempt, elapsed, be);
      assert CountSends(r.calls) == 1 + CountSends([]);
    } else if |be.sleeps| == 0 {
      assert r == Run(ScriptEnded, [BatchWriteItemCall(pending)], be.(writeReplies := be.writeReplies[1..]));
      assert CountSends(r.calls) == 1 + CountSends([]);
    } else {
      var after := be.(writeReplies := be.writeReplies[1..], sleeps := be.sleeps[1..]);
      ThrottledStep(bo, pending, attempt, elapsed, be);
      PersistentThrottlingGivesUp(bo, pending, attempt + 1, elapsed + be.sleeps[0], after);
      assert RetryBound(bo, elapsed + be.sleeps[0]) + 1 <= RetryBound(bo, elapsed);
    }
  }

  /** With a script long enough, the always-throttled writer does reach the
      ceiling and fails with "too many retries". */
  lemma {:induction false} PersistentThrottlingHitsCeiling(bo: Backoff, pending: seq<WriteRequest>, attempt: nat, elapsed: int, be: Backend)
    requires |pending| > 0
    requires AlwaysThrottled(be)
    requires |be.writeReplies| >= RetryBound(bo, elapsed) && |be.sleeps| >= RetryBound(bo, elapsed)
    ensures var r := WriteChunk(bo, pending, attempt, elapsed, be);
      r.outcome.Fail? && r.outcome.error.TooManyRetries?
    decreases |be.writeReplies|
  {
    if elapsed <= bo.ceiling {
      var after := be.(writeReplies := be.writeReplies[1..], sleeps := be.sleeps[1..]);
      ThrottledStep(bo, pending, attempt, elapsed, be);
      assert RetryBound(bo, elapsed + be.sleeps[0]) + 1 <= RetryBound(bo, elapsed);
      PersistentThrottlingHitsCeiling(bo, pending, attempt + 1, elapsed + be.sleeps[0], after);
    } else {
      CeilingCheckedFirst(bo, pending, attempt, elapsed, be);
    }
  }

  /** Every write reply is a throughput-exceeded or throttling error, and
      every sleep lasts at least a millisecond. */
  predicate AlwaysThrottled(be: Backend)
  {
    && (forall i :: 0 <= i < |be.writeReplies| ==>
          be.writeReplies[i].WriteError? && IsTransient(be.writeReplies[i].cause))
    && (forall j :: 0 <= j < |be.sleeps| ==> be.sleeps[j] >= 1)
  }

  /** One backoff step of an always-throttled writer below the ceiling. */
  lemma ThrottledStep(bo: Backoff, pending: seq<WriteRequest>, attempt: nat, elapsed: int, be: Backend)
    requires |pending| > 0
    requires AlwaysThrottled(be)
    requires |be.writeReplies| > 0 && |be.sleeps| > 0 && elapsed <= bo.ceiling
    ensures var after := be.(writeReplies := be.writeReplies[1..], sleeps := be.sleeps[1..]);
      var r := WriteChunk(bo, pending, attempt, elapsed, be);
      var next := WriteChunk(bo, pending, attempt + 1, elapsed + be.sleeps[0], after);
      && AlwaysThrottled(after)
      && be.sleeps[0] >= 1
      && r.outcome == next.outcome
      && CountSends(r.calls) == 1 + CountSends(next.calls)
  {
    var after := be.(writeReplies := be.writeReplies[1..], sleeps := be.sleeps[1..]);
    var next := WriteChunk(bo, pending, attempt + 1, elapsed + be.sleeps[0], after);
    var sleep := SleepCall(BackoffRequest(bo, be.writeReplies[0].cause, attempt, elapsed));
    TransientErrorBacksOff(bo, pending, attempt, elapsed, be);
    assert forall i :: 0 <= i < |after.writeReplies| ==> after.writeReplies[i] == be.writeReplies[i + 1];
    assert forall j :: 0 <= j < |after.sleeps| ==> after.sleeps[j] == be.sleeps[j + 1];
    CountSendsAppend([BatchWriteItemCall(pending), sleep], next.calls);
    assert CountSends([BatchWriteItemCall(pending), sleep]) == 1;
  }

  /** The put request built for each item (dynamodb.go:116-121), in order. */
  function Requests(items: seq<Item>): (reqs: seq<WriteRequest>)
    ensures |reqs| == |items|
    ensures forall i :: 0 <= i < |items| ==> reqs[i] == PutRequest(items[i])
  {
    seq(|items|, i requires 0 <= i < |items| => PutRequest(items[i]))
  }

  lemma RequestsSlice(items: seq<Item>, lo: nat, hi: nat)
    requires lo <= hi <= |items|
    ensures Requests(items)[lo..hi] == Requests(items[lo..hi])
  {
  }

  function Min(a: int, b: int): int
  {
    if a <= b then a else b
  }

  /** Splits requests into consecutive chunks of at most 25. */
  function Chunks(reqs: seq<WriteRequest>): seq<seq<WriteRequest>>
    requires |reqs| > 0
    decreases |reqs|
  {
    if |reqs| <= MaxBatchWriteSize then [reqs]
    else [reqs[..MaxBatchWriteSize]] + Chunks(reqs[MaxBatchWriteSize..])
  }

  /** The chunks are all full but the last, which holds 1..25 requests, there
      are as many as 25-request runs needed to cover the input, and together
      they are exactly the input in order. */
  lemma {:induction false} ChunksShape(reqs: seq<WriteRequest>)
    requires |reqs| > 0
    ensures var chunks := Chunks(reqs);
      && |chunks| == (|reqs| + MaxBatchWriteSize - 1) / MaxBatchWriteSize
      && (forall k :: 0 <= k < |chunks| ==> 0 < |chunks[k]| <= MaxBatchWriteSize)
      && (forall k :: 0 <= k < |chunks| - 1 ==> |chunks[k]| == MaxBatchWriteSize)
      && Flatten(chunks) == reqs
    decreases |reqs|
  {
    var chunks := Chunks(reqs);
    if |reqs| <= MaxBatchWriteSize {
      assert Flatten([reqs]) == reqs + Flatten([]);
    } else {
      var tail := reqs[MaxBatchWriteSize..];
      ChunksShape(tail);
      assert chunks == [reqs[..MaxBatchWriteSize]] + Chunks(tail);
      assert chunks[1..] == Chunks(tail);
      assert forall k :: 1 <= k < |chunks| ==> chunks[k] == Chunks(tail)[k - 1];
      assert Flatten(chunks) == reqs[..MaxBatchWriteSize] + Flatten(Chunks(tail));
      assert reqs[..MaxBatchWriteSize] + tail == reqs;
    }
  }

  /** When the input reaches past `25k`, chunk `k` exists and is the `k`-th
      run of 25 requests (cut short at the end of the input). */
  lemma {:induction false} ChunkIsSlice(reqs: seq<WriteRequest>, k: nat)
    requires MaxBatchWriteSize * k < |reqs|
    ensures k < |Chunks(reqs)|
    ensures Chunks(reqs)[k] == reqs[MaxBatchWriteSize * k .. Min(MaxBatchWriteSize * (k + 1), |reqs|)]
    decreases k
  {
    if k > 0 {
      var tail := reqs[MaxBatchWriteSize..];
      assert MaxBatchWriteSize * (k - 1) < |tail|;
      ChunkIsSlice(tail, k - 1);
      assert Chunks(reqs) == [reqs[..MaxBatchWriteSize]] + Chunks(tail);
      assert Chunks(reqs)[k] == Chunks(tail)[k - 1];
      assert MaxBatchWriteSize * (k - 1) + MaxBatchWriteSize == MaxBatchWriteSize * k;
      assert Min(MaxBatchWriteSize * k, |tail|) + MaxBatchWriteSize == Min(MaxBatchWriteSize * (k + 1), |reqs|);
      assert tail[MaxBatchWriteSize * (k - 1) .. Min(MaxBatchWriteSize * k, |tail|)]
          == reqs[MaxBatchWriteSize * k .. Min(MaxBatchWriteSize * (k + 1), |reqs|)];
    }
  }

  /** Chunk `k` exists exactly when the input reaches past `25k`. */
  lemma ChunkExists(reqs: seq<WriteRequest>, k: nat)
    requires |reqs| > 0
    ensures k < |Chunks(reqs)| <==> MaxBatchWriteSize * k < |reqs|
  {
    ChunksShape(reqs);
    if MaxBatchWriteSize * k < |reqs| {
      ChunkIsSlice(reqs, k);
    }
  }

  /** The item loop of `BatchWrite` (dynamodb.go:106-124) as written: the
      buffer is flushed when it holds 25 requests and another item arrives,
      and whatever is left is flushed at the end. */
  function ChunkLoop(items: seq<Item>, buffer: seq<WriteRequest>, flushed: seq<seq<WriteRequest>>): (chunks: seq<seq<WriteRequest>>)
    ensures |chunks| > |flushed| && chunks[..|flushed|] == flushed
    ensures |buffer| <= MaxBatchWriteSize ==> forall k :: |flushed| <= k < |chunks| ==> |chunks[k]| <= MaxBatchWriteSize
    decreases |items|
  {
    if items == [] then flushed + [buffer]
    else if |buffer| == MaxBatchWriteSize then ChunkLoop(items[1..], [PutRequest(items[0])], flushed + [buffer])
    else ChunkLoop(items[1..], buffer + [PutRequest(items[0])], flushed)
  }

  lemma {:induction false} ChunkLoopMatchesChunks(items: seq<Item>, buffer: seq<WriteRequest>, flushed: seq<seq<WriteRequest>>)
    requires 0 < |buffer| <= MaxBatchWriteSize
    ensures ChunkLoop(items, buffer, flushed) == flushed + Chunks(buffer + Requests(items))
    decreases |items|
  {
    if items == [] {
      assert buffer + Requests(items) == buffer;
    } else {
      var req := PutRequest(items[0]);
      var later := Requests(items[1..]);
      RequestsCons(items);
      if |buffer| == MaxBatchWriteSize {
        ChunkLoopMatchesChunks(items[1..], [req], flushed + [buffer]);
        FlushStep(buffer, req, later, flushed);
      } else {
        ChunkLoopMatchesChunks(items[1..], buffer + [req], flushed);
        AppendStep(buffer, req, later, flushed);
      }
    }
  }

  /** Flushing a full buffer before chunking the rest gives the same chunks
      as chunking the buffer together with the rest. */
  lemma FlushStep(buffer: seq<WriteRequest>, req: WriteRequest, later: seq<WriteRequest>, flushed: seq<seq<WriteRequest>>)
    requires |buffer| == MaxBatchWriteSize
    ensures flushed + [buffer] + Chunks([req] + later) == flushed + Chunks(buffer + ([req] + later))
  {
    ChunksOfFullBuffer(buffer, [req] + later);
  }

  /** Appending a request to a buffer with room leaves the same requests to
      chunk. */
  lemma AppendStep(buffer: seq<WriteRequest>, req: WriteRequest, later: seq<WriteRequest>, flushed: seq<seq<WriteRequest>>)
    requires 0 < |buffer| < MaxBatchWriteSize
    ensures flushed + Chunks(buffer + [req] + later) == flushed + Chunks(buffer + ([req] + later))
  {
    assert buffer + [req] + later == buffer + ([req] + later);
  }

  lemma RequestsCons(items: seq<Item>)
    requires |items| > 0
    ensures Requests(items) == [PutRequest(items[0])] + Requests(items[1..])
  {
  }

  /** A full buffer followed by more requests is chunked as the buffer and
      then the chunks of the rest. */
  lemma ChunksOfFullBuffer(buffer: seq<WriteRequest>, tail: seq<WriteRequest>)
    requires |buffer| == MaxBatchWriteSize && |tail| > 0
    ensures Chunks(buffer + tail) == [buffer] + Chunks(tail)
  {
    var all := buffer + tail;
    assert all[..MaxBatchWriteSize] == buffer;
    assert all[MaxBatchWriteSize..] == tail;
  }

  /** The loop as `BatchWrite` starts it, with an empty buffer, produces
      exactly `Chunks` of the items' put requests. */
  lemma ChunkLoopFromEmpty(items: seq<Item>)
    requires |items| > 0
    ensures ChunkLoop(items, [], []) == Chunks(Requests(items))
  {
    var req := PutRequest(items[0]);
    assert ChunkLoop(items, [], []) == ChunkLoop(items[1..], [] + [req], []);
    assert [] + [req] == [req];
    ChunkLoopMatchesChunks(items[1..], [req], []);
    RequestsCons(items);
    var none: seq<seq<WriteRequest>> := [];
    assert none + Chunks([req] + Requests(items[1..])) == Chunks(Requests(items));
  }

  /** The chunk-by-chunk runs of a batch write and its overall outcome. */
  datatype BatchRun = BatchRun(outcome: Outcome, chunkRuns: seq<Run>, rest: Backend)

  /** Writes the chunks in order, each by a fresh state machine on what the
      previous chunk left of the script, stopping at the first chunk that
      does not succeed. */
  function WriteChunks(bo: Backoff, chunks: seq<seq<WriteRequest>>, be: Backend): (r: BatchRun)
    ensures |r.chunkRuns| <= |chunks|
    ensures forall k :: 0 <= k < |r.chunkRuns| ==>
      r.chunkRuns[k] == WriteChunk(bo, chunks[k], 0, 0, if k == 0 then be else r.chunkRuns[k - 1].rest)
    ensures forall k :: 0 <= k < |r.chunkRuns| - 1 ==> r.chunkRuns[k].outcome == Ok
    ensures r.outcome == Ok ==> |r.chunkRuns| == |chunks| && forall k :: 0 <= k < |r.chunkRuns| ==> r.chunkRuns[k].outcome == Ok
    ensures r.outcome != Ok ==> |r.chunkRuns| > 0 && r.outcome == r.chunkRuns[|r.chunkRuns| - 1].outcome
    decreases |chunks|
  {
    if chunks == [] then BatchRun(Ok, [], be)
    else
      var first := WriteChunk(bo, chunks[0], 0, 0, be);
      if first.outcome != Ok then BatchRun(first.outcome, [first], first.rest)
      else
        var more := WriteChunks(bo, chunks[1..], first.rest);
        var runs := [first] + more.chunkRuns;
        assert forall k :: 1 <= k < |runs| ==> runs[k] == more.chunkRuns[k - 1] && chunks[k] == chunks[1..][k - 1];
        assert forall k :: 0 <= k < |runs| ==>
          runs[k] == WriteChunk(bo, chunks[k], 0, 0, if k == 0 then be else runs[k - 1].rest);
        BatchRun(more.outcome, runs, more.rest)
  }

  /** `BatchWrite` (dynamodb.go:100-125). An empty list succeeds without any
      call. Otherwise chunk `k` is first sent as the put requests of items
      `25k` up to `25k + 25` (fewer for the last chunk), chunks are written in
      order, a chunk that fails ends the write with its outcome and no later
      chunk is sent, and success means every chunk was written. */
  function BatchWrite(bo: Backoff, items: seq<Item>, be: Backend): (r: BatchRun)
    ensures |items| == 0 ==> r == BatchRun(Ok, [], be)
    ensures |items| > 0 ==> |r.chunkRuns| <= (|items| + MaxBatchWriteSize - 1) / MaxBatchWriteSize
    ensures forall k :: 0 <= k < |r.chunkRuns| && r.chunkRuns[k].calls != [] ==>
      && MaxBatchWriteSize * k < |items|
      && r.chunkRuns[k].calls[0]
           == BatchWriteItemCall(Requests(items[MaxBatchWriteSize * k .. Min(MaxBatchWriteSize * (k + 1), |items|)]))
    ensures forall k :: 0 <= k < |r.chunkRuns| - 1 ==> r.chunkRuns[k].outcome == Ok
    ensures forall k :: 0 <= k < |r.chunkRuns| ==>
      && MaxBatchWriteSize * k < |items|
      && r.chunkRuns[k]
           == WriteChunk(bo, Requests(items[MaxBatchWriteSize * k .. Min(MaxBatchWriteSize * (k + 1), |items|)]), 0, 0,
                         if k == 0 then be else r.chunkRuns[k - 1].rest)
    ensures r.outcome == Ok ==> |r.chunkRuns| == (|items| + MaxBatchWriteSize - 1) / MaxBatchWriteSize
    ensures r.outcome == Ok ==> forall k :: 0 <= k < |r.chunkRuns| ==> r.chunkRuns[k].outcome == Ok
    ensures r.outcome != Ok ==> |r.chunkRuns| > 0 && r.outcome == r.chunkRuns[|r.chunkRuns| - 1].outcome
  {
    if |items| == 0 then BatchRun(Ok, [], be)
    else
      var chunks := ChunkLoop(items, [], []);
      ChunkLoopFromEmpty(items);
      ChunksShape(Requests(items));
      var r := WriteChunks(bo, chunks, be);
      forall k | 0 <= k < |r.chunkRuns|
        ensures MaxBatchWriteSize * k < |items|
        ensures r.chunkRuns[k]
                  == WriteChunk(bo, Requests(items[MaxBatchWriteSize * k .. Min(MaxBatchWriteSize * (k + 1), |items|)]), 0, 0,
                                if k == 0 then be else r.chunkRuns[k - 1].rest)
      {
        assert r.chunkRuns[k] == WriteChunk(bo, chunks[k], 0, 0, if k == 0 then be else r.chunkRuns[k - 1].rest);
        ChunkOfItems(items, k);
      }
      r
  }

  /** Chunk `k` of the items' requests is the requests of items `25k` up to
      `25k + 25`, cut short at the end of the list. */
  lemma ChunkOfItems(items: seq<Item>, k: nat)
    requires |items| > 0 && k < |Chunks(Requests(items))|
    ensures MaxBatchWriteSize * k < |items|
    ensures Chunks(Requests(items))[k] == Requests(items[MaxBatchWriteSize * k .. Min(MaxBatchWriteSize * (k + 1), |items|)])
  {
    ChunksShape(Requests(items));
    ChunkIsSlice(Requests(items), k);
    RequestsSlice(items, MaxBatchWriteSize * k, Min(MaxBatchWriteSize * (k + 1), |items|));
  }

  /** All the calls of a batch write, in order. */
  function BatchCalls(runs: seq<Run>): seq<Call>
  {
    if runs == [] then [] else runs[0].calls + BatchCalls(runs[1..])
  }

  /** 49 items go out as a call with the first 25 and then a call with the
      remaining 24; against a backend that accepts both, that is the whole
      conversation. */
  lemma FortyNineItems(items: seq<Item>, bo: Backoff, be: Backend)
    requires |items| == 49
    requires be.writeReplies == [Written([]), Written([])]
    ensures Chunks(Requests(items)) == [Requests(items[..25]), Requests(items[25..])]
    ensures var r := BatchWrite(bo, items, be);
      && r.outcome == Ok
      && BatchCalls(r.chunkRuns) == [BatchWriteItemCall(Requests(items[..25])), BatchWriteItemCall(Requests(items[25..]))]
  {
    var chunks := Chunks(Requests(items));
    ChunksShape(Requests(items));
    ChunkIsSlice(Requests(items), 0);
    ChunkIsSlice(Requests(items), 1);
    RequestsSlice(items, 0, 25);
    RequestsSlice(items, 25, 49);
    assert items[0..25] == items[..25] && items[25..49] == items[25..];
    ChunkLoopFromEmpty(items);
    var mid := be.(writeReplies := [Written([])]);
    var end := be.(writeReplies := []);
    assert |chunks[0]| == 25 && |chunks[1]| == 24;
    var first := WriteChunk(bo, chunks[0], 0, 0, be);
    assert be.writeReplies[1..] == mid.writeReplies;
    assert WriteChunk(bo, [], 0, 0, mid) == Run(Ok, [], mid);
    assert first == Run(Ok, [BatchWriteItemCall(chunks[0])], mid);
    var second := WriteChunk(bo, chunks[1], 0, 0, mid);
    assert mid.writeReplies[1..] == end.writeReplies;
    assert WriteChunk(bo, [], 0, 0, end) == Run(Ok, [], end);
    assert second == Run(Ok, [BatchWriteItemCall(chunks[1])], end);
    var r := BatchWrite(bo, items, be);
    assert |r.chunkRuns| == 2;
    assert r.chunkRuns[0] == first;
    assert r.chunkRuns[1] == second;
    assert r.chunkRuns == [first, second];
    assert r.chunkRuns[1..] == [second];
    assert BatchCalls(r.chunkRuns) == first.calls + BatchCalls([second]);
    assert BatchCalls([second]) == second.calls + BatchCalls([]);
  }

  /** The code as written asks the sleeper, which counts milliseconds, for
      `int(time.Second) * attempt`: a billion milliseconds (over eleven days)
      on the second throttled attempt. And a chunk that has already slept for
      more than three minutes of milliseconds is not stopped: it keeps
      retrying until it has slept 180 billion milliseconds. */
  lemma AsWrittenUnitsMismatch(pending: seq<WriteRequest>)
    requires |pending| > 0
    ensures BackoffRequest(AsWritten, AwsError(Throttling, ""), 1, 0) == 1_000_000_000
    ensures var be := Backend([], [], [WriteError(AwsError(ProvisionedThroughputExceeded, "")), Written([])], [], [1]);
      WriteChunk(AsWritten, pending, 5, 180_001, be).outcome == Ok
  {
    var be := Backend([], [], [WriteError(AwsError(ProvisionedThroughputExceeded, "")), Written([])], [], [1]);
    TransientErrorBacksOff(AsWritten, pending, 5, 180_001, be);
    var after := be.(writeReplies := be.writeReplies[1..], sleeps := []);
    assert WriteChunk(AsWritten, pending, 6, 180_002, after).outcome == Ok;
  }

  /** With the constants in milliseconds, a throttled attempt asks for one
      second per attempt, and any error arriving after more than three minutes
      of sleep ends the chunk with "too many retries"; the same scenario that
      keeps retrying as written stops here. */
  lemma IntendedUnitsStopAfterThreeMinutes(pending: seq<WriteRequest>, attempt: nat, elapsed: int, be: Backend)
    requires |pending| > 0
    ensures BackoffRequest(Intended, AwsError(Throttling, ""), attempt, elapsed) == 1000 * attempt
    ensures elapsed > 3 * 60 * 1000 && |be.writeReplies| > 0 && be.writeReplies[0].WriteError? ==>
      WriteChunk(Intended, pending, attempt, elapsed, be).outcome == Fail(TooManyRetries(be.writeReplies[0].cause))
    ensures var scenario := Backend([], [], [WriteError(AwsError(ProvisionedThroughputExceeded, "")), Written([])], [], [1]);
      WriteChunk(Intended, pending, 5, 180_001, scenario).outcome.Fail?
  {
    if elapsed > 3 * 60 * 1000 && |be.writeReplies| > 0 && be.writeReplies[0].WriteError? {
      CeilingCheckedFirst(Intended, pending, attempt, elapsed, be);
    }
  }
}
