/** Capacity updates and readiness polling of dynamodb.go: `UpdateCapacity`
    validates the requested units, issues UpdateTable and then waits with
    `WaitForReadyTable`, which describes the table until it reports ACTIVE,
    sleeping between polls. */
module TableReadiness {
  import opened Wrappers
  import opened TableProvisioning
  import opened DynamoDB

  /** The polling loop of `WaitForReadyTable` (dynamodb.go:183-200) from
      iteration `attempt`, `elapsed` being the sleep reported so far. Each
      iteration describes the table (`DescribeTable`, dynamodb.go:58-69); a
      describe error ends the wait, ACTIVE ends it successfully, any other
      status sleeps for `elapsed * attempt` and polls again. */
  function Poll(attempt: nat, elapsed: int, be: Backend): (r: Run)
    ensures r.outcome.Fail? ==> r.outcome.error.DescribeFailed?
    ensures r.calls != [] ==> r.calls[0] == DescribeTableCall
    decreases |be.describeReplies|
  {
    if |be.describeReplies| == 0 then Run(ScriptEnded, [], be)
    else
      var after := be.(describeReplies := be.describeReplies[1..]);
      match be.describeReplies[0]
      case Failure(cause) => Run(Fail(DescribeFailed(cause)), [DescribeTableCall], after)
      case Success(table) =>
        if table.status == TableStatusActive then Run(Ok, [DescribeTableCall], after)
        else if |be.sleeps| == 0 then Run(ScriptEnded, [DescribeTableCall], after)
        else
          var next := Poll(attempt + 1, elapsed + be.sleeps[0], be.(describeReplies := be.describeReplies[1..], sleeps := be.sleeps[1..]));
          Then(DescribeTableCall, Then(SleepCall(elapsed * attempt), next))
  }

  function WaitForReadyTable(be: Backend): (r: Run)
    ensures r.outcome.Fail? ==> r.outcome.error.DescribeFailed?
  {
    Poll(0, 0, be)
  }

  /** The first `k` descriptions succeed and report a status other than
      ACTIVE. */
  predicate NotReadyFor(be: Backend, k: nat)
  {
    && k <= |be.describeReplies|
    && forall i :: 0 <= i < k ==>
         be.describeReplies[i].Success? && be.describeReplies[i].value.status != TableStatusActive
  }

  /** `k` non-ACTIVE descriptions are followed by an ACTIVE one, and the
      sleeper has a duration for each of the `k` waits. */
  predicate ReadyAfter(be: Backend, k: nat)
  {
    && NotReadyFor(be, k)
    && k < |be.describeReplies|
    && be.describeReplies[k].Success?
    && be.describeReplies[k].value.status == TableStatusActive
    && |be.sleeps| >= k
  }

  lemma NotReadyShift(be: Backend, after: Backend, k: nat)
    requires NotReadyFor(be, k + 1)
    requires after.describeReplies == be.describeReplies[1..]
    ensures NotReadyFor(after, k)
  {
    assert forall i :: 0 <= i < k ==> after.describeReplies[i] == be.describeReplies[i + 1];
  }

  /** A non-ACTIVE description with a sleeper duration available is answered
      by a describe, a sleep for `elapsed * attempt`, and the next iteration
      with the duration added to `elapsed`. */
  lemma PollStep(attempt: nat, elapsed: int, be: Backend)
    requires |be.describeReplies| > 0 && |be.sleeps| > 0
    requires be.describeReplies[0].Success? && be.describeReplies[0].value.status != TableStatusActive
    ensures var after := be.(describeReplies := be.describeReplies[1..], sleeps := be.sleeps[1..]);
      var r := Poll(attempt, elapsed, be);
      var next := Poll(attempt + 1, elapsed + be.sleeps[0], after);
      && r.outcome == next.outcome
      && r.rest == next.rest
      && r.calls == [DescribeTableCall, SleepCall(elapsed * attempt)] + next.calls
      && CountDescribes(r.calls) == 1 + CountDescribes(next.calls)
      && SleepArgs(r.calls) == [elapsed * attempt] + SleepArgs(next.calls)
  {
    var after := be.(describeReplies := be.describeReplies[1..], sleeps := be.sleeps[1..]);
    var next := Poll(attempt + 1, elapsed + be.sleeps[0], after);
    var prefix := [DescribeTableCall, SleepCall(elapsed * attempt)];
    assert Poll(attempt, elapsed, be).calls == prefix + next.calls;
    CountDescribesAppend(prefix, next.calls);
    SleepArgsAppend(prefix, next.calls);
  }

  /** A non-ACTIVE description in front of a script that becomes ready after
      `k` waits makes one that becomes ready after `k + 1`. */
  lemma ReadyAfterCons(be: Backend, after: Backend, k: nat)
    requires |be.describeReplies| > 0 && |be.sleeps| > 0
    requires be.describeReplies[0].Success? && be.describeReplies[0].value.status != TableStatusActive
    requires after.describeReplies == be.describeReplies[1..] && after.sleeps == be.sleeps[1..]
    requires ReadyAfter(after, k)
    ensures ReadyAfter(be, k + 1)
  {
    assert forall i :: 0 < i <= k + 1 ==> be.describeReplies[i] == after.describeReplies[i - 1];
  }

  /** A describe error or an ACTIVE description ends the wait after that one
      describe, with no sleep. */
  lemma PollStops(attempt: nat, elapsed: int, be: Backend)
    requires |be.describeReplies| > 0
    requires be.describeReplies[0].Failure? || be.describeReplies[0].value.status == TableStatusActive
    ensures var r := Poll(attempt, elapsed, be);
      && r.outcome == (if be.describeReplies[0].Failure? then Fail(DescribeFailed(be.describeReplies[0].error)) else Ok)
      && r.calls == [DescribeTableCall]
      && r.rest == be.(describeReplies := be.describeReplies[1..])
      && CountDescribes(r.calls) == 1
      && |SleepArgs(r.calls)| == 0
  {
    assert CountDescribes([DescribeTableCall]) == 1 + CountDescribes([]);
    assert SleepArgs([DescribeTableCall]) == SleepArgs([]);
  }

  /** With `k` non-ACTIVE descriptions before an ACTIVE one, the wait succeeds
      after exactly `k + 1` describes and `k` sleeps (none if the table is
      ACTIVE at once). */
  lemma {:induction false} PollsUntilActive(attempt: nat, elapsed: int, be: Backend, k: nat)
    requires ReadyAfter(be, k)
    ensures var r := Poll(attempt, elapsed, be);
      && r.outcome == Ok
      && CountDescribes(r.calls) == k + 1
      && |SleepArgs(r.calls)| == k
      && r.rest.sleeps == be.sleeps[k..]
      && r.rest.describeReplies == be.describeReplies[k + 1..]
    decreases k
  {
    if k > 0 {
      var after := be.(describeReplies := be.describeReplies[1..], sleeps := be.sleeps[1..]);
      PollStep(attempt, elapsed, be);
      NotReadyShift(be, after, k - 1);
      PollsUntilActive(attempt + 1, elapsed + be.sleeps[0], after, k - 1);
      assert after.sleeps[k - 1..] == be.sleeps[k..];
      assert after.describeReplies[k..] == be.describeReplies[k + 1..];
    } else {
      PollStops(attempt, elapsed, be);
    }
  }

  /** The sleeps the polling loop asks for over `k` non-ACTIVE iterations
      starting from (`attempt`, `elapsed`), when the sleeper reports the
      durations `s`: each request is the elapsed time so far times the
      iteration number. */
  function SleepSchedule(elapsed: int, attempt: nat, s: seq<int>, k: nat): seq<int>
    requires k <= |s|
    decreases k
  {
    if k == 0 then [] else [elapsed * attempt] + SleepSchedule(elapsed + s[0], attempt + 1, s[1..], k - 1)
  }

  /** While the table is not ready, the sleeper is asked for exactly the
      schedule above. */
  lemma {:induction false} PollSleepRequests(attempt: nat, elapsed: int, be: Backend, k: nat)
    requires NotReadyFor(be, k) && |be.sleeps| >= k
    ensures var args := SleepArgs(Poll(attempt, elapsed, be).calls);
      |args| >= k && args[..k] == SleepSchedule(elapsed, attempt, be.sleeps, k)
    decreases k
  {
    if k > 0 {
      var after := be.(describeReplies := be.describeReplies[1..], sleeps := be.sleeps[1..]);
      var args := SleepArgs(Poll(attempt, elapsed, be).calls);
      var nextArgs := SleepArgs(Poll(attempt + 1, elapsed + be.sleeps[0], after).calls);
      PollStep(attempt, elapsed, be);
      NotReadyShift(be, after, k - 1);
      PollSleepRequests(attempt + 1, elapsed + be.sleeps[0], after, k - 1);
      PrefixCons(elapsed * attempt, nextArgs, args, k);
    }
  }

  lemma PrefixCons(x: int, rest: seq<int>, whole: seq<int>, k: nat)
    requires 0 < k <= |rest| + 1 && whole == [x] + rest
    ensures whole[..k] == [x] + rest[..k - 1]
  {
  }

  /** The `j`-th request of the schedule is the time slept before it
      multiplied by its attempt number; starting from attempt 0, the first
      request is therefore always zero. */
  lemma {:induction false} SleepScheduleClosedForm(elapsed: int, attempt: nat, s: seq<int>, k: nat)
    requires k <= |s|
    ensures var sched := SleepSchedule(elapsed, attempt, s, k);
      && |sched| == k
      && forall j :: 0 <= j < k ==> sched[j] == (elapsed + Sum(s[..j])) * (attempt + j)
    decreases k
  {
    if k > 0 {
      SleepScheduleClosedForm(elapsed + s[0], attempt + 1, s[1..], k - 1);
      ShiftRequests(SleepSchedule(elapsed, attempt, s, k), SleepSchedule(elapsed + s[0], attempt + 1, s[1..], k - 1),
        elapsed, attempt, s, s[1..], k);
    }
  }

  /** If the requests after the first follow the formula from the next
      iteration on, and the first is `elapsed * attempt`, all of them follow
      it from this iteration on. */
  lemma ShiftRequests(args: seq<int>, nextArgs: seq<int>, elapsed: int, attempt: nat, s: seq<int>, t: seq<int>, k: nat)
    requires 0 < k <= |s| && t == s[1..]
    requires args == [elapsed * attempt] + nextArgs && |nextArgs| >= k - 1
    requires forall j :: 0 <= j < k - 1 ==>
      nextArgs[j] == (elapsed + s[0] + Sum(t[..j])) * (attempt + 1 + j)
    ensures |args| >= k
    ensures forall j :: 0 <= j < k ==> args[j] == (elapsed + Sum(s[..j])) * (attempt + j)
  {
    forall j | 0 <= j < k
      ensures args[j] == (elapsed + Sum(s[..j])) * (attempt + j)
    {
      if j == 0 {
        assert s[..0] == [];
      } else {
        assert args[j] == nextArgs[j - 1];
        assert s[..j][1..] == s[1..][..j - 1];
        assert Sum(s[..j]) == s[0] + Sum(s[1..][..j - 1]);
        assert attempt + j == attempt + 1 + (j - 1);
      }
    }
  }

  /** A describe error after `k` non-ACTIVE descriptions ends the wait with
      that error, after `k` sleeps. */
  lemma {:induction false} PollPropagatesFirstError(attempt: nat, elapsed: int, be: Backend, k: nat)
    requires NotReadyFor(be, k) && k < |be.describeReplies| && be.describeReplies[k].Failure?
    requires |be.sleeps| >= k
    ensures var r := Poll(attempt, elapsed, be);
      && r.outcome == Fail(DescribeFailed(be.describeReplies[k].error))
      && CountDescribes(r.calls) == k + 1
      && |SleepArgs(r.calls)| == k
    decreases k
  {
    if k > 0 {
      var after := be.(describeReplies := be.describeReplies[1..], sleeps := be.sleeps[1..]);
      PollStep(attempt, elapsed, be);
      NotReadyShift(be, after, k - 1);
      assert after.describeReplies[k - 1] == be.describeReplies[k];
      PollPropagatesFirstError(attempt + 1, elapsed + be.sleeps[0], after, k - 1);
    } else {
      PollStops(attempt, elapsed, be);
    }
  }

  /** Conversely, the wait succeeds only after an ACTIVE description preceded
      solely by non-ACTIVE ones, one per sleep. */
  lemma {:induction false} PollSucceedsOnlyWhenActive(attempt: nat, elapsed: int, be: Backend)
    ensures var r := Poll(attempt, elapsed, be);
      r.outcome == Ok ==> ReadyAfter(be, |SleepArgs(r.calls)|)
    decreases |be.describeReplies|
  {
    var r := Poll(attempt, elapsed, be);
    if r.outcome == Ok && be.describeReplies[0].value.status != TableStatusActive {
      var after := be.(describeReplies := be.describeReplies[1..], sleeps := be.sleeps[1..]);
      var next := Poll(attempt + 1, elapsed + be.sleeps[0], after);
      PollStep(attempt, elapsed, be);
      PollSucceedsOnlyWhenActive(attempt + 1, elapsed + be.sleeps[0], after);
      ReadyAfterCons(be, after, |SleepArgs(next.calls)|);
    } else if r.outcome == Ok {
      assert r.calls == [DescribeTableCall];
    }
  }

  /** `UpdateCapacity` (dynamodb.go:71-98). A zero read or write capacity is
      rejected before any call; negative units are passed on. Otherwise one
      UpdateTable call is made with the requested units; its error is
      returned, and on success the result is that of waiting for the table to
      become ready. */
  function UpdateCapacity(capacity: Capacity, be: Backend): (r: Run)
    ensures capacity.read == 0 || capacity.write == 0 ==>
      r == Run(Fail(InvalidCapacity(capacity.read, capacity.write)), [], be)
    ensures (r.outcome.Fail? && r.outcome.error.InvalidCapacity?) <==> (capacity.read == 0 || capacity.write == 0)
    ensures capacity.read != 0 && capacity.write != 0 && |be.updateReplies| > 0 ==>
      var call := UpdateTableCall(capacity.read, capacity.write);
      var after := be.(updateReplies := be.updateReplies[1..]);
      && |r.calls| > 0
      && r.calls[0] == call
      && (be.updateReplies[0].Some? ==> r == Run(Fail(UpdateFailed(be.updateReplies[0].value)), [call], after))
      && (be.updateReplies[0].None? ==> r == Then(call, WaitForReadyTable(after)))
  {
    if capacity.read == 0 || capacity.write == 0 then
      Run(Fail(InvalidCapacity(capacity.read, capacity.write)), [], be)
    else if |be.updateReplies| == 0 then Run(ScriptEnded, [], be)
    else
      var call := UpdateTableCall(capacity.read, capacity.write);
      var after := be.(updateReplies := be.updateReplies[1..]);
      match be.updateReplies[0]
      case Some(cause) => Run(Fail(UpdateFailed(cause)), [call], after)
      case None => Then(call, WaitForReadyTable(after))
  }
}
