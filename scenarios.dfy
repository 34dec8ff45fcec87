/** What the tests of `assignRole` pin down, stated over every run that
    `Installer.AssignRole` can return: a run `t` settled against the
    decisions `ds` the loop makes of the scripted responses `s`. */
module Scenarios {
  import opened Text
  import opened Errors
  import opened Classifier
  import opened RetryPolicy
  import opened RoleAssignments
  import opened Arc

  /** A success stops the loop. */
  lemma DecideCreated()
    ensures Decide(Created) == Stop(Success)
  {
  }

  /** A missing principal is retried, whatever the message. */
  lemma DecideNotFound(message: string)
    ensures Decide(Failed(ResponseError(NotFoundCode, message))) == Retry(ResponseError(NotFoundCode, message))
  {
    ClassifyResponseError(NotFoundCode, message);
  }

  /** An existing assignment stops the loop with success, whatever the message. */
  lemma DecideExists(message: string)
    ensures Decide(Failed(ResponseError(ExistsCode, message))) == Stop(Success)
  {
    ClassifyResponseError(ExistsCode, message);
  }

  /** The loop stops at the first decisive decision that no cancellation
      precedes. */
  lemma StopsAtFirstDecisive(ds: seq<Decision>, cancel: CancelPoint, t: Trace, n: nat, o: Outcome)
    requires |ds| == MaxAttempts && Settled(ds, cancel, t)
    requires 1 <= n <= MaxAttempts && AllRetry(ds, n - 1) && NotCancelledUpTo(cancel, n)
    requires ds[n - 1] == Stop(o)
    ensures t == Trace(o, n, Schedule(n - 1))
  {
    SettledByStop(ds, cancel, n, o);
    SettledUnique(ds, cancel, t, Trace(o, n, Schedule(n - 1)));
  }

  /** Five retries in a row end the loop with the exhaustion error. */
  lemma ExhaustsAfterFiveRetries(ds: seq<Decision>, cancel: CancelPoint, t: Trace)
    requires |ds| == MaxAttempts && Settled(ds, cancel, t)
    requires AllRetry(ds, MaxAttempts) && NotCancelledUpTo(cancel, MaxAttempts)
    ensures t == Trace(ExhaustedFailure(ds[MaxAttempts - 1].error), MaxAttempts, Schedule(MaxAttempts - 1))
  {
    SettledByExhaustion(ds, cancel, ds[MaxAttempts - 1].error);
    SettledUnique(ds, cancel, t, Trace(ExhaustedFailure(ds[MaxAttempts - 1].error), MaxAttempts, Schedule(MaxAttempts - 1)));
  }

  /** The first `n` calls, which find no principal, are all retried. */
  lemma NotFoundRetried(ds: seq<Decision>, s: Script, message: string, n: nat)
    requires Observes(ds, s) && n <= MaxAttempts
    requires forall i :: 0 <= i < n ==> s.At(i) == Failed(ResponseError(NotFoundCode, message))
    ensures AllRetry(ds, n)
    ensures forall i :: 0 <= i < n ==> ds[i] == Retry(ResponseError(NotFoundCode, message))
  {
    DecideNotFound(message);
    forall i | 0 <= i < n
      ensures ds[i] == Retry(ResponseError(NotFoundCode, message))
    {
      assert ds[i] == Decide(s.At(i));
    }
  }

  /** `TestAssignRole_Success`: a first call that succeeds ends the run with
      no error after exactly one call. */
  lemma SucceedsFirstTime(s: Script, ds: seq<Decision>, cancel: CancelPoint, t: Trace)
    requires Observes(ds, s) && Settled(ds, cancel, t)
    requires s.At(0) == Created
    ensures t == Trace(Success, 1, [])
  {
    assert ds[0] == Decide(s.At(0));
    StopsAtFirstDecisive(ds, cancel, t, 1, Success);
  }

  /** `TestAssignRole_PrincipalNotFound_RetriesAndSucceeds`: two missing
      principal errors and then a success take three calls, no error, and
      5s + 10s = 15s of waiting. */
  lemma RetriesThenSucceeds(s: Script, ds: seq<Decision>, t: Trace, message: string)
    requires Observes(ds, s) && Settled(ds, NotCancelled, t)
    requires forall i :: 0 <= i < 2 ==> s.At(i) == Failed(ResponseError(NotFoundCode, message))
    requires s.At(2) == Created
    ensures t == Trace(Success, 3, [5, 10])
    ensures Sum(t.waits) == 15
  {
    NotFoundRetried(ds, s, message, 2);
    assert ds[2] == Decide(s.At(2));
    StopsAtFirstDecisive(ds, NotCancelled, t, 3, Success);
    ScheduleSum(2);
    ScheduleValues();
  }

  /** `TestAssignRole_ExponentialBackoff`: three missing principal errors and
      then a success take four calls, with waits of 5s, 10s and 20s between
      them. */
  lemma BacksOffExponentially(s: Script, ds: seq<Decision>, t: Trace, message: string)
    requires Observes(ds, s) && Settled(ds, NotCancelled, t)
    requires forall i :: 0 <= i < 3 ==> s.At(i) == Failed(ResponseError(NotFoundCode, message))
    requires s.At(3) == Created
    ensures t == Trace(Success, 4, [5, 10, 20])
  {
    NotFoundRetried(ds, s, message, 3);
    assert ds[3] == Decide(s.At(3));
    StopsAtFirstDecisive(ds, NotCancelled, t, 4, Success);
    ScheduleValues();
  }

  /** `TestAssignRole_PrincipalNotFound_ExhaustsRetries`: a principal that is
      never found costs five calls and ends in an error that says so and
      names the replication delay. */
  lemma ExhaustsRetries(s: Script, ds: seq<Decision>, t: Trace, message: string)
    requires Observes(ds, s) && Settled(ds, NotCancelled, t)
    requires forall i :: 0 <= i < MaxAttempts ==> s.At(i) == Failed(ResponseError(NotFoundCode, message))
    ensures t == Trace(ExhaustedFailure(ResponseError(NotFoundCode, message)), 5, [5, 10, 20, 40])
    ensures Contains(Message(t.outcome.err), ExhaustedLead)
    ensures Contains(Message(t.outcome.err), ReplicationDelay)
  {
    NotFoundRetried(ds, s, message, MaxAttempts);
    ExhaustsAfterFiveRetries(ds, NotCancelled, t);
    ScheduleValues();
    ExhaustedMessage(ResponseError(NotFoundCode, message));
  }

  /** `TestAssignRole_ForbiddenError_NoRetry`: "403 Forbidden: insufficient
      permissions" fails at once, after one call, with an error that
      carries the cause.
      The text is passed in pieces, fixed by the precondition, so that the
      verifier reasons about each piece rather than the whole literal. */
  lemma ForbiddenNotRetried(s: Script, ds: seq<Decision>, cancel: CancelPoint, t: Trace,
                            status: string, detail: string)
    requires status == "403 Forbidden: " && detail == "insufficient permissions"
    requires Observes(ds, s) && Settled(ds, cancel, t)
    requires s.At(0) == Failed(PlainError(status + detail))
    ensures t == Trace(PermissionFailure(PlainError(status + detail)), 1, [])
    ensures Contains(Message(t.outcome.err), detail)
  {
    ForbiddenIsFatal(status, detail);
    assert ds[0] == Decide(s.At(0));
    StopsAtFirstDecisive(ds, cancel, t, 1, PermissionFailure(PlainError(status + detail)));
    FailureMessages(PlainError(status + detail));
    ContainsSuffix(status, detail);
    ContainsTransitive(Message(t.outcome.err), status + detail, detail);
  }

  /** `TestAssignRole_RoleAssignmentExists_ReturnsSuccess`: an assignment
      that already exists counts as success, after one call. */
  lemma ExistingAssignmentSucceeds(s: Script, ds: seq<Decision>, cancel: CancelPoint, t: Trace, message: string)
    requires Observes(ds, s) && Settled(ds, cancel, t)
    requires s.At(0) == Failed(ResponseError(ExistsCode, message))
    ensures t == Trace(Success, 1, [])
  {
    DecideExists(message);
    assert ds[0] == Decide(s.At(0));
    StopsAtFirstDecisive(ds, cancel, t, 1, Success);
  }

  /** `TestAssignRole_ContextCancellation`: a cancellation during the wait
      before attempt `k` ends the run after `k` - 1 calls with an error that
      `errors.Is` recognises as `context.Canceled`. */
  lemma CancellationStops(s: Script, ds: seq<Decision>, t: Trace, message: string, k: nat)
    requires 2 <= k <= MaxAttempts
    requires Observes(ds, s) && Settled(ds, CancelledBefore(k), t)
    requires forall i :: 0 <= i < MaxAttempts ==> s.At(i) == Failed(ResponseError(NotFoundCode, message))
    ensures t == Trace(CancelledFailure(), k - 1, Schedule(k - 2))
    ensures t.outcome.Failure? && Is(t.outcome.err, ContextCanceled)
  {
    NotFoundRetried(ds, s, message, MaxAttempts);
    SettledByCancel(ds, CancelledBefore(k), k - 1);
    SettledUnique(ds, CancelledBefore(k), t, Trace(CancelledFailure(), k - 1, Schedule(k - 2)));
    CanceledOnlyWhenCancelled(ResponseError(NotFoundCode, message));
  }

  /** `TestAssignRole_GenericError_NoRetry`: an unrecognised error fails at
      once, after one call.
      The text is passed in pieces, fixed by the precondition, so that the
      verifier reasons about each piece rather than the whole literal. */
  lemma GenericErrorNotRetried(s: Script, ds: seq<Decision>, cancel: CancelPoint, t: Trace,
                               first: string, rest: string)
    requires first == "some other " && rest == "Azure error"
    requires Observes(ds, s) && Settled(ds, cancel, t)
    requires s.At(0) == Failed(PlainError(first + rest))
    ensures t == Trace(CreateFailure(PlainError(first + rest)), 1, [])
  {
    GenericIsUnclassified(first, rest);
    assert ds[0] == Decide(s.At(0));
    StopsAtFirstDecisive(ds, cancel, t, 1, CreateFailure(PlainError(first + rest)));
  }

  /** Every run makes one to five calls and waits 5s * (2^(calls - 1) - 1)
      in all, never more than 75s. */
  lemma CallsAndWaitsBounded(ds: seq<Decision>, cancel: CancelPoint, t: Trace)
    requires |ds| == MaxAttempts && Settled(ds, cancel, t)
    ensures 1 <= t.calls <= MaxAttempts && |t.waits| == t.calls - 1
    ensures Sum(t.waits) == BaseDelay * (Pow2(t.calls - 1) - 1)
    ensures Sum(t.waits) <= 75
  {
    ScheduleSum(t.calls - 1);
    assert Pow2(t.calls - 1) <= 16 by {
      assert Pow2(4) == 16;
    }
  }

  /** Only a missing principal is retried: every call before the last one
      failed with an error classified as retryable. */
  lemma OnlyNotFoundIsRetried(s: Script, ds: seq<Decision>, cancel: CancelPoint, t: Trace)
    requires Observes(ds, s) && Settled(ds, cancel, t)
    ensures forall i :: 0 <= i < t.calls - 1 ==>
      s.At(i).Failed? && Classify(s.At(i).error) == RetryableNotFound
  {
    forall i | 0 <= i < t.calls - 1
      ensures s.At(i).Failed? && Classify(s.At(i).error) == RetryableNotFound
    {
      assert ds[i] == Decide(s.At(i));
      DecidesRetry(s.At(i));
    }
  }

  /** The run succeeds exactly when its last call succeeded or found the
      assignment already there. */
  lemma SuccessIffLastSatisfied(s: Script, ds: seq<Decision>, cancel: CancelPoint, t: Trace)
    requires Observes(ds, s) && Settled(ds, cancel, t)
    ensures t.outcome == Success <==>
      (s.At(t.calls - 1) == Created
       || (s.At(t.calls - 1).Failed? && Classify(s.At(t.calls - 1).error) == AlreadySatisfied))
  {
    assert ds[t.calls - 1] == Decide(s.At(t.calls - 1));
    SettledSuccess(ds, cancel, t);
    DecidesSuccess(s.At(t.calls - 1));
  }

  /** `errors.Is(err, context.Canceled)` holds exactly for the runs the
      cancellation cut short. */
  lemma CanceledIffCancelled(s: Script, ds: seq<Decision>, cancel: CancelPoint, t: Trace)
    requires Observes(ds, s) && Settled(ds, cancel, t)
    ensures (t.outcome.Failure? && Is(t.outcome.err, ContextCanceled)) <==> t.outcome == CancelledFailure()
    ensures t.outcome == CancelledFailure() <==> t.calls < MaxAttempts && ds[t.calls - 1].Retry?
    ensures t.outcome == CancelledFailure() ==> cancel == CancelledBefore(t.calls + 1)
  {
    var r := s.At(t.calls - 1);
    assert ds[t.calls - 1] == Decide(r);
    if r.Failed? {
      CanceledOnlyWhenCancelled(r.error);
    } else {
      CanceledOnlyWhenCancelled(PlainError(""));
    }
  }
}
