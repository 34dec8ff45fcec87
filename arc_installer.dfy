/** `Installer.assignRole`: grant a role to a service principal through the
    client's `Create`, retrying while the principal is not yet visible. */
module Arc {
  import opened Text
  import opened Errors
  import opened Classifier
  import opened RetryPolicy
  import opened RoleAssignments

  /** What `assignRole` returns: a nil error, or an error. */
  datatype Outcome = Success | Failure(err: GoError)

  /** How the caller's context is cancelled, as the loop sees it: never, or
      the wait before attempt `attempt` is the first wait that finds the
      context cancelled. A Go context stays cancelled, so a cancellation
      before attempt 1, or during a call, is seen by the next wait. */
  datatype CancelPoint = NotCancelled | CancelledBefore(attempt: nat)

  /** A run of `assignRole`: its outcome, how many times `Create` was called,
      and the waits, in seconds, that ran to completion. */
  datatype Trace = Trace(outcome: Outcome, calls: nat, waits: seq<nat>)

  const PermissionContext: string := "permission denied while assigning role"
  const CreateFailedContext: string := "failed to create role assignment"
  const CancelledContext: string := "context cancelled while waiting to retry role assignment"

  const ExhaustedLead: string := "failed to assign role after"
  const ReplicationDelay: string := "Azure AD replication delay"

  /** The context of the error returned when every attempt found the
      principal missing: "failed to assign role after 5 attempts due to
      Azure AD replication delay". */
  function ExhaustedContext(): string
  {
    ExhaustedLead + ExhaustedTail()
  }

  function ExhaustedTail(): string
  {
    " " + AttemptsPhrase() + " due to " + ReplicationDelay
  }

  /** The number of attempts made: "5 attempts". */
  function AttemptsPhrase(): string
  {
    NatToString(MaxAttempts) + " attempts"
  }

  /** The error for a permission failure: its message is the context, ": ",
      then the text of the error `Create` returned, which `errors.Is` finds. */
  function PermissionFailure(e: CreateError): (r: Outcome)
    ensures r.Failure? && Is(r.err, AzureError(e))
    ensures Message(r.err) == PermissionContext + ": " + ErrorText(e)
  {
    Failure(Wrapped(PermissionContext, AzureError(e)))
  }

  /** The error for an unclassified failure, built the same way. */
  function CreateFailure(e: CreateError): (r: Outcome)
    ensures r.Failure? && Is(r.err, AzureError(e))
    ensures Message(r.err) == CreateFailedContext + ": " + ErrorText(e)
  {
    Failure(Wrapped(CreateFailedContext, AzureError(e)))
  }

  /** The error after the last retry, wrapping the last error. */
  function ExhaustedFailure(e: CreateError): (r: Outcome)
    ensures r.Failure? && Is(r.err, AzureError(e))
    ensures Message(r.err) == ExhaustedContext() + ": " + ErrorText(e)
  {
    Failure(Wrapped(ExhaustedContext(), AzureError(e)))
  }

  /** The error for a cancelled wait, wrapping `context.Canceled`. */
  function CancelledFailure(): (r: Outcome)
    ensures r.Failure? && Is(r.err, ContextCanceled)
    ensures Message(r.err) == CancelledContext + ": " + Message(ContextCanceled)
  {
    Failure(Wrapped(CancelledContext, ContextCanceled))
  }

  /** The attempt limit is rendered as "5". */
  lemma AttemptCountText()
    ensures NatToString(MaxAttempts) == "5"
  {
  }

  /** The exhaustion context states the number of attempts made. */
  lemma ContextStatesAttempts()
    ensures Contains(ExhaustedContext(), NatToString(MaxAttempts) + " attempts")
  {
    var middle := " " + AttemptsPhrase() + " due to ";
    ContainsInfix(" ", AttemptsPhrase(), " due to ");
    ContainsPrefix(middle, ReplicationDelay);
    ContainsTransitive(ExhaustedTail(), middle, AttemptsPhrase());
    ContainsSuffix(ExhaustedLead, ExhaustedTail());
    ContainsTransitive(ExhaustedContext(), ExhaustedTail(), AttemptsPhrase());
  }

  /** The exhaustion error names the attempt limit, the number of attempts
      and the replication delay, and carries the text of the last error. */
  lemma ExhaustedMessage(e: CreateError)
    ensures Contains(Message(ExhaustedFailure(e).err), ExhaustedLead)
    ensures Contains(Message(ExhaustedFailure(e).err), NatToString(MaxAttempts) + " attempts")
    ensures Contains(Message(ExhaustedFailure(e).err), ReplicationDelay)
    ensures Contains(Message(ExhaustedFailure(e).err), ErrorText(e))
  {
    var m := Message(ExhaustedFailure(e).err);
    ContextStatesAttempts();
    ContainsTransitive(m, ExhaustedContext(), NatToString(MaxAttempts) + " attempts");
    WrapContainsContext(ExhaustedContext(), AzureError(e));
    ContainsPrefix(ExhaustedLead, ExhaustedTail());
    ContainsTransitive(m, ExhaustedContext(), ExhaustedLead);
    ContainsSuffix(" " + AttemptsPhrase() + " due to ", ReplicationDelay);
    ContainsSuffix(ExhaustedLead, ExhaustedTail());
    ContainsTransitive(ExhaustedContext(), ExhaustedTail(), ReplicationDelay);
    ContainsTransitive(m, ExhaustedContext(), ReplicationDelay);
    WrapPreservesCause(ExhaustedContext(), AzureError(e));
  }

  /** An operator tells a permission problem or an unknown failure from a
      timing problem by the message alone: neither message is ever the
      exhaustion message, whatever the errors. */
  lemma FailuresDistinguishable(e: CreateError, e': CreateError)
    ensures Message(PermissionFailure(e).err) != Message(ExhaustedFailure(e').err)
    ensures Message(CreateFailure(e).err) != Message(ExhaustedFailure(e').err)
  {
    WrappedMessageAt(ExhaustedContext(), AzureError(e'), 0);
    WrappedMessageAt(ExhaustedContext(), AzureError(e'), 10);
    assert ExhaustedContext()[0] == ExhaustedLead[0] == 'f';
    assert ExhaustedContext()[10] == ExhaustedLead[10] == 'a';
    WrappedMessageAt(PermissionContext, AzureError(e), 0);
    assert PermissionContext[0] == 'p';
    WrappedMessageAt(CreateFailedContext, AzureError(e), 10);
    assert CreateFailedContext[10] == 'c';
  }

  /** The permission and the unclassified errors carry the text of the
      error `Create` returned. */
  lemma FailureMessages(e: CreateError)
    ensures Contains(Message(PermissionFailure(e).err), ErrorText(e))
    ensures Contains(Message(CreateFailure(e).err), ErrorText(e))
  {
    WrapPreservesCause(PermissionContext, AzureError(e));
    WrapPreservesCause(CreateFailedContext, AzureError(e));
  }

  /** `errors.Is(err, context.Canceled)` holds for the cancellation error and
      for no error wrapping a failure of `Create`. */
  lemma CanceledOnlyWhenCancelled(e: CreateError)
    ensures Is(CancelledFailure().err, ContextCanceled)
    ensures !Is(PermissionFailure(e).err, ContextCanceled)
    ensures !Is(CreateFailure(e).err, ContextCanceled)
    ensures !Is(ExhaustedFailure(e).err, ContextCanceled)
  {
    WrapPreservesCause(CancelledContext, ContextCanceled);
    AzureErrorIsNotCanceled(PermissionFailure(e).err);
    AzureErrorIsNotCanceled(CreateFailure(e).err);
    AzureErrorIsNotCanceled(ExhaustedFailure(e).err);
  }

  /** What the loop does after one call of `Create`: stop with an outcome, or
      retry after the error it got. */
  datatype Decision = Stop(outcome: Outcome) | Retry(error: CreateError)

  /** The classifier's verdict turned into the loop's next step: a success or
      an existing assignment stops with success, a permission or unknown
      failure stops with that error wrapped, a missing principal retries.
      Whatever fails, the failure has the error `Create` returned as its cause. */
  function Decide(r: Response): (d: Decision)
    ensures d.Stop? && d.outcome.Failure? ==> r.Failed? && Is(d.outcome.err, AzureError(r.error))
    ensures d.Retry? ==> r.Failed? && d.error == r.error
  {
    match r
    case Created => Stop(Success)
    case Failed(e) =>
      match Classify(e)
      case AlreadySatisfied => Stop(Success)
      case Fatal => Stop(PermissionFailure(e))
      case FatalUnclassified => Stop(CreateFailure(e))
      case RetryableNotFound => Retry(e)
  }

  /** A response stops the loop with success exactly when it is a success
      or says the assignment already exists. */
  lemma DecidesSuccess(r: Response)
    ensures Decide(r) == Stop(Success) <==>
      (r == Created || (r.Failed? && Classify(r.error) == AlreadySatisfied))
  {
  }

  /** A response is retried exactly when it is a failure classified as a
      missing principal, and the retry keeps that failure. */
  lemma DecidesRetry(r: Response)
    ensures Decide(r).Retry? <==> (r.Failed? && Classify(r.error) == RetryableNotFound)
    ensures Decide(r).Retry? ==> Decide(r).error == r.error
  {
  }

  /** The parameters sent to `Create`: the principal is always a service principal. */
  function BuildParameters(principalId: string, roleId: string): (p: Parameters)
    ensures p.principalType == ServicePrincipal
    ensures p.principalId == principalId && p.roleDefinitionId == roleId
  {
    Parameters(principalId, roleId, ServicePrincipal)
  }

  /** `ds` is what the loop makes of each of the first five responses of `s`. */
  predicate Observes(ds: seq<Decision>, s: Script)
  {
    |ds| == MaxAttempts
    && forall i {:trigger s.At(i)} :: 0 <= i < MaxAttempts ==> ds[i] == Decide(s.At(i))
  }

  /** A client answering from `s` is observed through exactly one list of decisions. */
  lemma {:induction false} ObservesUnique(ds: seq<Decision>, ds': seq<Decision>, s: Script)
    requires Observes(ds, s) && Observes(ds', s)
    ensures ds == ds'
  {
    forall i | 0 <= i < MaxAttempts
      ensures ds[i] == ds'[i]
    {
      assert ds[i] == Decide(s.At(i));
    }
  }

  /** The first `n` decisions all ask for a retry. */
  predicate AllRetry(ds: seq<Decision>, n: nat)
    requires n <= |ds|
  {
    forall i :: 0 <= i < n ==> ds[i].Retry?
  }

  /** No cancellation interrupts the waits before attempts 2 to `n`. */
  predicate NotCancelledUpTo(cancel: CancelPoint, n: nat)
  {
    !(cancel.CancelledBefore? && 2 <= cancel.attempt <= n)
  }

  /** `t` settles a run whose decisions are `ds`: every call but the last was
      retried, no wait between them was cancelled, the waits follow the
      schedule, and the outcome is the one the last decision, the attempt
      limit, or the cancellation of the wait after the last call leaves. */
  predicate Settled(ds: seq<Decision>, cancel: CancelPoint, t: Trace)
    requires |ds| == MaxAttempts
  {
    1 <= t.calls <= MaxAttempts
    && AllRetry(ds, t.calls - 1)
    && NotCancelledUpTo(cancel, t.calls)
    && t.waits == Schedule(t.calls - 1)
    && match ds[t.calls - 1]
       case Stop(o) => t.outcome == o
       case Retry(e) =>
         if t.calls == MaxAttempts then t.outcome == ExhaustedFailure(e)
         else cancel == CancelledBefore(t.calls + 1) && t.outcome == CancelledFailure()
  }

  /** The rest of a run from attempt `k` on, starting with the wait before it
      when `k` > 1; `last` is the error of the attempt before. This is the
      loop read as a recursion, one attempt per call. */
  function RunFrom(ds: seq<Decision>, cancel: CancelPoint, k: nat, last: Option<CreateError>): Trace
    requires |ds| == MaxAttempts
    requires 1 <= k <= MaxAttempts + 1
    requires k > 1 ==> last.Some?
    decreases MaxAttempts + 1 - k
  {
    if k > MaxAttempts then Trace(ExhaustedFailure(last.value), 0, [])
    else if k > 1 && cancel == CancelledBefore(k) then Trace(CancelledFailure(), 0, [])
    else
      var w := if k > 1 then [Backoff(k)] else [];
      match ds[k - 1]
      case Stop(o) => Trace(o, 1, w)
      case Retry(e) =>
        var t := RunFrom(ds, cancel, k + 1, Some(e));
        Trace(t.outcome, 1 + t.calls, w + t.waits)
  }

  /** The run of `assignRole` when the client's responses are decided as `ds`. */
  function AssignRoleRun(ds: seq<Decision>, cancel: CancelPoint): Trace
    requires |ds| == MaxAttempts
  {
    RunFrom(ds, cancel, 1, None)
  }

  /** A decisive decision at call `n` settles the run with its outcome. */
  lemma SettledByStop(ds: seq<Decision>, cancel: CancelPoint, n: nat, o: Outcome)
    requires |ds| == MaxAttempts && 1 <= n <= MaxAttempts
    requires AllRetry(ds, n - 1) && NotCancelledUpTo(cancel, n) && ds[n - 1] == Stop(o)
    ensures Settled(ds, cancel, Trace(o, n, Schedule(n - 1)))
  {
  }

  /** A cancellation of the wait after retried call `n` settles the run with
      the cancellation error. */
  lemma SettledByCancel(ds: seq<Decision>, cancel: CancelPoint, n: nat)
    requires |ds| == MaxAttempts && 1 <= n < MaxAttempts
    requires AllRetry(ds, n) && NotCancelledUpTo(cancel, n) && cancel == CancelledBefore(n + 1)
    ensures Settled(ds, cancel, Trace(CancelledFailure(), n, Schedule(n - 1)))
  {
  }

  /** Five retried calls settle the run with the exhaustion error, which
      wraps the error of the last call. */
  lemma SettledByExhaustion(ds: seq<Decision>, cancel: CancelPoint, e: CreateError)
    requires |ds| == MaxAttempts
    requires AllRetry(ds, MaxAttempts) && NotCancelledUpTo(cancel, MaxAttempts)
    requires e == ds[MaxAttempts - 1].error
    ensures Settled(ds, cancel, Trace(ExhaustedFailure(e), MaxAttempts, Schedule(MaxAttempts - 1)))
  {
  }

  /** The waits that ran to completion before attempt `k`, when it is
      reached. */
  function Prior(k: nat): seq<nat>
    requires 1 <= k <= MaxAttempts + 1
  {
    Schedule(if k > 1 then k - 2 else 0)
  }

  /** The whole run, when attempts 1 to `k` - 1 asked for a retry and the
      rest of the run is the one from attempt `k` on. */
  function Completion(ds: seq<Decision>, cancel: CancelPoint, k: nat, last: Option<CreateError>): Trace
    requires |ds| == MaxAttempts && 1 <= k <= MaxAttempts + 1 && (k > 1 ==> last.Some?)
  {
    var t := RunFrom(ds, cancel, k, last);
    Trace(t.outcome, k - 1 + t.calls, Prior(k) + t.waits)
  }

  /** Past the fifth attempt the run is over: five calls, four waits, and
      the exhaustion error. */
  lemma CompletionExhausted(ds: seq<Decision>, cancel: CancelPoint, last: Option<CreateError>)
    requires |ds| == MaxAttempts && last.Some?
    ensures Completion(ds, cancel, MaxAttempts + 1, last)
      == Trace(ExhaustedFailure(last.value), MaxAttempts, Schedule(MaxAttempts - 1))
  {
  }

  /** A cancellation of the wait before attempt `k` ends the run after
      `k` - 1 calls. */
  lemma CompletionCancelled(ds: seq<Decision>, cancel: CancelPoint, k: nat, last: Option<CreateError>)
    requires |ds| == MaxAttempts && 2 <= k <= MaxAttempts && last.Some?
    requires cancel == CancelledBefore(k)
    ensures Completion(ds, cancel, k, last) == Trace(CancelledFailure(), k - 1, Schedule(k - 2))
  {
  }

  /** A decisive decision at attempt `k` ends the run after `k` calls. */
  lemma CompletionStop(ds: seq<Decision>, cancel: CancelPoint, k: nat, last: Option<CreateError>, o: Outcome)
    requires |ds| == MaxAttempts && 1 <= k <= MaxAttempts && (k > 1 ==> last.Some?)
    requires !(k > 1 && cancel == CancelledBefore(k)) && ds[k - 1] == Stop(o)
    ensures Completion(ds, cancel, k, last) == Trace(o, k, Schedule(k - 1))
  {
    var w := if k > 1 then [Backoff(k)] else [];
    assert Prior(k) + w == Schedule(k - 1);
  }

  /** One retry at attempt `k`: the run from `k` is that call, its wait, and
      the run from `k` + 1. */
  lemma RunFromRetry(ds: seq<Decision>, cancel: CancelPoint, k: nat, last: Option<CreateError>, e: CreateError)
    requires |ds| == MaxAttempts && 1 <= k <= MaxAttempts && (k > 1 ==> last.Some?)
    requires !(k > 1 && cancel == CancelledBefore(k)) && ds[k - 1] == Retry(e)
    ensures var t' := RunFrom(ds, cancel, k + 1, Some(e));
      RunFrom(ds, cancel, k, last)
      == Trace(t'.outcome, 1 + t'.calls, (if k > 1 then [Backoff(k)] else []) + t'.waits)
  {
  }

  /** The wait before attempt `k` extends the waits before it, ahead of
      the waits `ws` that follow. */
  lemma PriorStep(k: nat, ws: seq<nat>)
    requires 1 <= k <= MaxAttempts
    ensures Prior(k) + ((if k > 1 then [Backoff(k)] else []) + ws) == Prior(k + 1) + ws
  {
    var w := if k > 1 then [Backoff(k)] else [];
    if k > 1 {
      assert Prior(k + 1) == Prior(k) + w;
    }
    assert Prior(k) + (w + ws) == (Prior(k) + w) + ws;
  }

  /** A retry at attempt `k` hands the run on to attempt `k` + 1. */
  lemma CompletionRetry(ds: seq<Decision>, cancel: CancelPoint, k: nat, last: Option<CreateError>, e: CreateError)
    requires |ds| == MaxAttempts && 1 <= k <= MaxAttempts && (k > 1 ==> last.Some?)
    requires !(k > 1 && cancel == CancelledBefore(k)) && ds[k - 1] == Retry(e)
    ensures Completion(ds, cancel, k, last) == Completion(ds, cancel, k + 1, Some(e))
  {
    var w := if k > 1 then [Backoff(k)] else [];
    var t' := RunFrom(ds, cancel, k + 1, Some(e));
    RunFromRetry(ds, cancel, k, last, e);
    PriorStep(k, t'.waits);
  }

  /** A decisive decision at attempt `k`, reached without cancellation,
      settles the run. */
  lemma SettlesByStop(ds: seq<Decision>, cancel: CancelPoint, k: nat, last: Option<CreateError>, o: Outcome)
    requires |ds| == MaxAttempts && 1 <= k <= MaxAttempts && (k > 1 ==> last.Some?)
    requires AllRetry(ds, k - 1) && NotCancelledUpTo(cancel, k - 1)
    requires !(k > 1 && cancel == CancelledBefore(k)) && ds[k - 1] == Stop(o)
    ensures Settled(ds, cancel, Completion(ds, cancel, k, last))
  {
    CompletionStop(ds, cancel, k, last, o);
    SettledByStop(ds, cancel, k, o);
  }

  /** A cancellation of the wait before attempt `k` settles the run. */
  lemma SettlesByCancel(ds: seq<Decision>, cancel: CancelPoint, k: nat, last: Option<CreateError>)
    requires |ds| == MaxAttempts && 2 <= k <= MaxAttempts && last.Some?
    requires AllRetry(ds, k - 1) && NotCancelledUpTo(cancel, k - 1) && cancel == CancelledBefore(k)
    ensures Settled(ds, cancel, Completion(ds, cancel, k, last))
  {
    CompletionCancelled(ds, cancel, k, last);
    SettledByCancel(ds, cancel, k - 1);
  }

  /** Five retries settle the run. */
  lemma SettlesByExhaustion(ds: seq<Decision>, cancel: CancelPoint, last: Option<CreateError>)
    requires |ds| == MaxAttempts && AllRetry(ds, MaxAttempts) && NotCancelledUpTo(cancel, MaxAttempts)
    requires last == Some(ds[MaxAttempts - 1].error)
    ensures Settled(ds, cancel, Completion(ds, cancel, MaxAttempts + 1, last))
  {
    CompletionExhausted(ds, cancel, last);
    SettledByExhaustion(ds, cancel, last.value);
  }

  /** A retry at attempt `k`, reached without cancellation, extends the
      retried and uncancelled prefix by one attempt. */
  lemma RetryExtends(ds: seq<Decision>, cancel: CancelPoint, k: nat)
    requires |ds| == MaxAttempts && 1 <= k <= MaxAttempts
    requires AllRetry(ds, k - 1) && NotCancelledUpTo(cancel, k - 1)
    requires !(k > 1 && cancel == CancelledBefore(k)) && ds[k - 1].Retry?
    ensures AllRetry(ds, k) && NotCancelledUpTo(cancel, k)
  {
  }

  /** Whatever is left of a run after `k` - 1 retried attempts completes it
      into a settled run. */
  lemma {:induction false} RunFromSettles(ds: seq<Decision>, cancel: CancelPoint, k: nat, last: Option<CreateError>)
    requires |ds| == MaxAttempts && 1 <= k <= MaxAttempts + 1
    requires AllRetry(ds, k - 1) && NotCancelledUpTo(cancel, k - 1)
    requires k > 1 ==> last == Some(ds[k - 2].error)
    ensures Settled(ds, cancel, Completion(ds, cancel, k, last))
    decreases MaxAttempts + 1 - k
  {
    if k > MaxAttempts {
      SettlesByExhaustion(ds, cancel, last);
    } else if k > 1 && cancel == CancelledBefore(k) {
      SettlesByCancel(ds, cancel, k, last);
    } else if ds[k - 1].Stop? {
      SettlesByStop(ds, cancel, k, last, ds[k - 1].outcome);
    } else {
      var e := ds[k - 1].error;
      RetryExtends(ds, cancel, k);
      CompletionRetry(ds, cancel, k, last, e);
      RunFromSettles(ds, cancel, k + 1, Some(e));
    }
  }

  /** A settled run succeeds exactly when its last decision stops with
      success: the attempt limit and cancellation only ever end it with an
      error. */
  lemma SettledSuccess(ds: seq<Decision>, cancel: CancelPoint, t: Trace)
    requires |ds| == MaxAttempts && Settled(ds, cancel, t)
    ensures t.outcome == Success <==> ds[t.calls - 1] == Stop(Success)
  {
  }

  /** Two settled runs against the same decisions are the same run. */
  lemma SettledUnique(ds: seq<Decision>, cancel: CancelPoint, t: Trace, t': Trace)
    requires |ds| == MaxAttempts
    requires Settled(ds, cancel, t) && Settled(ds, cancel, t')
    ensures t == t'
  {
  }

  /** The settled runs are exactly the run the recursion computes. */
  lemma SettledIsRun(ds: seq<Decision>, cancel: CancelPoint, t: Trace)
    requires |ds| == MaxAttempts
    ensures Settled(ds, cancel, t) <==> t == AssignRoleRun(ds, cancel)
  {
    RunFromSettles(ds, cancel, 1, None);
    var r := AssignRoleRun(ds, cancel);
    assert Schedule(0) + r.waits == r.waits;
    if Settled(ds, cancel, t) {
      SettledUnique(ds, cancel, t, r);
    }
  }

  class Installer {
    const client: MockRoleAssignmentsClient

    constructor (client: MockRoleAssignmentsClient)
      ensures this.client == client
    {
      this.client := client;
    }

    /** One call of `Create` and what the loop makes of its response: the
        decision observed for attempt `k` + 1. */
    method Attempt(scope: string, assignmentName: string, parameters: Parameters,
                   ghost ds: seq<Decision>, ghost s: Script, ghost k: nat) returns (d: Decision)
      requires client.Valid() && Observes(ds, s)
      requires k < MaxAttempts && k <= client.callCount && s == client.script.Drop(client.callCount - k)
      modifies client
      ensures client.Valid() && client.callCount == old(client.callCount) + 1
      ensures client.sent == old(client.sent) + [CreateCall(scope, assignmentName, parameters)]
      ensures d == ds[k]
    {
      var response := client.Create(scope, assignmentName, parameters);
      assert response == s.At(k);
      d := Decide(response);
    }

    /** Assign role `roleId` on `scope` to `principalId`: up to five calls of
        `Create`, waiting 5s, 10s, 20s, 40s before the second to fifth. The
        display name is used only in log lines. `ds` is what the loop makes
        of the client's responses. */
    method AssignRole(cancel: CancelPoint, principalId: string, roleId: string, scope: string,
                      displayName: string, assignmentName: string)
      returns (outcome: Outcome, calls: nat, waits: seq<nat>, ghost ds: seq<Decision>)
      requires client.Valid()
      modifies client
      ensures client.Valid()
      ensures Observes(ds, client.script.Drop(old(client.callCount)))
      ensures Settled(ds, cancel, Trace(outcome, calls, waits))
      ensures client.callCount == old(client.callCount) + calls
      ensures client.sent == old(client.sent)
        + Repeat(CreateCall(scope, assignmentName, BuildParameters(principalId, roleId)), calls)
      ensures forall i :: |old(client.sent)| <= i < |client.sent| ==>
        client.sent[i].parameters == Parameters(principalId, roleId, ServicePrincipal)
    {
      var parameters := BuildParameters(principalId, roleId);
      ghost var s := client.script.Drop(client.callCount);
      ghost var call := CreateCall(scope, assignmentName, parameters);
      ds := DecisionsOf(s);
      var attempt := 1;
      var lastErr: Option<CreateError> := None;
      calls, waits := 0, [];
      while attempt <= MaxAttempts
        invariant 1 <= attempt <= MaxAttempts + 1
        invariant calls == attempt - 1
        invariant AllRetry(ds, calls)
        invariant attempt > 1 ==> lastErr == Some(ds[attempt - 2].error)
        invariant NotCancelledUpTo(cancel, attempt - 1)
        invariant waits == Prior(attempt)
        invariant client.Valid()
        invariant client.callCount == old(client.callCount) + calls
        invariant client.sent == old(client.sent) + Repeat(call, calls)
        decreases MaxAttempts + 1 - attempt
      {
        if attempt > 1 {
          if cancel == CancelledBefore(attempt) {
            SettledByCancel(ds, cancel, calls);
            outcome := CancelledFailure();
            return;
          }
          waits := waits + [Backoff(attempt)];
        }
        var d := Attempt(scope, assignmentName, parameters, ds, s, attempt - 1);
        calls := calls + 1;
        assert Repeat(call, calls) == Repeat(call, calls - 1) + [call];
        match d {
          case Stop(o) =>
            SettledByStop(ds, cancel, calls, o);
            outcome := o;
            return;
          case Retry(e) =>
            lastErr := Some(e);
        }
        attempt := attempt + 1;
      }
      SettledByExhaustion(ds, cancel, lastErr.value);
      outcome := ExhaustedFailure(lastErr.value);
    }
  }

  /** The decisions the loop makes of the first five responses of `s`. */
  lemma DecisionsOf(s: Script) returns (ds: seq<Decision>)
    ensures Observes(ds, s)
  {
    ds := seq(MaxAttempts, i requires 0 <= i < MaxAttempts => Decide(s.At(i)));
  }
}
