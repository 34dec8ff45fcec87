# Role assignment with retry: a Dafny model

`Installer.assignRole` (package `arc` of AKSFlexNode) grants a role on a
scope to a freshly created service principal. It calls the role-assignments
client's `Create`. Azure AD needs time to make a new principal visible, so
the call is retried:

- each failure is classified from its text;
- `RoleAssignmentExists` counts as success;
- `PrincipalNotFound` is tried again, up to five attempts in all, after
  waits of 5s, 10s, 20s and 40s;
- a permission failure (403 / Forbidden) or any other failure stops at once;
- cancelling the caller's context during a wait stops the loop with an error
  that `errors.Is` recognises as `context.Canceled`.

The implementation of `assignRole` is not part of this model. What it
does is fixed by its tests in `pkg/components/arc/arc_installer_test.go`,
and this project models that tested behaviour.

Modules, one file each:

- `Text` (`text.dfy`): substring search (`strings.Contains`) and decimal
  rendering.
- `Errors` (`errors.dfy`): the errors `Create` returns and the Go error
  chain the caller sees. It covers `Error()` of the mock response error,
  `fmt.Errorf("…: %w")` wrapping and `errors.Is`.
- `Classifier` (`classifier.dfy`): the code token `ERROR CODE: <code>`
  extracted from the error text, and the four verdicts.
- `RetryPolicy` (`retry_policy.dfy`): the attempt limit and the backoff
  `Backoff(k) = 5 * 2^(k-2)` seconds before attempt `k`.
- `RoleAssignments` (`role_assignments.dfy`): the request parameters, and
  the mock client as a class. The mock answers from a script and counts
  and records each `Create` call.
- `Arc` (`arc_installer.dfy`): the attempt loop `Installer.AssignRole` as a
  `while` loop over the mock client. It is specified by the predicate
  `Settled`, which describes in one step which run a sequence of decisions
  and a cancellation point allow. `Settled` is proved to hold for exactly
  one run, the one the recursive reference `AssignRoleRun` computes.
- `Scenarios` (`scenarios.dfy`): each test of `assignRole`, and the general
  properties behind them, stated over every run the loop can return. The
  one exception is `TestAssignRole_PrincipalTypeIsSetCorrectly`. It checks
  the parameters `Create` receives, which only the client records, so it is
  stated by the contract of the method `Installer.AssignRole`: every
  recorded call carries the principal type ServicePrincipal.

How the environment is modelled:

- The clock is modelled as waits, counted in whole seconds.
- A cancellation is a `CancelPoint`: never, or `CancelledBefore(k)`, which
  means the wait before attempt `k` is the first wait that finds the
  context cancelled. That wait is not recorded.
- The client's responses are a `Script`: a list of responses, then one
  response repeated for every later call.

## Model

| member | source | states |
|---|---|---|
| Text.IndexOf | pkg/components/arc/arc_installer_test.go:180-185 | the first index at which the searched text occurs, or none when it occurs nowhere |
| Text.Contains | pkg/components/arc/arc_installer_test.go:180-185 | `strings.Contains(s, t)` holds exactly when `t` occurs in `s` at some index |
| Errors.ErrorText | pkg/components/arc/arc_installer_test.go:44-46 | `Error()` of a create error: a mock response error renders as "RESPONSE 400: 400 Bad Request", a line break, "ERROR CODE: ", its code, a line break and its message; an `errors.New` error is its text |
| Errors.Message | pkg/components/arc/arc_installer_test.go:224 | `err.Error()` of the error the caller receives: a `%w` wrapping prints its context, ": ", then the wrapped error |
| Errors.Is | pkg/components/arc/arc_installer_test.go:310 | `errors.Is(e, target)`: `target` is `e` or lies on its unwrap chain |
| Classifier.ExtractCode | pkg/components/arc/arc_installer_test.go:44-46 | a code is found exactly when the text holds "ERROR CODE: "; the code follows the first such token and runs to the next line break or to the end of the text, and holds no line break |
| Classifier.ClassifyText | pkg/components/arc/arc_installer_test.go:44-50 | the classifier on an error text: RoleAssignmentExists means already satisfied, PrincipalNotFound means retryable, otherwise "403" or "Forbidden" means fatal, and anything else is unclassified |
| Classifier.Classify | pkg/components/arc/arc_installer_test.go:204 | a failure of `Create` is classified from its `Error()` text alone |
| Classifier.ClassifyByCode | pkg/components/arc/arc_installer_test.go:44-50 | a text that carries a code is already satisfied exactly when the code is RoleAssignmentExists, and retryable exactly when it is PrincipalNotFound, whatever else the text says |
| Classifier.CodeRoundTrip | pkg/components/arc/arc_installer_test.go:38-50 | the code of a mock response error is read back unchanged from its rendered text, whatever the message |
| Classifier.ClassifyResponseError | pkg/components/arc/arc_installer_test.go:48-50 | a response error is "already satisfied" exactly when its code is RoleAssignmentExists, and retryable exactly when its code is PrincipalNotFound |
| Classifier.ClassifyPlainError | pkg/components/arc/arc_installer_test.go:204 | an error whose text holds no "ERROR CODE: " token is fatal exactly when it mentions "403" or "Forbidden", and unclassified otherwise |
| Classifier.ForbiddenIsFatal | pkg/components/arc/arc_installer_test.go:202-206 | "403 Forbidden: insufficient permissions" is classified fatal |
| Classifier.GenericIsUnclassified | pkg/components/arc/arc_installer_test.go:326-330 | "some other Azure error" is classified unclassified (fatal, not retried) |
| Errors.WrapPreservesCause | pkg/components/arc/arc_installer_test.go:224-226 | a wrapped error still has its cause on the `errors.Is` chain, and its message contains the cause's message |
| Errors.IsImpliesMessageContains | pkg/components/arc/arc_installer_test.go:224-226 | every error on the unwrap chain has its text inside the outer error's message |
| Errors.AzureErrorIsNotCanceled | pkg/components/arc/arc_installer_test.go:310-312 | `errors.Is(err, context.Canceled)` is false for an error from `Create` wrapped any number of times |
| RetryPolicy.Backoff | pkg/components/arc/arc_installer_test.go:445 | the wait before attempt k is 5s * 2^(k-2); every wait lies between 5s and 40s |
| RetryPolicy.Schedule | pkg/components/arc/arc_installer_test.go:438-452 | the waits before attempts 2 to n+1, in order: the i-th is the backoff of attempt i+2 |
| RetryPolicy.BackoffValues | pkg/components/arc/arc_installer_test.go:445 | the backoff before attempts 2, 3, 4 and 5 is 5s, 10s, 20s and 40s |
| RetryPolicy.ScheduleValues | pkg/components/arc/arc_installer_test.go:438-445 | the schedules after 0 to 4 attempts are [], [5], [5,10], [5,10,20] and [5,10,20,40] |
| RetryPolicy.BackoffDoubles | pkg/components/arc/arc_installer_test.go:445 | each wait is twice the previous one |
| RetryPolicy.ScheduleSum | pkg/components/arc/arc_installer_test.go:140-143 | the first n waits add up to 5s * (2^n - 1) |
| RoleAssignments.MockRoleAssignmentsClient.Create | pkg/components/arc/arc_installer_test.go:23-26 | a call increments the call count, is recorded with its arguments, and is answered by the script entry for that call |
| RoleAssignments.MockRoleAssignmentsClient.constructor | pkg/components/arc/arc_installer_test.go:17-21 | a new mock has made no calls and answers from its script |
| Arc.BuildParameters | pkg/components/arc/arc_installer_test.go:65-70 | the parameters carry the given principal and role, and the principal type ServicePrincipal |
| Arc.Decide | pkg/components/arc/arc_installer_test.go:111-115 | what the loop makes of one response: success or an existing assignment stops with success, a permission or other failure stops with an error whose cause is the error `Create` returned, a missing principal is retried with its error |
| Arc.DecidesSuccess | pkg/components/arc/arc_installer_test.go:261-264 | a response ends the loop with success exactly when it is a success or is classified "already satisfied" |
| Arc.DecidesRetry | pkg/components/arc/arc_installer_test.go:111-114 | a response is retried exactly when it is a failure classified as a missing principal, and the retry keeps that failure |
| Arc.PermissionFailure | pkg/components/arc/arc_installer_test.go:221-226 | the permission error is a failure whose message is its context, ": " and the text of the error `Create` returned, and `errors.Is` finds that error in it |
| Arc.CreateFailure | pkg/components/arc/arc_installer_test.go:345-347 | the error for an unrecognised failure is built the same way, with its own context |
| Arc.ExhaustedFailure | pkg/components/arc/arc_installer_test.go:177-185 | the exhaustion error is a failure whose message is its context, ": " and the text of the last error, and `errors.Is` finds that error in it |
| Arc.CancelledFailure | pkg/components/arc/arc_installer_test.go:307-312 | the cancellation error is a failure that wraps `context.Canceled`, so `errors.Is` finds it, and its message ends in "context canceled" |
| Arc.AttemptCountText | pkg/components/arc/arc_installer_test.go:186-188 | the attempt limit renders as the decimal "5" |
| Arc.ExhaustedMessage | pkg/components/arc/arc_installer_test.go:180-185 | the exhaustion error contains "failed to assign role after", the number of attempts made followed by " attempts", "Azure AD replication delay", and the text of the last error |
| Arc.FailuresDistinguishable | pkg/components/arc/arc_installer_test.go:177-226 | the permission error and the unclassified error never have the same message as the exhaustion error, whatever errors they wrap |
| Arc.FailureMessages | pkg/components/arc/arc_installer_test.go:224-226 | the permission error and the unclassified error contain the text of the error `Create` returned |
| Arc.CanceledOnlyWhenCancelled | pkg/components/arc/arc_installer_test.go:310-312 | `errors.Is(err, context.Canceled)` holds for the cancellation error, and for none of the permission, unclassified and exhaustion errors |
| Arc.Settled | pkg/components/arc/arc_installer_test.go:107-143 | the runs the loop can end with: every call but the last was retried, no wait between them was cancelled, the waits follow the schedule, and the outcome is the last decision's, the exhaustion error after five retries, or the cancellation error when the wait after the last call was cancelled |
| Arc.AssignRoleRun | pkg/components/arc/arc_installer_test.go:107-143 | the loop read as a recursion over the attempts, one attempt per step |
| Arc.RunFromSettles | pkg/components/arc/arc_installer_test.go:107-143 | from any attempt reached after retries only, the recursive run completes into a settled run |
| Arc.SettledUnique | pkg/components/arc/arc_installer_test.go:186-188 | the decisions and the cancellation point determine the run: outcome, number of calls and waits |
| Arc.SettledIsRun | pkg/components/arc/arc_installer_test.go:107-143 | a run is settled if and only if it is the run the recursive reference computes |
| Arc.SettledSuccess | pkg/components/arc/arc_installer_test.go:88-90 | a settled run succeeds exactly when its last decision stops with success; exhaustion and cancellation always end in an error |
| Arc.Installer.Attempt | pkg/components/arc/arc_installer_test.go:23-26 | one `Create` call, recorded on the client, and the decision the loop makes of its response |
| Arc.Installer.AssignRole | pkg/components/arc/arc_installer_test.go:84-93 | the returned outcome, call count and waits form the settled run of the decisions `ds` observed on the client's responses, and `ds` is fixed by the script (Arc.ObservesUnique); the client's count grows by exactly the calls made; every call has the same scope, name and ServicePrincipal parameters |
| Scenarios.DecideCreated | pkg/components/arc/arc_installer_test.go:71 | a success stops the loop with success |
| Scenarios.DecideNotFound | pkg/components/arc/arc_installer_test.go:113 | a PrincipalNotFound response error is retried, whatever its message |
| Scenarios.DecideExists | pkg/components/arc/arc_installer_test.go:245 | a RoleAssignmentExists response error stops with success, whatever its message |
| Scenarios.StopsAtFirstDecisive | pkg/components/arc/arc_installer_test.go:227-229 | the run ends at the first decisive response, after that many calls |
| Scenarios.ExhaustsAfterFiveRetries | pkg/components/arc/arc_installer_test.go:186-188 | five retries end the run after five calls and four waits, with the exhaustion error wrapping the last error |
| Scenarios.NotFoundRetried | pkg/components/arc/arc_installer_test.go:111-114 | calls answered with PrincipalNotFound are all retried |
| Scenarios.SucceedsFirstTime | pkg/components/arc/arc_installer_test.go:84-93 | a first call that succeeds gives success after exactly one call and no wait |
| Scenarios.BacksOffExponentially | pkg/components/arc/arc_installer_test.go:395-452 | three PrincipalNotFound failures, then a success, give success after four calls and waits [5, 10, 20] |
| Scenarios.RetriesThenSucceeds | pkg/components/arc/arc_installer_test.go:107-143 | two PrincipalNotFound failures, then a success, give success after three calls and waits [5, 10], 15s in all |
| Scenarios.ExhaustsRetries | pkg/components/arc/arc_installer_test.go:157-188 | PrincipalNotFound on every call gives five calls, waits [5,10,20,40], and an error with both tested phrases |
| Scenarios.ForbiddenNotRetried | pkg/components/arc/arc_installer_test.go:202-229 | the 403 error fails after one call, with an error that contains "insufficient permissions" |
| Scenarios.ExistingAssignmentSucceeds | pkg/components/arc/arc_installer_test.go:243-267 | RoleAssignmentExists on the first call gives success after one call |
| Scenarios.CancellationStops | pkg/components/arc/arc_installer_test.go:297-312 | a cancellation during the wait before attempt k ends the run after k-1 calls, with no call after it, and with an error that `errors.Is` equates with `context.Canceled` |
| Scenarios.GenericErrorNotRetried | pkg/components/arc/arc_installer_test.go:326-350 | an unrecognised error fails after one call, with a non-nil error |
| Scenarios.CallsAndWaitsBounded | pkg/components/arc/arc_installer_test.go:186-188 | every run makes 1 to 5 calls, one wait fewer than calls, 5s * (2^(calls-1) - 1) of waiting in all, and never more than 75s |
| Scenarios.OnlyNotFoundIsRetried | pkg/components/arc/arc_installer_test.go:227-229 | every call before the last failed with an error classified as a missing principal |
| Scenarios.SuccessIffLastSatisfied | pkg/components/arc/arc_installer_test.go:261-264 | a run succeeds exactly when its last call succeeded or found the assignment already there |
| Scenarios.CanceledIffCancelled | pkg/components/arc/arc_installer_test.go:306-312 | the error is `context.Canceled` exactly for the cancellation error; that error comes exactly when the last call was retried before the limit, and only when the context was cancelled in the wait that followed |

## Left out

- The implementation file of `assignRole` is not part of this model. The loop, the classifier and the error texts are reconstructed from its tests; where they do not fix a detail, the model chooses one.
- The wording of the wrapping errors is the model's own, apart from the two phrases the exhaustion test matches ("failed to assign role after", "Azure AD replication delay"), the number of attempts the exhaustion error states, and the cause each error wraps.
- The classifier recognises the two codes and the "403" / "Forbidden" markers the tests use. Other codes or spellings the implementation may know are not modelled.
- A Go context stays cancelled once cancelled, and the loop only looks at it while waiting. So a cancellation before attempt 1, or during call j, is represented by the next wait's `CancelledBefore`: `CancelledBefore(2)`, or `CancelledBefore(j + 1)`. `CancelledBefore(k)` for k < 2 corresponds to no Go run. `CancelledBefore(k)` for k > 5 is a cancellation during call 5; it has no effect, as in Go, because no wait follows that call.
- A `Create` call does not observe the context, because the mock ignores it.
- The "retries exhausted" fallback after the loop cannot be reached in the model: after five retries the loop always returns the exhaustion error.
- The role assignment name is a parameter of `AssignRole`, because the test file does not show how the real code generates it.
- How the role definition ID is built from the role ID and the subscription is not modelled. The role ID is passed through unchanged.
- The display name only appears in log lines, so it is a parameter with no effect.
- Logging (logrus) and configuration (`SubscriptionID`) are left out.
- `Delete` and `NewListForScopePager` of the mock are left out: no test of `assignRole` uses them.
- `pkg/components/arc/interfaces.go` is left out. It only passes calls through to the Azure SDK client.
- `pkg/components/npd/npd_uninstaller.go` is left out. It only removes files and has no logic relevant here.
- Real time is left out: `time.Sleep`, the goroutine that cancels after 100ms, and the 500ms tolerance of the backoff test. A wait is an exact number of seconds.
- Scenarios.RetriesThenSucceeds: states that the waits are exactly 5s and 10s. The test only checks that the elapsed time is at least 14s, because it measures a real clock.
- Go's `Create` response value and the Azure SDK types beyond the principal type are not modelled.
