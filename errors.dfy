/** The error values that flow through role assignment: what the client's
    `Create` returns, and the Go error chain (`fmt.Errorf("...: %w", err)`,
    `errors.Is`) the caller receives. */
module Errors {
  import opened Text

  /** An error returned by `Create`: an Azure response error carrying a
      machine-readable code, or an error that is only text (`errors.New`). */
  datatype CreateError =
    | ResponseError(code: string, message: string)
    | PlainError(text: string)

  const ResponseHeader: string := "RESPONSE 400: 400 Bad Request\n"
  const CodeMarker: string := "ERROR CODE: "

  /** `Error()` of a create error; a response error renders as
      "RESPONSE 400: 400 Bad Request\nERROR CODE: <code>\n<message>". */
  function ErrorText(e: CreateError): string
  {
    match e
    case ResponseError(code, message) => ResponseHeader + CodeMarker + code + "\n" + message
    case PlainError(text) => text
  }

  /** A Go `error` as the caller of role assignment sees it: the sentinel
      `context.Canceled`, an error from `Create`, or a wrapping made with `%w`. */
  datatype GoError =
    | ContextCanceled
    | AzureError(cause: CreateError)
    | Wrapped(context: string, inner: GoError)

  /** `err.Error()`: a wrapping prints its context, ": ", then the wrapped error. */
  function Message(e: GoError): string
  {
    match e
    case ContextCanceled => "context canceled"
    case AzureError(c) => ErrorText(c)
    case Wrapped(context, inner) => context + ": " + Message(inner)
  }

  /** `errors.Is(e, target)`: `target` is somewhere on the unwrap chain of `e`.
      Errors are compared as values, where Go compares interface values; the
      two agree for the sentinel `context.Canceled`, the only target used. */
  predicate Is(e: GoError, target: GoError)
  {
    e == target || (e.Wrapped? && Is(e.inner, target))
  }

  /** Wrapping keeps the cause: it is still found by `errors.Is`, and its
      text is still part of the message. */
  lemma {:induction false} WrapPreservesCause(context: string, cause: GoError)
    ensures Is(Wrapped(context, cause), cause)
    ensures Contains(Message(Wrapped(context, cause)), Message(cause))
  {
    ContainsInfix(context + ": ", Message(cause), "");
    assert context + ": " + Message(cause) + "" == Message(Wrapped(context, cause));
  }

  /** The message of a wrapping agrees with its context on the context's length. */
  lemma WrappedMessageAt(context: string, cause: GoError, i: nat)
    requires i < |context|
    ensures Message(Wrapped(context, cause))[i] == context[i]
  {
  }

  /** A wrapping's message starts with its context. */
  lemma WrapContainsContext(context: string, cause: GoError)
    ensures Contains(Message(Wrapped(context, cause)), context)
  {
    ContainsPrefix(context, ": " + Message(cause));
    assert context + ": " + Message(cause) == context + (": " + Message(cause));
  }

  /** Everything on the unwrap chain of `e` has its text in `e`'s message. */
  lemma {:induction false} IsImpliesMessageContains(e: GoError, target: GoError)
    requires Is(e, target)
    ensures Contains(Message(e), Message(target))
    decreases e
  {
    if e == target {
      ContainsInfix("", Message(e), "");
      assert "" + Message(e) + "" == Message(e);
    } else {
      IsImpliesMessageContains(e.inner, target);
      WrapPreservesCause(e.context, e.inner);
      ContainsTransitive(Message(e), Message(e.inner), Message(target));
    }
  }

  /** `e` is an error from `Create`, wrapped any number of times. */
  predicate FromCreate(e: GoError)
  {
    e.AzureError? || (e.Wrapped? && FromCreate(e.inner))
  }

  /** `errors.Is` finds the cancellation sentinel in no error that came from
      `Create`, however often it was wrapped. */
  lemma {:induction false} AzureErrorIsNotCanceled(e: GoError)
    requires FromCreate(e)
    ensures !Is(e, ContextCanceled)
    decreases e
  {
    if e.Wrapped? {
      AzureErrorIsNotCanceled(e.inner);
    }
  }
}
