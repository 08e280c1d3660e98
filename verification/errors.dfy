/** Shared vocabulary of the model: Go's `error` values, nil-or-error
    outcomes, optional values, bytes and durations. */
module Errors {

  /** A raw byte, as carried in message keys, values and random draws. */
  newtype byte = x: int | 0 <= x < 256

  /** time.Duration, in nanoseconds. Negative durations are not modelled. */
  const Millisecond: nat := 1_000_000
  const Second: nat := 1_000 * Millisecond

  datatype Option<+T> = None | Some(value: T)

  /** The error values the core produces or passes through.
      Collaborator errors the model cannot see are `Plain` messages. */
  datatype Error =
    | Plain(text: string)
      // fmt.Errorf("<context>: %w", cause)
    | Wrapped(context: string, cause: Error)
      // *tools.RetryableError
    | Classified(cause: Error, retryable: bool, permanent: bool)
      // "retry cancelled[ during backoff]: %w" around ctx.Err()
    | RetryCancelled(duringBackoff: bool, cause: Error)
      // "non-retryable error after %d attempts: %w"
    | NonRetryable(attempt: nat, cause: Error)
      // "max retry attempts (%d) exceeded: %w"; the cause is absent when no attempt ran
    | Exhausted(maxAttempts: int, last: Option<Error>)
      // kafka.NewError(kafka.ErrUnknown, ...)
    | KafkaUnknown(reason: string)
      // "failed to send email, status code: %d, body: %s"
    | MailStatus(status: int, body: string)
      // "overpass API returned non-200 status: %d"
    | HttpStatus(status: int)
      // a MongoDB write error with code 11000 (mongo.IsDuplicateKeyError)
    | DuplicateKey

  /** A Go `error` result: nil (`Pass`) or an error (`Fail`). */
  datatype Outcome = Pass | Fail(error: Error)

  /** A Go `(T, error)` pair in which exactly one side is meaningful. */
  datatype Result<+T> = Success(value: T) | Failure(error: Error)

  /** context.Canceled, the error of a context cancelled by its owner. */
  const ContextCanceled: Error := Plain("context canceled")

  /** mongo.ErrNoDocuments, the driver's error for a lookup that matched nothing. */
  const ErrNoDocuments: Error := Plain("mongo: no documents in result")
}
