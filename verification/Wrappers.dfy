/** Option and Result, and the error cases of `JdwpError` without their wording. */
module Wrappers {
  datatype Option<+T> = None | Some(value: T)

  datatype JdwpError =
    | Io
    | Protocol
    | JdwpErrorCode(code: nat)
    | ConnectionClosed(cause: Cause)
    | NotJdwpFramed
    | ReplyTimeout(seconds: nat)
    | NoReasonRecorded // the arm of `lost` that the source calls unreachable

  /** Why the event loop stopped. */
  datatype Cause = ReadFailed(error: JdwpError) | ConsumerDropped | ReaderVanished

  datatype Result<+T> = Success(value: T) | Failure(error: JdwpError) {
    predicate IsFailure() {
      Failure?
    }

    function PropagateFailure<U>(): Result<U>
      requires Failure?
    {
      Failure(error)
    }

    function Extract(): T
      requires Success?
    {
      value
    }

    function Map<U>(f: T -> U): Result<U> {
      match this
      case Success(v) => Success(f(v))
      case Failure(e) => Failure(e)
    }
  }
}
