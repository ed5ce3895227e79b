/** Errors as the Kubernetes client reports them, and the optional Go `error` value. */
module Errors {

  /** A Go value that is either nil (`None`) or present (`Some`). */
  datatype Option<+T> = None | Some(value: T)

  /** The reason carried by an API status error; only NotFound is inspected by the controller. */
  datatype StatusReason = NotFound | OtherReason(reason: string)

  /** An error returned by the cluster client or by the manifest library. */
  datatype Error = Error(reason: StatusReason, message: string)

  /** errors.IsNotFound: the error's reason is NotFound. */
  predicate IsNotFound(e: Error)
  {
    e.reason == NotFound
  }
}
