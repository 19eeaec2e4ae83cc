/** Failure-carrying datatypes shared by every module of the ledger model. */
module Wrappers {

  /** A value that may be absent: a JavaScript `null`/`undefined`, or a NaN parse. */
  datatype Option<+T> = None | Some(value: T) {

    /** Returns the value held in Some, or the given default when None. */
    function GetOr(default: T): T {
      match this
      case Some(v) => v
      case None => default
    }
  }

  /** Either the new collections computed by an operation, or the reason it refused to act. */
  datatype Result<+T, +E> = Ok(value: T) | Err(error: E)
}
