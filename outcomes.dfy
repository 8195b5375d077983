/**
  Results and errors shared by the engine and the event store. Go's `error`
  return value is `Option<Error>` here: `None` stands for `nil`.
 */
module Outcomes {

  datatype Option<+T> = None | Some(value: T)

  /** The error conditions the event store distinguishes. */
  datatype Error =
    | ErrNotFound      // no sampling decision recorded for a trace ID
    | ErrLimitReached  // the storage quota is used up (wraps ENOSPC in the source)
    | ErrTxnTooBig     // the engine cannot fit one more write into the open transaction
    | ErrCommit        // the engine failed to commit a transaction
    | ErrCodec(code: nat)  // an error of the event codec, passed through unchanged

  datatype Result<+T> = Ok(value: T) | Err(error: Error)
}
