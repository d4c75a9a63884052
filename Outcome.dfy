/** Result and option types shared by the whole model.

    The indexer distinguishes three ways an operation can end: it returns a
    value, it returns an error to its caller (Rust's `Err` propagated with
    `?`), or it aborts the process (a panic, an `.unwrap()` on an error, or
    an arithmetic overflow of a `u32`).  `Res` keeps the three apart because
    the sync loop swallows the second kind and never the third. */
module Outcome {

  datatype Option<+T> = None | Some(value: T)

  /** Errors that are returned to the caller. */
  datatype Error =
    | RpcFailed          // a JSON-RPC call to the chain daemon failed
    | MissingBlockhash   // no locally recorded hash for a height being compared
    | StoreFailed        // one attempt of a key-value store command failed

  /** Reasons the process aborts. */
  datatype Fatal =
    | TipHeightMalformed       // stored tip height is present but not 4 bytes long
    | HeightUnderflow          // a `u32` subtraction went below zero
    | HeightOverflow           // a `u32` addition went above 2^32 - 1
    | Unwrapped(error: Error)  // `.unwrap()` on an `Err`
    | EngineFailedAfterRetry   // the indexing engine failed, was reset, and failed again

  datatype Res<+T> = Ok(value: T) | Err(error: Error) | Abort(fatal: Fatal)
}
