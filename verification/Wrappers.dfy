/** Option and Result, and the sentinels that operations report. */
module Wrappers {

  datatype Option<+T> = None | Some(value: T)

  /** One constructor per sentinel the source distinguishes.  A wrapped error keeps
      its cause, as errors.Is would find it. */
  datatype Error =
    | ErrInvalidState
    | ErrInvalidStateTransition
    | ErrInvalidSpec            // package sandbox
    | ErrLimits                 // package runtime: a limit below its floor
    | ErrRowNotFound
    | ErrMissingExpiry
    | ErrInvalidEvent
    | ErrDatabase               // the engine failed or a constraint was violated
    | ErrInternal(cause: Error)
    | ErrInvalidSandboxID
    | ErrContainerNotFound
    | ErrDaemon                 // a daemon call failed
    | ErrLeaked(cause: Error)   // a rollback failed, the container remains
    | ErrUndone(cause: Error)   // the write-back failed, the container was removed
    | ErrNotUndone(cause: Error, destroy: Error)
    | ErrPassInFlight
    | ErrBadDispatch
    | ErrInvalidPath
    | ErrPathNotFound
    | ErrFileTooLarge
    | ErrTotalFilesTooLarge

  datatype Result<+T> = Ok(value: T) | Err(error: Error)

  type Byte = x: int | 0 <= x < 256

  function Lookup<K, V>(m: map<K, V>, k: K): (r: Option<V>)
    ensures r.Some? <==> k in m
    ensures k in m ==> r == Some(m[k])
  {
    if k in m then Some(m[k]) else None
  }
}
