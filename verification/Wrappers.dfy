// What every module shares: the clock, and result types for service calls that either succeed with a
// value or are refused with one of the source's exceptions.
module Wrappers {

  type Time = int  // minutes since 1 January 1970

  datatype Option<+T> = None | Some(value: T)

  datatype Result<+R, +E> = Success(value: R) | Failure(error: E)

  datatype Outcome<+E> = Pass | Fail(error: E)

  // What a call reports to its caller once the state it produced is put aside.
  function Report<R, E>(r: Result<R, E>): Outcome<E> {
    if r.Success? then Pass else Fail(r.error)
  }

  // The state after a call: a refused call leaves the old one in place.
  function After<R, E>(r: Result<R, E>, before: R): R {
    if r.Success? then r.value else before
  }
}
