/** Failure-compatible optional values, usable with `:-`. */
module Wrappers {

  /** A value that may be absent: the source's `undefined` / `null` results. */
  datatype Option<+T> = None | Some(value: T) {

    predicate IsFailure() {
      None?
    }

    function PropagateFailure<U>(): Option<U>
      requires None?
    {
      None
    }

    function Extract(): T
      requires Some?
    {
      value
    }

    /** The value, or `default` when absent (the source's `?? default`). */
    function GetOr(default: T): T {
      if Some? then value else default
    }
  }
}
