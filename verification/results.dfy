/**
 Failure-compatible wrappers shared by the codec, the hub and the directory.

 The source reports failures by throwing; the model returns `Err` with the
 kind of failure instead, and every caller that propagates the exception
 propagates the `Err` with `:-`.
 */
module Results {

  /** An optional value (`undefined` / `null` in the source). */
  datatype Option<+T> = None | Some(value: T) {

    /** `x ?? default` */
    function GetOr(default: T): T {
      match this
      case Some(v) => v
      case None => default
    }
  }

  /** The failures the codec can raise. */
  datatype Error =
    | Overflow            // a value outside the range of a fixed-width write
    | RangeError          // a typed-array access that does not fit the buffer
    | Truncated           // fewer bytes remain than a fixed-width read needs
    | UnknownKind(tag: int)  // a leading tag no decoder case matches

  datatype Result<+T> = Ok(value: T) | Err(error: Error) {

    predicate IsFailure() {
      Err?
    }

    function PropagateFailure<U>(): Result<U>
      requires Err?
    {
      Err(error)
    }

    function Extract(): T
      requires Ok?
    {
      value
    }
  }
}
