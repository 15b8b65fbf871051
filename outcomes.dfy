/** Values that stand for C# references that may be null, and for the outcome of
    a call into code outside the model (a remote service, the HTTP stack) that
    either returns a value or throws. */
module Outcomes {

  /** A reference that may be null: `None` is C#'s `null`. */
  datatype Option<+T> = None | Some(value: T)

  /** What a foreign call did: returned `value`, or threw an exception whose
      rendering (`{ex}` in an interpolated string) is the opaque `exception`. */
  datatype Remote<+T> = Ok(value: T) | Failed(exception: string)
}
