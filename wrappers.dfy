/** Small wrapper types shared by the model. */
module Wrappers {

  /** A value that may be absent: JavaScript's `null` for a patient or for a missing storage key. */
  datatype Option<+T> = None | Some(value: T)

  /** How a JavaScript call ended: it returned `value`, or an exception escaped from it. */
  datatype Completion<+T> = Normal(value: T) | Thrown
}
