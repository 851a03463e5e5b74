/** Option and Result: the model's stand-ins for Java's null and for an exception. */
module Wrappers {

  /** A value or nothing; None plays the part of a Java null. */
  datatype Option<+T> = None | Some(value: T)

  /** A converted value, or the failure of a conversion (an exception thrown by the converter). */
  datatype Result<+T> = Ok(value: T) | Failed {

    predicate IsFailure() {
      Failed?
    }

    function PropagateFailure<U>(): Result<U>
      requires Failed?
    {
      Failed
    }

    function Extract(): T
      requires Ok?
    {
      value
    }
  }
}
