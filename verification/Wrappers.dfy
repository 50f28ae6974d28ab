/** Results of operations that may refuse, and optional JSON fields. */
module Wrappers {

  datatype Option<+T> = None | Some(value: T)

  /** Every refusal of the recovery tools is one exception class; its message carries no state. */
  datatype Result<+T> = Ok(value: T) | Refused {

    predicate IsFailure() {
      Refused?
    }

    function PropagateFailure<U>(): Result<U>
      requires Refused?
    {
      Refused
    }

    function Extract(): T
      requires Ok?
    {
      value
    }
  }
}
