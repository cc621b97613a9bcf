/** Option and the outcome of a Python expression that may raise. */
module Results {

  datatype Option<+T> = None | Some(value: T)

  /** `Raise` stands for any exception (AttributeError, TypeError) that the
      Python code lets escape; `Ok` carries the value otherwise computed. */
  datatype Result<+T> = Ok(value: T) | Raise {

    predicate IsFailure() {
      Raise?
    }

    function PropagateFailure<U>(): Result<U>
      requires Raise?
    {
      Raise
    }

    function Extract(): T
      requires Ok?
    {
      value
    }
  }
}
