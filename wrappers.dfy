/** Failure-carrying values standing for the exceptions the modelled Python code raises. */
module Wrappers {

  /** The Python exception kinds that the modelled code can raise. */
  datatype PyError =
    | KeyError           // dict lookup of a missing key
    | IndexError         // list index out of range
    | ValueError         // explicit `raise ValueError(...)`
    | ZeroDivisionError  // `1 / 0`
    | AttributeError     // method call on `None`
    | TypeError          // iteration over `None`
    | ValidationError    // a value a Pydantic model refuses

  datatype Option<+T> = None | Some(value: T)

  datatype Result<+T> = Ok(value: T) | Err(error: PyError) {
    predicate IsFailure() { Err? }

    function PropagateFailure<U>(): Result<U>
      requires Err?
    {
      Err(error)
    }

    function Extract(): T
      requires Ok?
    {
      value
    }
  }
}
