/** Option and Result, the two failure-carrying values the model uses in place of
    Python's `False` sentinel and its exceptions. */
module Wrappers {

  datatype Option<+T> = None | Some(value: T)

  datatype Result<+T, +E> = Ok(value: T) | Err(error: E) {
    predicate IsFailure() { Err? }

    function PropagateFailure<U>(): Result<U, E>
      requires Err?
    {
      Err(error)
    }

    function Extract(): T
      requires Ok?
    {
      value
    }

    /** The value, or `None` for a failure. */
    function ToOption(): (o: Option<T>)
      ensures o.Some? <==> Ok?
      ensures Ok? ==> o.value == value
    {
      if Ok? then Some(value) else None
    }
  }

  /** Turns a missing value into the given error. */
  function Need<T, E>(o: Option<T>, e: E): Result<T, E> {
    match o
    case Some(v) => Ok(v)
    case None => Err(e)
  }
}
