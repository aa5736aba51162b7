/** Success-or-failure types shared by the models. */
module Outcomes {

  datatype Option<+T> = None | Some(value: T)

  /** A Rust Result: `?` in the source is `:-` here. */
  datatype Result<+T, +E> = Ok(value: T) | Err(error: E) {
    predicate IsFailure() {
      Err?
    }

    function PropagateFailure<U>(): (r: Result<U, E>)
      requires Err?
    {
      Err(error)
    }

    function Extract(): T
      requires Ok?
    {
      value
    }
  }
}
