/** Steps of a process that can fail, or be killed. */
module Steps {

  /** How a step of a process ends; `Killed` ends the whole process at once. */
  datatype Outcome<+T, +E> = Done(value: T) | Fault(error: E) | Killed {
    predicate IsFailure() {
      !Done?
    }

    function PropagateFailure<U>(): (r: Outcome<U, E>)
      requires !Done?
    {
      if Fault? then Outcome<U, E>.Fault(error) else Outcome<U, E>.Killed
    }

    function Extract(): T
      requires Done?
    {
      value
    }
  }
}
