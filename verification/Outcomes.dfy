/** Results shared by the models. */
module Outcomes {
  datatype Option<+T> = None | Some(value: T)

  /** A computation that either finishes or stops the machine (a kernel panic). */
  datatype Halting<+T> = Panic | Ok(value: T) {
    predicate IsFailure() { Panic? }

    function PropagateFailure<U>(): Halting<U>
      requires Panic?
    {
      Panic
    }

    function Extract(): T
      requires Ok?
    {
      value
    }
  }
}
