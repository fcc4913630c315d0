/** Failure-compatible result types shared by every module of the model. */
module Wrappers {

  /** `None` where the source returns `None` or raises one kind of error. */
  datatype Option<+T> = None | Some(value: T) {
    predicate IsFailure() { None? }

    function PropagateFailure<U>(): Option<U>
      requires None?
    {
      None
    }

    function Extract(): T
      requires Some?
    {
      value
    }
  }
}
