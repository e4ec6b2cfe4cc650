/** What every component uses. */
module Basics {

  /** Fails as `None` where the source returns early with `?`. */
  datatype Option<+T> = None | Some(value: T) {
    predicate IsFailure() {
      None?
    }

    function PropagateFailure<U>(): Option<U>
      requires None?
    {
      None
    }

    function Extract(): T
      requires Some?
    {
      value
    }
  }

  function Max(a: int, b: int): int {
    if a > b then a else b
  }
}
