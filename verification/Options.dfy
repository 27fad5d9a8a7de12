/** A value that may be missing. */
module Options {
  datatype Option<+T> = None | Some(val: T) {
    predicate IsFailure() {
      None?
    }

    function PropagateFailure<U>(): Option<U>
      requires None?
    {
      None
    }

    function Extract(): T
      requires Some?
    {
      val
    }
  }
}
