/** The optional value used for a lookup that may miss and for a step that may fail, and bytes. */
module Wrappers {

  type byte = x: int | 0 <= x < 256

  type Bytes = seq<byte>

  datatype Option<+T> = None | Some(value: T) {
    predicate IsFailure() {
      None?
    }

    function PropagateFailure<U>(): Option<U>
      requires None?
    {
      None
    }

    function Extract(): T
      requires Some?
    {
      value
    }
  }

  /** The outcome of a check that carries no value. */
  datatype Check = Pass | Fail {
    predicate IsFailure() {
      Fail?
    }

    function PropagateFailure<U>(): Option<U>
      requires Fail?
    {
      None
    }
  }

  /** A check that a step must pass before it goes on. */
  function Need(condition: bool): Check {
    if condition then Pass else Fail
  }
}
