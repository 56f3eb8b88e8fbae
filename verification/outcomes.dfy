/** The three ways an operation of the interpreter can end: a value (Rust `Ok`),
    a returned error (`Err(&'static str)`), or a panic (an `unwrap` on nothing,
    an out-of-range slice or index, a checked i32 overflow). */
module Outcomes {

  datatype Res<+T> = Ok(value: T) | Err(msg: string) | Panic(msg: string) {

    predicate IsFailure() {
      !Ok?
    }

    function PropagateFailure<U>(): Res<U>
      requires !Ok?
    {
      if Err? then Err(msg) else Panic(msg)
    }

    function Extract(): T
      requires Ok?
    {
      value
    }
  }

  datatype Option<+T> = None | Some(value: T)

  /** Panic messages, as the Rust runtime words them (abridged). */
  const UnwrapNone: string := "called `Option::unwrap()` on a `None` value"
  const UnwrapErr: string := "called `Result::unwrap()` on an `Err` value"
  const IndexOutOfBounds: string := "index out of bounds"
  const SliceOutOfRange: string := "slice index starts at 1 but ends at 0"
}
