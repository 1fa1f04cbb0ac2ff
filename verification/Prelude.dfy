/** Option, Result and bytes, which the other modules share. */
module Prelude {

  newtype Byte = b: int | 0 <= b < 256

  type Bytes = seq<Byte>

  datatype Option<+T> = None | Some(value: T)

  /** `Err` stands for a raised exception; `Ok` for a normal return. */
  datatype Result<+T> = Ok(value: T) | Err(reason: string) {
    predicate IsFailure() {
      Err?
    }

    function PropagateFailure<U>(): Result<U>
      requires Err?
    {
      Err(reason)
    }

    function Extract(): T
      requires Ok?
    {
      value
    }
  }
}
