/** Optional values and computations that may end in one of the exceptions the source throws. */
module Outcomes {

  datatype Option<+T> = None | Some(value: T)

  /** The Java/Kotlin exception classes the core throws, each with the message the source builds. */
  datatype Exception =
    | IllegalState(message: string)
    | IllegalArgument(message: string)
    | UnsupportedOperation(message: string)
    | IndexOutOfBounds(index: int)
    | StringIndexOutOfBounds(begin: int, end: int, length: int)
    | NoSuchElement(message: string)
    | NumberFormat(input: string)
    | NullPointer

  datatype Result<+T> = Ok(value: T) | Err(error: Exception)
  {
    predicate IsFailure() { Err? }
    function PropagateFailure<U>(): Result<U> requires Err? { Err(error) }
    function Extract(): T requires Ok? { value }
  }
}
