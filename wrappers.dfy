/** Option and Result, and the exceptions the services raise. */
module Wrappers {

  /** A Java reference that may be null, or a TypeScript value that may be undefined. */
  datatype Option<T> = None | Some(value: T)

  /**
   * The exceptions the modelled code throws or catches. Kinds the source
   * distinguishes are separate constructors; the message is kept where the
   * source composes one.
   */
  datatype Exception =
    | ValidationException(message: string)
    | ModelNotFoundException(configId: int)
    | ResourceNotFoundException(message: string)
    | IllegalStateException(message: string)
    | IllegalArgumentException(message: string)
    | RuntimeException(message: string)
    | NullPointerException
    | IndexOutOfBoundsException
    | ModelApiException(message: string)
    | ModelCallFailure(message: string)    // anything the language-model provider throws
    | PersistenceFailure(message: string)  // anything the database throws on a write
    | WrappedException(cause: Exception)   // `new RuntimeException(cause)`

  /**
   * JavaScript's `a || b` for a string that may be missing: a missing or
   * empty string is falsy and gives `b`, any other is kept.
   */
  function OrElse(a: Option<string>, b: string): (r: string)
    ensures a.Some? && a.value != "" ==> r == a.value
    ensures a.None? || a.value == "" ==> r == b
  {
    if a.Some? && a.value != "" then a.value else b
  }

  /** The outcome of a call that either returns a value or throws. */
  datatype Result<T> = Ok(value: T) | Err(error: Exception)
  {
    predicate IsFailure() { Err? }

    function PropagateFailure<U>(): Result<U>
      requires Err?
    {
      Err(error)
    }

    function Extract(): T
      requires Ok?
    {
      value
    }
  }
}
