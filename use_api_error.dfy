/**
 * useApiError: the error state the frontend hooks keep, and how a thrown
 * value becomes one. An API call is a parameter: what it answered, or
 * what it threw.
 */
module ApiErrors {
  import opened Wrappers

  /** What the hooks show: a message, the server's error code and the HTTP status. */
  datatype ErrorState = ErrorState(message: string, code: Option<string>, status: Option<int>)

  /**
   * What a failed call throws: an HTTP error with a response (its body's
   * message and errorCode, which may be missing, the error's own message
   * and the response status), any other Error, or a value that is no
   * Error at all.
   */
  datatype Thrown =
    | ResponseError(bodyMessage: Option<string>, errorCode: Option<string>, message: string, status: int)
    | PlainError(message: string)
    | NotAnError

  /** The outcome of an awaited API call. */
  datatype Answer<T> = Answered(value: T) | Threw(thrown: Thrown)

  const DefaultApiMessage: string := "An API error occurred"
  const UnknownMessage: string := "An unknown error occurred"

  /**
   * handleApiError's error state. A response error shows the body's
   * message, else the error's message, else a default, and keeps the code
   * and the status; any other Error shows its message with status 500; and
   * anything else a fixed message with status 500.
   */
  function ErrorStateOf(err: Thrown): (e: ErrorState)
    ensures err.ResponseError? ==> e.code == err.errorCode && e.status == Some(err.status) && e.message != ""
    ensures err.ResponseError? && err.bodyMessage.Some? && err.bodyMessage.value != "" ==> e.message == err.bodyMessage.value
    ensures err.ResponseError? && (err.bodyMessage.None? || err.bodyMessage.value == "") && err.message != "" ==> e.message == err.message
    ensures err.ResponseError? && (err.bodyMessage.None? || err.bodyMessage.value == "") && err.message == "" ==> e.message == DefaultApiMessage
    ensures err.PlainError? ==> e == ErrorState(err.message, None, Some(500))
    ensures err.NotAnError? ==> e == ErrorState(UnknownMessage, None, Some(500))
  {
    match err
    case ResponseError(bodyMessage, errorCode, message, status) =>
      ErrorState(OrElse(bodyMessage, OrElse(Some(message), DefaultApiMessage)), errorCode, Some(status))
    case PlainError(message) => ErrorState(message, None, Some(500))
    case NotAnError => ErrorState(UnknownMessage, None, Some(500))
  }
}
