/** Failure-carrying wrappers shared by the other modules. */
module Results {

  /** The value of an optional field; `None` stands for JavaScript's `null`. */
  datatype Option<+T> = None | Some(value: T)

  /** Either a value or the message of the `Error` a JavaScript function throws. */
  datatype Result<+T> = Success(value: T) | Failure(error: string)
}
