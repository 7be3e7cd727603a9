/**
 * The sealed interface Result<T, ERR>, which permits exactly the two records
 * Success(value) and Failure(error), together with the exceptions its methods
 * can raise.
 */
module ResultType {
  import opened JavaLang

  /** A record component that the EMPTY singletons leave null is a Null payload. */
  datatype Result<T, E> = Success(value: Nullable<T>) | Failure(error: Nullable<E>)

  /**
   * The message of a RuntimeException raised by a wrong-variant accessor:
   * "Invalid result provided: " followed by the held error, or
   * "Provided valid result: " followed by the held value.
   */
  datatype Message<T, E> =
    | InvalidResultProvided(heldError: Nullable<E>)
    | ProvidedValidResult(heldValue: Nullable<T>)

  /** The two exception kinds the core raises. */
  datatype Exception<T, E> = NullPointer | Runtime(message: Message<T, E>)

  /** What a call on a Result<T, E> does: return a value or throw. */
  datatype Outcome<X, T, E> = Returns(result: X) | Throws(exception: Exception<T, E>)
}
