/**
 * The record Failure(error). Each instance method takes its receiver `self`,
 * which is a Failure; the EMPTY singleton is the Failure whose error is Null.
 */
module FailureRecord {
  import opened JavaLang
  import opened ResultType

  /** EMPTY / empty(): the one Failure whose error is null. */
  function Empty<T, E>(): (r: Result<T, E>)
    ensures r.Failure? && r.error.Null?
  {
    Failure(Null)
  }

  /** get() always throws a RuntimeException whose message carries the error. */
  function Get<T, E>(self: Result<T, E>): (o: Outcome<Nullable<T>, T, E>)
    requires self.Failure?
    ensures o.Throws? && o.exception.Runtime?
    ensures o.exception.message == InvalidResultProvided(self.error)
  {
    Throws(Runtime(InvalidResultProvided(self.error)))
  }

  /** getOrElse(d) hands back the default. */
  function GetOrElse<T, E>(self: Result<T, E>, default: Nullable<T>): (o: Outcome<Nullable<T>, T, E>)
    requires self.Failure?
    ensures o.Returns? && o.result == default
  {
    Returns(default)
  }

  /** getError() hands back the held error, null included, and never throws. */
  function GetError<T, E>(self: Result<T, E>): (o: Outcome<Nullable<E>, T, E>)
    requires self.Failure?
    ensures o.Returns? && o.result == self.error
  {
    Returns(self.error)
  }

  /** getErrorOrElse(d) hands back the held error even when it is null; the default plays no part. */
  function GetErrorOrElse<T, E>(self: Result<T, E>, default: Nullable<E>): (o: Outcome<Nullable<E>, T, E>)
    requires self.Failure?
    ensures o.Returns? && o.result == self.error
  {
    Returns(self.error)
  }

  /** toOptional() is always the empty Optional. */
  function ToOptional<T, E>(self: Result<T, E>): (o: Outcome<Optional<T>, T, E>)
    requires self.Failure?
    ensures o.Returns? && o.result.Absent?
  {
    Returns(Absent)
  }

  /** toOptionalError() is Optional.of(error): it throws NullPointerException on a null error. */
  function ToOptionalError<T, E>(self: Result<T, E>): (o: Outcome<Optional<E>, T, E>)
    requires self.Failure?
    ensures o.Throws? <==> self.error.Null?
    ensures o.Throws? ==> o.exception == NullPointer
    ensures self.error.NonNull? ==> o == Returns(Present(self.error.obj))
  {
    match self.error
    case Null => Throws(NullPointer)
    case NonNull(e) => Returns(Present(e))
  }

  /** map(f) checks f for null, then builds a new Failure with the same error; f is not applied. */
  function Map<T, E, U>(self: Result<T, E>, mapper: Mapper<T, U>): (o: Outcome<Result<U, E>, T, E>)
    requires self.Failure?
    ensures o.Throws? <==> mapper.Null?
    ensures o.Throws? ==> o.exception == NullPointer
    ensures mapper.NonNull? ==> o == Returns(Failure(self.error))
  {
    match mapper
    case Null => Throws(NullPointer)
    case NonNull(_) => Returns(Failure(self.error))
  }

  /** mapError(f) checks f for null, then wraps f(error) in a new Failure. */
  function MapError<T, E, X>(self: Result<T, E>, mapper: Mapper<E, X>): (o: Outcome<Result<T, X>, T, E>)
    requires self.Failure?
    ensures o.Throws? <==> mapper.Null?
    ensures o.Throws? ==> o.exception == NullPointer
    ensures mapper.NonNull? ==> o == Returns(Failure(mapper.obj(self.error)))
  {
    match mapper
    case Null => Throws(NullPointer)
    case NonNull(f) => Returns(Failure(f(self.error)))
  }

  function IsError<T, E>(self: Result<T, E>): (b: bool)
    requires self.Failure?
    ensures b
  {
    true
  }

  function IsOk<T, E>(self: Result<T, E>): (b: bool)
    requires self.Failure?
    ensures !b
  {
    false
  }
}
