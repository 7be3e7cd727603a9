/**
 * The record Success(value). Each instance method takes its receiver `self`,
 * which is a Success; the EMPTY singleton is the Success whose value is Null.
 */
module SuccessRecord {
  import opened JavaLang
  import opened ResultType

  /** EMPTY / empty(): the one Success whose value is null. */
  function Empty<T, E>(): (r: Result<T, E>)
    ensures r.Success? && r.value.Null?
  {
    Success(Null)
  }

  /** get() hands back the held value, null included, and never throws. */
  function Get<T, E>(self: Result<T, E>): (o: Outcome<Nullable<T>, T, E>)
    requires self.Success?
    ensures o.Returns? && o.result == self.value
  {
    Returns(self.value)
  }

  /** getOrElse(d) hands back the held value; the default plays no part. */
  function GetOrElse<T, E>(self: Result<T, E>, default: Nullable<T>): (o: Outcome<Nullable<T>, T, E>)
    requires self.Success?
    ensures o.Returns? && o.result == self.value
  {
    Returns(self.value)
  }

  /** getError() always throws a RuntimeException whose message carries the value. */
  function GetError<T, E>(self: Result<T, E>): (o: Outcome<Nullable<E>, T, E>)
    requires self.Success?
    ensures o.Throws? && o.exception.Runtime?
    ensures o.exception.message == ProvidedValidResult(self.value)
  {
    Throws(Runtime(ProvidedValidResult(self.value)))
  }

  /** getErrorOrElse(d) hands back the default. */
  function GetErrorOrElse<T, E>(self: Result<T, E>, default: Nullable<E>): (o: Outcome<Nullable<E>, T, E>)
    requires self.Success?
    ensures o.Returns? && o.result == default
  {
    Returns(default)
  }

  /** toOptional() is Optional.of(value): it throws NullPointerException on a null value. */
  function ToOptional<T, E>(self: Result<T, E>): (o: Outcome<Optional<T>, T, E>)
    requires self.Success?
    ensures o.Throws? <==> self.value.Null?
    ensures o.Throws? ==> o.exception == NullPointer
    ensures self.value.NonNull? ==> o == Returns(Present(self.value.obj))
  {
    match self.value
    case Null => Throws(NullPointer)
    case NonNull(v) => Returns(Present(v))
  }

  /** toOptionalError() is always the empty Optional. */
  function ToOptionalError<T, E>(self: Result<T, E>): (o: Outcome<Optional<E>, T, E>)
    requires self.Success?
    ensures o.Returns? && o.result.Absent?
  {
    Returns(Absent)
  }

  /** map(f) checks f for null, then wraps f(value) in a new Success. */
  function Map<T, E, U>(self: Result<T, E>, mapper: Mapper<T, U>): (o: Outcome<Result<U, E>, T, E>)
    requires self.Success?
    ensures o.Throws? <==> mapper.Null?
    ensures o.Throws? ==> o.exception == NullPointer
    ensures mapper.NonNull? ==> o == Returns(Success(mapper.obj(self.value)))
  {
    match mapper
    case Null => Throws(NullPointer)
    case NonNull(f) => Returns(Success(f(self.value)))
  }

  /** mapError(f) checks f for null, then builds a new Success with the same value; f is not applied. */
  function MapError<T, E, X>(self: Result<T, E>, mapper: Mapper<E, X>): (o: Outcome<Result<T, X>, T, E>)
    requires self.Success?
    ensures o.Throws? <==> mapper.Null?
    ensures o.Throws? ==> o.exception == NullPointer
    ensures mapper.NonNull? ==> o == Returns(Success(self.value))
  {
    match mapper
    case Null => Throws(NullPointer)
    case NonNull(_) => Returns(Success(self.value))
  }

  function IsError<T, E>(self: Result<T, E>): (b: bool)
    requires self.Success?
    ensures !b
  {
    false
  }

  function IsOk<T, E>(self: Result<T, E>): (b: bool)
    requires self.Success?
    ensures b
  {
    true
  }
}
