/**
 * The interface Result<T, ERR>: its four static factories, and each interface
 * method dispatched to the record that implements it. The contracts here are
 * the ones the interface documents, stated over both variants.
 */
module ResultApi {
  import opened JavaLang
  import opened ResultType
  import SuccessRecord
  import FailureRecord

  /** success(value): a null value is rejected by requireNonNull, anything else is wrapped. */
  function SuccessOf<T, E>(value: Nullable<T>): (o: Outcome<Result<T, E>, T, E>)
    ensures o.Throws? <==> value.Null?
    ensures o.Throws? ==> o.exception == NullPointer
    ensures o.Returns? ==> o.result.Success? && o.result.value == value
  {
    match value
    case Null => Throws(NullPointer)
    case NonNull(_) => Returns(Success(value))
  }

  /** success(): the shared empty Success. */
  function SuccessEmpty<T, E>(): (r: Result<T, E>)
    ensures r.Success? && r.value.Null?
  {
    SuccessRecord.Empty()
  }

  /** failure(error): a null error is rejected by requireNonNull, anything else is wrapped. */
  function FailureOf<T, E>(error: Nullable<E>): (o: Outcome<Result<T, E>, T, E>)
    ensures o.Throws? <==> error.Null?
    ensures o.Throws? ==> o.exception == NullPointer
    ensures o.Returns? ==> o.result.Failure? && o.result.error == error
  {
    match error
    case Null => Throws(NullPointer)
    case NonNull(_) => Returns(Failure(error))
  }

  /** failure(): the shared empty Failure. */
  function FailureEmpty<T, E>(): (r: Result<T, E>)
    ensures r.Failure? && r.error.Null?
  {
    FailureRecord.Empty()
  }

  /** get(): the value if the result is ok, otherwise a RuntimeException. */
  function Get<T, E>(r: Result<T, E>): (o: Outcome<Nullable<T>, T, E>)
    ensures o.Throws? <==> r.Failure?
    ensures o.Throws? ==> o.exception.Runtime?
    ensures r.Success? ==> o == Returns(r.value)
  {
    match r
    case Success(_) => SuccessRecord.Get(r)
    case Failure(_) => FailureRecord.Get(r)
  }

  /** getOrElse(d): the value if the result is ok, otherwise d; never throws. */
  function GetOrElse<T, E>(r: Result<T, E>, default: Nullable<T>): (o: Outcome<Nullable<T>, T, E>)
    ensures o.Returns?
    ensures r.Success? ==> o.result == r.value
    ensures r.Failure? ==> o.result == default
  {
    match r
    case Success(_) => SuccessRecord.GetOrElse(r, default)
    case Failure(_) => FailureRecord.GetOrElse(r, default)
  }

  /** getError(): the error if the result is an error, otherwise a RuntimeException. */
  function GetError<T, E>(r: Result<T, E>): (o: Outcome<Nullable<E>, T, E>)
    ensures o.Throws? <==> r.Success?
    ensures o.Throws? ==> o.exception.Runtime?
    ensures r.Failure? ==> o == Returns(r.error)
  {
    match r
    case Success(_) => SuccessRecord.GetError(r)
    case Failure(_) => FailureRecord.GetError(r)
  }

  /** getErrorOrElse(d): the error if the result is an error, otherwise d; never throws. */
  function GetErrorOrElse<T, E>(r: Result<T, E>, default: Nullable<E>): (o: Outcome<Nullable<E>, T, E>)
    ensures o.Returns?
    ensures r.Failure? ==> o.result == r.error
    ensures r.Success? ==> o.result == default
  {
    match r
    case Success(_) => SuccessRecord.GetErrorOrElse(r, default)
    case Failure(_) => FailureRecord.GetErrorOrElse(r, default)
  }

  /**
   * toOptional(): an Optional holding the value of an ok result and empty for an
   * error; the empty Success makes it throw.
   */
  function ToOptional<T, E>(r: Result<T, E>): (o: Outcome<Optional<T>, T, E>)
    ensures o.Throws? <==> r == Success(Null)
    ensures o.Throws? ==> o.exception == NullPointer
    ensures o.Returns? ==> (o.result.Present? <==> r.Success?)
    ensures o.Returns? && r.Success? ==> r.value == NonNull(o.result.content)
  {
    match r
    case Success(_) => SuccessRecord.ToOptional(r)
    case Failure(_) => FailureRecord.ToOptional(r)
  }

  /**
   * toOptionalError(): an Optional holding the error of an error result and empty
   * for an ok result; the empty Failure makes it throw.
   */
  function ToOptionalError<T, E>(r: Result<T, E>): (o: Outcome<Optional<E>, T, E>)
    ensures o.Throws? <==> r == Failure(Null)
    ensures o.Throws? ==> o.exception == NullPointer
    ensures o.Returns? ==> (o.result.Present? <==> r.Failure?)
    ensures o.Returns? && r.Failure? ==> r.error == NonNull(o.result.content)
  {
    match r
    case Success(_) => SuccessRecord.ToOptionalError(r)
    case Failure(_) => FailureRecord.ToOptionalError(r)
  }

  /**
   * map(f): a null f throws whatever the variant; otherwise an ok result has its
   * value mapped and an error result keeps its error.
   */
  function Map<T, E, U>(r: Result<T, E>, mapper: Mapper<T, U>): (o: Outcome<Result<U, E>, T, E>)
    ensures o.Throws? <==> mapper.Null?
    ensures o.Throws? ==> o.exception == NullPointer
    ensures o.Returns? ==> o.result.Success? == r.Success?
    ensures o.Returns? && r.Success? ==> o.result.value == mapper.obj(r.value)
    ensures o.Returns? && r.Failure? ==> o.result.error == r.error
  {
    match r
    case Success(_) => SuccessRecord.Map(r, mapper)
    case Failure(_) => FailureRecord.Map(r, mapper)
  }

  /**
   * mapError(f): a null f throws whatever the variant; otherwise an error result
   * has its error mapped and an ok result keeps its value.
   */
  function MapError<T, E, X>(r: Result<T, E>, mapper: Mapper<E, X>): (o: Outcome<Result<T, X>, T, E>)
    ensures o.Throws? <==> mapper.Null?
    ensures o.Throws? ==> o.exception == NullPointer
    ensures o.Returns? ==> o.result.Failure? == r.Failure?
    ensures o.Returns? && r.Failure? ==> o.result.error == mapper.obj(r.error)
    ensures o.Returns? && r.Success? ==> o.result.value == r.value
  {
    match r
    case Success(_) => SuccessRecord.MapError(r, mapper)
    case Failure(_) => FailureRecord.MapError(r, mapper)
  }

  /** isError(): true exactly for a Failure. */
  function IsError<T, E>(r: Result<T, E>): (b: bool)
    ensures b <==> r.Failure?
  {
    match r
    case Success(_) => SuccessRecord.IsError(r)
    case Failure(_) => FailureRecord.IsError(r)
  }

  /** isOk(): true exactly for a Success. */
  function IsOk<T, E>(r: Result<T, E>): (b: bool)
    ensures b <==> r.Success?
  {
    match r
    case Success(_) => SuccessRecord.IsOk(r)
    case Failure(_) => FailureRecord.IsOk(r)
  }
}
