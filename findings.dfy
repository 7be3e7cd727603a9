/**
 * toOptional() on the empty Success and toOptionalError() on the empty Failure
 * call Optional.of(null) and throw, although the interface describes them as
 * conversions to an Optional holding the payload if present. The intended
 * conversions are Optional.ofNullable, given here beside the as-written ones.
 */
module Findings {
  import opened JavaLang
  import opened ResultType
  import opened ResultApi

  /** success().toOptional() throws NullPointerException, as written. */
  lemma EmptySuccessToOptionalThrows<T, E>()
    ensures ToOptional(SuccessEmpty<T, E>()) == Throws(NullPointer)
  {
  }

  /** failure().toOptionalError() throws NullPointerException, as written. */
  lemma EmptyFailureToOptionalErrorThrows<T, E>()
    ensures ToOptionalError(FailureEmpty<T, E>()) == Throws(NullPointer)
  {
  }

  /** Optional.ofNullable over a possibly-null payload. */
  function OfNullable<X>(x: Nullable<X>): Optional<X>
  {
    match x
    case Null => Absent
    case NonNull(v) => Present(v)
  }

  /** toOptional() as intended: never throws, and holds the value exactly when one is present. */
  function ToOptionalIntended<T, E>(r: Result<T, E>): (o: Optional<T>)
    ensures o.Present? <==> r.Success? && r.value.NonNull?
    ensures o.Present? ==> r.value == NonNull(o.content)
  {
    match r
    case Success(value) => OfNullable(value)
    case Failure(_) => Absent
  }

  /** toOptionalError() as intended: never throws, and holds the error exactly when one is present. */
  function ToOptionalErrorIntended<T, E>(r: Result<T, E>): (o: Optional<E>)
    ensures o.Present? <==> r.Failure? && r.error.NonNull?
    ensures o.Present? ==> r.error == NonNull(o.content)
  {
    match r
    case Success(_) => Absent
    case Failure(error) => OfNullable(error)
  }

  /**
   * The intended toOptional() agrees with the written one wherever that returns,
   * differs only on the empty Success, and, like getOrElse, yields the value or
   * falls back.
   */
  lemma ToOptionalIntendedAgrees<T, E>(r: Result<T, E>, d: Nullable<T>)
    ensures ToOptional(r).Returns? ==> ToOptional(r).result == ToOptionalIntended(r)
    ensures ToOptional(r).Throws? <==> r == SuccessEmpty()
    ensures ToOptionalIntended(r).Present? ==> GetOrElse(r, d) == Returns(NonNull(ToOptionalIntended(r).content))
    ensures ToOptionalIntended(SuccessEmpty<T, E>()) == Absent
  {
  }

  /** The same for toOptionalError() and getErrorOrElse. */
  lemma ToOptionalErrorIntendedAgrees<T, E>(r: Result<T, E>, d: Nullable<E>)
    ensures ToOptionalError(r).Returns? ==> ToOptionalError(r).result == ToOptionalErrorIntended(r)
    ensures ToOptionalError(r).Throws? <==> r == FailureEmpty()
    ensures ToOptionalErrorIntended(r).Present? ==> GetErrorOrElse(r, d) == Returns(NonNull(ToOptionalErrorIntended(r).content))
    ensures ToOptionalErrorIntended(FailureEmpty<T, E>()) == Absent
  {
  }
}
