/**
 * Laws that relate the factories, accessors and combinators of Result to one
 * another.
 */
module ResultLaws {
  import opened JavaLang
  import opened ResultType
  import opened ResultApi

  /** success(v) with a non-null v is ok, and every accessor reports exactly v. */
  lemma SuccessRoundTrip<T, E>(v: T, d: Nullable<T>, de: Nullable<E>)
    ensures SuccessOf<T, E>(NonNull(v)).Returns?
    ensures var r := SuccessOf<T, E>(NonNull(v)).result;
      && IsOk(r) && !IsError(r)
      && Get(r) == Returns(NonNull(v))
      && GetOrElse(r, d) == Returns(NonNull(v))
      && GetError(r) == Throws(Runtime(ProvidedValidResult(NonNull(v))))
      && GetErrorOrElse(r, de) == Returns(de)
      && ToOptional(r) == Returns(Present(v))
      && ToOptionalError(r) == Returns(Absent)
  {
  }

  /** failure(e) with a non-null e is an error, and every accessor reports exactly e. */
  lemma FailureRoundTrip<T, E>(e: E, d: Nullable<T>, de: Nullable<E>)
    ensures FailureOf<T, E>(NonNull(e)).Returns?
    ensures var r := FailureOf<T, E>(NonNull(e)).result;
      && IsError(r) && !IsOk(r)
      && GetError(r) == Returns(NonNull(e))
      && GetErrorOrElse(r, de) == Returns(NonNull(e))
      && Get(r) == Throws(Runtime(InvalidResultProvided(NonNull(e))))
      && GetOrElse(r, d) == Returns(d)
      && ToOptionalError(r) == Returns(Present(e))
      && ToOptional(r) == Returns(Absent)
  {
  }

  /**
   * The value factories never build an empty singleton: success(v) either throws
   * or holds a non-null value, and likewise failure(e).
   */
  lemma FactoriesNeverBuildEmpty<T, E>(v: Nullable<T>, e: Nullable<E>)
    ensures SuccessOf<T, E>(v) != Returns(SuccessEmpty())
    ensures FailureOf<T, E>(e) != Returns(FailureEmpty())
  {
  }

  /** The empty Success hands back its null value from get and getOrElse, ignoring the default. */
  lemma EmptySuccessIgnoresDefault<T, E>(d: Nullable<T>)
    ensures Get(SuccessEmpty<T, E>()) == Returns(Null)
    ensures GetOrElse(SuccessEmpty<T, E>(), d) == Returns(Null)
  {
  }

  /** The empty Failure hands back its null error from getError and getErrorOrElse, ignoring the default. */
  lemma EmptyFailureIgnoresDefault<T, E>(d: Nullable<E>)
    ensures GetError(FailureEmpty<T, E>()) == Returns(Null)
    ensures GetErrorOrElse(FailureEmpty<T, E>(), d) == Returns(Null)
  {
  }

  /** A result is exactly one of the two variants. */
  lemma ExactlyOneVariant<T, E>(r: Result<T, E>)
    ensures IsOk(r) == !IsError(r)
  {
  }

  /** getOrElse(d) agrees with get() when get() returns and falls back to d exactly when it throws. */
  lemma GetOrElseAgreesWithGet<T, E>(r: Result<T, E>, d: Nullable<T>)
    ensures Get(r).Returns? ==> GetOrElse(r, d) == Get(r)
    ensures Get(r).Throws? ==> GetOrElse(r, d) == Returns(d)
  {
  }

  /** getErrorOrElse(d) agrees with getError() when it returns and falls back to d exactly when it throws. */
  lemma GetErrorOrElseAgreesWithGetError<T, E>(r: Result<T, E>, d: Nullable<E>)
    ensures GetError(r).Returns? ==> GetErrorOrElse(r, d) == GetError(r)
    ensures GetError(r).Throws? ==> GetErrorOrElse(r, d) == Returns(d)
  {
  }

  /**
   * Whenever toOptional() returns, it agrees with getOrElse: present(x) exactly
   * when getOrElse ignores its default and yields x.
   */
  lemma ToOptionalAgreesWithGetOrElse<T, E>(r: Result<T, E>, d: Nullable<T>)
    ensures ToOptional(r) == Returns(Absent) <==> Get(r).Throws?
    ensures forall x :: ToOptional(r) == Returns(Present(x)) <==> Get(r) == Returns(NonNull(x))
    ensures ToOptional(r) == Returns(Absent) ==> GetOrElse(r, d) == Returns(d)
  {
  }

  /**
   * Whenever toOptionalError() returns, it agrees with getErrorOrElse:
   * present(x) exactly when getError() yields x.
   */
  lemma ToOptionalErrorAgreesWithGetErrorOrElse<T, E>(r: Result<T, E>, d: Nullable<E>)
    ensures ToOptionalError(r) == Returns(Absent) <==> GetError(r).Throws?
    ensures forall x :: ToOptionalError(r) == Returns(Present(x)) <==> GetError(r) == Returns(NonNull(x))
    ensures ToOptionalError(r) == Returns(Absent) ==> GetErrorOrElse(r, d) == Returns(d)
  {
  }

  /** map(x -> x) gives back an equal result, for both variants. */
  lemma MapIdentity<T, E>(r: Result<T, E>)
    ensures Map<T, E, T>(r, NonNull(x => x)) == Returns(r)
  {
  }

  /** mapError(x -> x) gives back an equal result, for both variants. */
  lemma MapErrorIdentity<T, E>(r: Result<T, E>)
    ensures MapError<T, E, E>(r, NonNull(x => x)) == Returns(r)
  {
  }

  /** map(f).map(g) is map(g . f). */
  lemma MapComposition<T, E, U, V>(r: Result<T, E>, f: Nullable<T> -> Nullable<U>, g: Nullable<U> -> Nullable<V>)
    ensures Map(r, NonNull(f)).Returns?
    ensures Map(Map(r, NonNull(f)).result, NonNull(g)) == Returns(Map(r, NonNull(x => g(f(x)))).result)
  {
  }

  /** mapError(f).mapError(g) is mapError(g . f). */
  lemma MapErrorComposition<T, E, X, Y>(r: Result<T, E>, f: Nullable<E> -> Nullable<X>, g: Nullable<X> -> Nullable<Y>)
    ensures MapError(r, NonNull(f)).Returns?
    ensures MapError(MapError(r, NonNull(f)).result, NonNull(g)) == Returns(MapError(r, NonNull(x => g(f(x)))).result)
  {
  }

  /** On a Failure, map(f) does not depend on which non-null f it is given and keeps the error. */
  lemma MapIgnoresMapperOnFailure<T, E, U>(e: Nullable<E>, f: Nullable<T> -> Nullable<U>, g: Nullable<T> -> Nullable<U>)
    ensures Map(Failure(e), NonNull(f)) == Map(Failure(e), NonNull(g))
    ensures Map(Failure(e), NonNull(f)) == Returns(Failure(e))
  {
  }

  /** On a Success, mapError(f) does not depend on which non-null f it is given and keeps the value. */
  lemma MapErrorIgnoresMapperOnSuccess<T, E, X>(v: Nullable<T>, f: Nullable<E> -> Nullable<X>, g: Nullable<E> -> Nullable<X>)
    ensures MapError(Success(v), NonNull(f)) == MapError(Success(v), NonNull(g))
    ensures MapError(Success(v), NonNull(f)) == Returns(Success(v))
  {
  }

  /** map and mapError act on separate channels, so their order does not matter. */
  lemma MapCommutesWithMapError<T, E, U, X>(r: Result<T, E>, f: Nullable<T> -> Nullable<U>, g: Nullable<E> -> Nullable<X>)
    ensures Map(r, NonNull(f)).Returns? && MapError(r, NonNull(g)).Returns?
    ensures MapError(Map(r, NonNull(f)).result, NonNull(g)).result == Map(MapError(r, NonNull(g)).result, NonNull(f)).result
  {
  }

  /** Doubles a boxed integer, as the lambda x -> x * 2 does. */
  function Double(x: Nullable<int>): Nullable<int>
  {
    match x
    case Null => Null
    case NonNull(n) => NonNull(n * 2)
  }

  /** success(5).map(x -> x * 2).get() is 10. */
  lemma DoubledSuccessExample()
    ensures var s := SuccessOf<int, string>(NonNull(5));
      && s.Returns?
      && Map(s.result, NonNull(Double)).Returns?
      && Get(Map(s.result, NonNull(Double)).result) == Returns(NonNull(10))
  {
  }

  /** failure("boom").map(x -> x * 2) yields -1 from getOrElse(-1) and "boom" from getErrorOrElse("?"). */
  lemma BoomFailureExample()
    ensures var f := FailureOf<int, string>(NonNull("boom"));
      && f.Returns?
      && Map(f.result, NonNull(Double)).Returns?
      && GetOrElse(Map(f.result, NonNull(Double)).result, NonNull(-1)) == Returns(NonNull(-1))
      && GetErrorOrElse(Map(f.result, NonNull(Double)).result, NonNull("?")) == Returns(NonNull("boom"))
  {
  }
}
