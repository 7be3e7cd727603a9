# jfun-lib Result in Dafny

A model of `org.jfun.result`: the sealed interface `Result<T, ERR>`, which permits exactly the two
records `Success(value)` and `Failure(error)`, its four static factories, and the ten methods each
record implements (`get`, `getOrElse`, `getError`, `getErrorOrElse`, `toOptional`,
`toOptionalError`, `map`, `mapError`, `isError`, `isOk`).

Layout, one module per source file plus shared types and laws:

- `java_lang.dfy` (`JavaLang`): Java references that may be null (`Nullable`), `java.util.Optional`
  (`Optional`), and caller-supplied `Function`s (`Mapper`). A mapper is itself nullable, takes a
  nullable argument and may return null.
- `result_type.dfy` (`ResultType`): `Result<T, E> = Success(value) | Failure(error)`, the exceptions
  the core raises (`NullPointer`, and `Runtime` with the message it carries), and `Outcome`, which is
  what a call does: it returns a value or it throws.
- `success_record.dfy` (`SuccessRecord`) and `failure_record.dfy` (`FailureRecord`): each record's
  methods as functions of their receiver, which must be that record. The `EMPTY` singleton is
  the record whose component is `Null`.
- `result_api.dfy` (`ResultApi`): the factories `success(v)`, `success()`, `failure(e)` and
  `failure()`. It also has each interface method, dispatched to the record that implements it and
  stated against the interface's documented contract.
- `result_laws.dfy` (`ResultLaws`): laws that relate these operations. They cover factory/accessor
  round trips, `isOk` versus `isError`, how the accessors agree with each other, the identity and
  composition laws of `map` and `mapError`, independence from an unused mapper, and two end-to-end
  examples.
- `pipelines.dfy` (`Pipelines`): a chain `r.map(f1)...map(fn)` and its laws, proved by induction.
- `findings.dfy` (`Findings`): the `Optional.of(null)` finding below.

Where the library's design notes and its code disagree, the model follows the code:

- `toOptional` throws on the empty Success and `toOptionalError` throws on the empty Failure.
  The description says both never fail.
- Null arguments raise `NullPointerException` (from `Objects.requireNonNull` or `Optional.of`).
  Wrong-variant accessors raise `RuntimeException`. The description calls these InvalidArgument and
  InvalidState.
- `flatMap`, `flatMapError`, `filter` and `filterError` appear in the description but not in the
  code, so they are not modelled.
- `Failure.map` builds a new `Failure(error)` instead of returning the receiver. With value
  semantics the two are equal, and `ResultLaws.MapIgnoresMapperOnFailure` states that.

## Model

| member | source | states |
|---|---|---|
| `SuccessRecord.Empty` | src/main/java/org/jfun/result/Success.java:9-14 | the shared empty Success holds a null value |
| `SuccessRecord.Get` | src/main/java/org/jfun/result/Success.java:16-19 | get returns the held value, null for the empty singleton, and never throws |
| `SuccessRecord.GetOrElse` | src/main/java/org/jfun/result/Success.java:21-24 | getOrElse returns the held value whatever default it is given |
| `SuccessRecord.GetError` | src/main/java/org/jfun/result/Success.java:26-29 | getError always throws a RuntimeException whose message carries the value |
| `SuccessRecord.GetErrorOrElse` | src/main/java/org/jfun/result/Success.java:31-34 | getErrorOrElse returns the default |
| `SuccessRecord.ToOptional` | src/main/java/org/jfun/result/Success.java:36-39 | toOptional throws NullPointerException exactly when the value is null, else is Optional.of(value) |
| `SuccessRecord.ToOptionalError` | src/main/java/org/jfun/result/Success.java:41-44 | toOptionalError is always empty |
| `SuccessRecord.Map` | src/main/java/org/jfun/result/Success.java:46-50 | map throws NullPointerException exactly for a null mapper, else returns Success(f(value)) |
| `SuccessRecord.MapError` | src/main/java/org/jfun/result/Success.java:52-56 | mapError throws exactly for a null mapper, else returns a Success with the same value |
| `SuccessRecord.IsError` | src/main/java/org/jfun/result/Success.java:58-61 | isError is false |
| `SuccessRecord.IsOk` | src/main/java/org/jfun/result/Success.java:63-66 | isOk is true |
| `FailureRecord.Empty` | src/main/java/org/jfun/result/Failure.java:9-14 | the shared empty Failure holds a null error |
| `FailureRecord.Get` | src/main/java/org/jfun/result/Failure.java:16-19 | get always throws a RuntimeException whose message carries the error |
| `FailureRecord.GetOrElse` | src/main/java/org/jfun/result/Failure.java:21-24 | getOrElse returns the default |
| `FailureRecord.GetError` | src/main/java/org/jfun/result/Failure.java:26-29 | getError returns the held error, null for the empty singleton |
| `FailureRecord.GetErrorOrElse` | src/main/java/org/jfun/result/Failure.java:31-34 | getErrorOrElse returns the held error and ignores the default, even when the error is null |
| `FailureRecord.ToOptional` | src/main/java/org/jfun/result/Failure.java:36-39 | toOptional is always empty |
| `FailureRecord.ToOptionalError` | src/main/java/org/jfun/result/Failure.java:41-44 | toOptionalError throws NullPointerException exactly when the error is null, else is Optional.of(error) |
| `FailureRecord.Map` | src/main/java/org/jfun/result/Failure.java:46-50 | map throws exactly for a null mapper, else returns a Failure with the same error |
| `FailureRecord.MapError` | src/main/java/org/jfun/result/Failure.java:53-57 | mapError throws exactly for a null mapper, else returns Failure(f(error)) |
| `FailureRecord.IsError` | src/main/java/org/jfun/result/Failure.java:59-62 | isError is true |
| `FailureRecord.IsOk` | src/main/java/org/jfun/result/Failure.java:64-67 | isOk is false |
| `ResultApi.SuccessOf` | src/main/java/org/jfun/result/Result.java:14-17 | success(v) throws NullPointerException exactly when v is null, else is a Success holding exactly v |
| `ResultApi.SuccessEmpty` | src/main/java/org/jfun/result/Result.java:19-21 | success() is the Success with a null value |
| `ResultApi.FailureOf` | src/main/java/org/jfun/result/Result.java:23-26 | failure(e) throws NullPointerException exactly when e is null, else is a Failure holding exactly e |
| `ResultApi.FailureEmpty` | src/main/java/org/jfun/result/Result.java:28-30 | failure() is the Failure with a null error |
| `ResultApi.Get` | src/main/java/org/jfun/result/Result.java:32-36 | get throws a RuntimeException exactly when the result is an error, else returns the value |
| `ResultApi.GetOrElse` | src/main/java/org/jfun/result/Result.java:38-41 | getOrElse never throws: the value when ok, the default when an error |
| `ResultApi.GetError` | src/main/java/org/jfun/result/Result.java:43-47 | getError throws a RuntimeException exactly when the result is ok, else returns the error |
| `ResultApi.GetErrorOrElse` | src/main/java/org/jfun/result/Result.java:49-52 | getErrorOrElse never throws: the error when an error, the default when ok |
| `ResultApi.ToOptional` | src/main/java/org/jfun/result/Result.java:54-57 | present exactly for an ok result, holding its value; throws only for the empty Success |
| `ResultApi.ToOptionalError` | src/main/java/org/jfun/result/Result.java:59-62 | present exactly for an error result, holding its error; throws only for the empty Failure |
| `ResultApi.Map` | src/main/java/org/jfun/result/Result.java:64-67 | a null mapper throws for both variants; otherwise the variant is kept, the value mapped and the error kept |
| `ResultApi.MapError` | src/main/java/org/jfun/result/Result.java:69-72 | a null mapper throws for both variants; otherwise the variant is kept, the error mapped and the value kept |
| `ResultApi.IsError` | src/main/java/org/jfun/result/Result.java:74-77 | isError holds exactly for a Failure |
| `ResultApi.IsOk` | src/main/java/org/jfun/result/Result.java:79-82 | isOk holds exactly for a Success |
| `ResultLaws.SuccessRoundTrip` | src/main/java/org/jfun/result/Result.java:14-17 | every accessor of success(v) reports exactly v, and the result is ok and not an error |
| `ResultLaws.FailureRoundTrip` | src/main/java/org/jfun/result/Result.java:23-26 | every accessor of failure(e) reports exactly e, and the result is an error and not ok |
| `ResultLaws.FactoriesNeverBuildEmpty` | src/main/java/org/jfun/result/Result.java:14-30 | success(v) and failure(e) never produce the empty singletons that success() and failure() return |
| `ResultLaws.EmptySuccessIgnoresDefault` | src/main/java/org/jfun/result/Success.java:9-24 | the empty Success's get and getOrElse return null, whatever default getOrElse is given |
| `ResultLaws.EmptyFailureIgnoresDefault` | src/main/java/org/jfun/result/Failure.java:9-34 | the empty Failure's getError and getErrorOrElse return null, whatever default getErrorOrElse is given |
| `ResultLaws.ExactlyOneVariant` | src/main/java/org/jfun/result/Result.java:12 | isOk is the negation of isError for every result |
| `ResultLaws.GetOrElseAgreesWithGet` | src/main/java/org/jfun/result/Result.java:32-41 | getOrElse equals get whenever get returns, and is the default exactly when get throws |
| `ResultLaws.GetErrorOrElseAgreesWithGetError` | src/main/java/org/jfun/result/Result.java:43-52 | getErrorOrElse equals getError whenever that returns, and is the default exactly when it throws |
| `ResultLaws.ToOptionalAgreesWithGetOrElse` | src/main/java/org/jfun/result/Result.java:54-57 | toOptional is empty exactly when get throws and is present(x) exactly when get returns x |
| `ResultLaws.ToOptionalErrorAgreesWithGetErrorOrElse` | src/main/java/org/jfun/result/Result.java:59-62 | toOptionalError is empty exactly when getError throws and is present(x) exactly when getError returns x |
| `ResultLaws.MapIdentity` | src/main/java/org/jfun/result/Success.java:46-50 | map(x -> x) returns a result equal to the receiver, for both variants |
| `ResultLaws.MapErrorIdentity` | src/main/java/org/jfun/result/Failure.java:53-57 | mapError(x -> x) returns a result equal to the receiver, for both variants |
| `ResultLaws.MapComposition` | src/main/java/org/jfun/result/Success.java:46-50 | map(f).map(g) equals map(g . f) |
| `ResultLaws.MapErrorComposition` | src/main/java/org/jfun/result/Failure.java:53-57 | mapError(f).mapError(g) equals mapError(g . f) |
| `ResultLaws.MapIgnoresMapperOnFailure` | src/main/java/org/jfun/result/Failure.java:46-50 | on a Failure, map(f) returns an equal Failure whichever non-null f it is given |
| `ResultLaws.MapErrorIgnoresMapperOnSuccess` | src/main/java/org/jfun/result/Success.java:52-56 | on a Success, mapError(f) returns an equal Success whichever non-null f it is given |
| `ResultLaws.MapCommutesWithMapError` | src/main/java/org/jfun/result/Result.java:64-72 | map and mapError commute |
| `ResultLaws.DoubledSuccessExample` | src/main/java/org/jfun/result/Success.java:46-50 | success(5).map(x -> x * 2).get() is 10 |
| `ResultLaws.BoomFailureExample` | src/main/java/org/jfun/result/Failure.java:21-50 | failure("boom").map(x -> x * 2) gives -1 from getOrElse(-1) and "boom" from getErrorOrElse("?") |
| `Pipelines.MapChain` | src/main/java/org/jfun/result/Result.java:64-67 | a chain of maps throws exactly when some mapper is null, keeps a Failure unchanged, and applies the composed mappers to a Success's value |
| `Pipelines.MapChainAppend` | src/main/java/org/jfun/result/Result.java:64-67 | running a chain whole equals running its first part and then the rest |
| `Findings.EmptySuccessToOptionalThrows` | src/main/java/org/jfun/result/Success.java:36-39 | success().toOptional() throws NullPointerException |
| `Findings.EmptyFailureToOptionalErrorThrows` | src/main/java/org/jfun/result/Failure.java:41-44 | failure().toOptionalError() throws NullPointerException |
| `Findings.ToOptionalIntended` | src/main/java/org/jfun/result/Result.java:54-57 | Optional.ofNullable semantics: never throws, present exactly when an ok result holds a non-null value |
| `Findings.ToOptionalErrorIntended` | src/main/java/org/jfun/result/Result.java:59-62 | never throws, present exactly when an error result holds a non-null error |
| `Findings.ToOptionalIntendedAgrees` | src/main/java/org/jfun/result/Success.java:36-39 | the intended toOptional equals the written one wherever that returns, differs only on the empty Success, and agrees with getOrElse |
| `Findings.ToOptionalErrorIntendedAgrees` | src/main/java/org/jfun/result/Failure.java:41-44 | the intended toOptionalError equals the written one wherever that returns, differs only on the empty Failure, and agrees with getErrorOrElse |

## Left out

- Reference identity of the `EMPTY` singletons and the unchecked casts in `empty()`. Datatypes have value semantics, so "the same shared instance" becomes "always the same value" (`Success(Null)` or `Failure(Null)`).
- Exact exception message strings. They are built by string concatenation and `toString` of arbitrary objects, so the model keeps the message's kind and the payload it embeds (`Message`), not the characters.
- Exceptions thrown by a caller's mapper, and its side effects. Mappers are total, pure functions, and "not invoked" is stated as "the result does not depend on the mapper".
- The records' generated `equals`, `hashCode` and `toString`. Datatype equality stands in for `equals`.
- `flatMap`, `flatMapError`, `filter` and `filterError`. No core source file declares them.
- Thread-safety of shared immutable values. There is no concurrency logic.

## Findings

| source | as written | input that shows it | evidently intended | confidence | as-written member | corrected member |
|---|---|---|---|---|---|---|
| src/main/java/org/jfun/result/Success.java:36-39 | `Optional.of(value)`, which throws on a null value | `Result.success().toOptional()` throws NullPointerException | `Optional.ofNullable(value)`: an empty Optional for the value-less Success, as the interface's "containing the value, if present" says | medium, not executed | `Findings.EmptySuccessToOptionalThrows` | `Findings.ToOptionalIntended` |
| src/main/java/org/jfun/result/Failure.java:41-44 | `Optional.of(error)`, which throws on a null error | `Result.failure().toOptionalError()` throws NullPointerException | `Optional.ofNullable(error)`: an empty Optional for the error-less Failure | medium, not executed | `Findings.EmptyFailureToOptionalErrorThrows` | `Findings.ToOptionalErrorIntended` |
