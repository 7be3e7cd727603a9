/**
 * Stand-ins for the few Java platform types the result algebra touches:
 * nullable references, java.util.Optional and java.util.function.Function.
 */
module JavaLang {

  /** A Java reference that may be null. */
  datatype Nullable<X> = Null | NonNull(obj: X)

  /** java.util.Optional: either empty or holding a non-null value. */
  datatype Optional<X> = Absent | Present(content: X)

  /**
   * A caller-supplied java.util.function.Function. The reference itself may be
   * null, it may be applied to null, and it may return null.
   */
  type Mapper<!A, B> = Nullable<Nullable<A> -> Nullable<B>>
}
