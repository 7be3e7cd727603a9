/**
 * A chain of map calls, r.map(f1).map(f2)...map(fn), as a caller composes them.
 * The chain stops at the first exception, just as the Java expression does.
 */
module Pipelines {
  import opened JavaLang
  import opened ResultType
  import opened ResultApi

  predicate AllNonNull<T>(fs: seq<Mapper<T, T>>)
  {
    forall i :: 0 <= i < |fs| ==> fs[i].NonNull?
  }

  /** The functions of a null-free chain applied to v in order: fn(...f2(f1(v))). */
  function Composed<T>(fs: seq<Mapper<T, T>>, v: Nullable<T>): Nullable<T>
    requires AllNonNull(fs)
    decreases |fs|
  {
    if fs == [] then v else Composed(fs[1..], fs[0].obj(v))
  }

  /**
   * The chain throws NullPointerException exactly when one of its mappers is null
   * (on a Failure as well, since map checks its argument before looking at the
   * variant); otherwise a Failure comes out unchanged and a Success holds the
   * composed functions applied to its value.
   */
  function MapChain<T, E>(r: Result<T, E>, fs: seq<Mapper<T, T>>): (o: Outcome<Result<T, E>, T, E>)
    ensures o.Throws? <==> exists i :: 0 <= i < |fs| && fs[i].Null?
    ensures o.Throws? ==> o.exception == NullPointer
    ensures o.Returns? ==> o.result.Success? == r.Success?
    ensures o.Returns? && r.Failure? ==> o.result == r
    ensures AllNonNull(fs) && r.Success? ==> o == Returns(Success(Composed(fs, r.value)))
    decreases |fs|
  {
    if fs == [] then Returns(r)
    else
      match Map(r, fs[0])
      case Throws(x) => Throws(x)
      case Returns(next) => MapChain(next, fs[1..])
  }

  /** Runs the rest of a chain after a first part, passing an exception through. */
  function Then<T, E>(o: Outcome<Result<T, E>, T, E>, gs: seq<Mapper<T, T>>): Outcome<Result<T, E>, T, E>
  {
    match o
    case Throws(x) => Throws(x)
    case Returns(r) => MapChain(r, gs)
  }

  /** Splitting a chain anywhere gives the same outcome as running it whole. */
  lemma {:induction false} MapChainAppend<T, E>(r: Result<T, E>, fs: seq<Mapper<T, T>>, gs: seq<Mapper<T, T>>)
    ensures MapChain(r, fs + gs) == Then(MapChain(r, fs), gs)
    decreases |fs|
  {
    if fs == [] {
      assert fs + gs == gs;
    } else {
      assert (fs + gs)[0] == fs[0];
      assert (fs + gs)[1..] == fs[1..] + gs;
      match Map(r, fs[0])
      case Throws(x) =>
      case Returns(next) => MapChainAppend(next, fs[1..], gs);
    }
  }
}
