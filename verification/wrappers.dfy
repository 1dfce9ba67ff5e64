/** Optional values and success/failure results shared by every module. */
module Wrappers {

  /** A value that may be absent: the source's `null`. */
  datatype Option<+T> = None | Some(value: T) {

    /** The wrapped value, or `default` when absent (PHP's `??`). */
    function GetOr(default: T): T {
      match this
      case Some(v) => v
      case None => default
    }
  }

  /** A value or the error that stopped the computation. */
  datatype Result<+R, +E> = Success(value: R) | Failure(error: E) {

    predicate IsFailure() {
      Failure?
    }

    function PropagateFailure<U>(): Result<U, E>
      requires Failure?
    {
      Failure(error)
    }

    function Extract(): R
      requires Success?
    {
      value
    }
  }

  /** The first value among `a`, `b` that is present (PHP's `a ?? b`). */
  function Coalesce<T>(a: Option<T>, b: Option<T>): (r: Option<T>)
    ensures r.Some? <==> a.Some? || b.Some?
    ensures a.Some? ==> r == a
    ensures a.None? ==> r == b
  {
    if a.Some? then a else b
  }

  /** `m[k] ?? null` on a PHP array modelled as a map. */
  function Lookup<K, V>(m: map<K, V>, k: K): (r: Option<V>)
    ensures r.Some? <==> k in m
    ensures r.Some? ==> r.value == m[k]
  {
    if k in m then Some(m[k]) else None
  }
}
