/** The Option and Result datatypes used throughout the model. */
module Wrappers {

  /** A value that may be absent: a JavaScript `undefined`/`null` field or a failed lookup. */
  datatype Option<+T> = None | Some(value: T)

  /** The outcome of a step that either yields a value or an error passed on to the caller. */
  datatype Result<+T, +E> = Success(value: T) | Failure(error: E)

  /** Keyed lookup in a table: `None` when the key is missing (a `findById` that finds nothing). */
  function Find<K, V>(m: map<K, V>, k: K): (r: Option<V>)
    ensures r.Some? <==> k in m
    ensures r.Some? ==> r.value == m[k]
  {
    if k in m then Some(m[k]) else None
  }
}
