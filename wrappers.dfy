/** Option and Result values used for Go's `(value, error)` pairs and Python's exceptions. */
module Wrappers {

  datatype Option<+T> = None | Some(value: T) {
    function GetOr(default: T): T {
      match this
      case Some(v) => v
      case None => default
    }
  }

  datatype Result<+T, +E> = Success(value: T) | Failure(error: E)

  /** `m[k]` with Go's zero value semantics: a missing key reads as `None` (a nil slice). */
  function Lookup<K, V>(m: map<K, Option<V>>, k: K): (r: Option<V>)
    ensures k !in m ==> r == None
    ensures k in m ==> r == m[k]
  {
    if k in m then m[k] else None
  }
}
