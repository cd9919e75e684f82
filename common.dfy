/** Small shared vocabulary: optional values, results with an error, bytes. */
module Common {

  /** Go's nil-or-value: a nil pointer, slice or map is None. */
  datatype Option<+T> = None | Some(value: T) {
    function GetOr(default: T): T {
      match this
      case Some(v) => v
      case None => default
    }
  }

  /** A value together with Go's `error` return. */
  datatype Result<+T, +E> = Ok(value: T) | Err(error: E)

  /** One octet of a byte slice. */
  type byte = x: int | 0 <= x < 256

  /** Go's `m[k]` on a map of slices: a missing key reads as the nil slice. */
  function Lookup<K, V>(m: map<K, seq<V>>, k: K): (r: seq<V>)
    ensures k !in m ==> r == []
  {
    if k in m then m[k] else []
  }
}
