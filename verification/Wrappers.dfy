/** Optional values and failures. */
module Wrappers {

  datatype Option<+T> = None | Some(value: T)

  /** The value, if there is one, as a sequence. */
  function Items<T>(x: Option<T>): seq<T> { if x.Some? then [x.value] else [] }

  datatype Result<+T, +E> = Ok(value: T) | Err(error: E)
}
