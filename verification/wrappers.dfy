/** Optional values (Java's nullable references and `Optional`,
    JavaScript's `undefined`/`null`) and results of operations that may
    throw. */
module Wrappers {
  datatype Option<T> = None | Some(value: T)
  {
    function GetOr(default: T): T
    {
      if Some? then value else default
    }
  }

  datatype Result<T, E> = Ok(value: T) | Err(error: E)
}
