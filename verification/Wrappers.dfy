/** Optional values and results, wherever the programs use null pointers, status codes,
    exceptions or error returns. */
module Wrappers {

  datatype Option<T> = None | Some(value: T)

  datatype Result<T> = Ok(value: T) | Err
}
