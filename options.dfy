/** Optional values and results with an error, used wherever the profiler
    either produces a value or raises. */
module Options {

  datatype Option<+T> = None | Some(value: T)

  datatype Result<+T, +E> = Ok(value: T) | Err(error: E)
}
