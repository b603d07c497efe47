/** Optional values and results shared by every module. */
module Wrappers {

  datatype Option<T> = None | Some(value: T)

  datatype Result<T> = Success(value: T) | Failure(error: string)

  function OptionOr<T>(o: Option<T>, default: T): T {
    if o.Some? then o.value else default
  }
}
