/** Optional values and results with an error path, used where the C# code has
    `null` or throws an exception that a caller catches. */
module Wrappers {

  /** A C# nullable reference or value (`T?`). */
  datatype Option<+T> = None | Some(value: T)

  /** The outcome of a computation that may throw; `Fail` carries a description. */
  datatype Result<+T> = Ok(value: T) | Fail(reason: string)
}
