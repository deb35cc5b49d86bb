/** Optional values (a C# `null`) and the outcome of a call that may throw. */
module Optional {

  /** A value that may be absent, as a nullable C# reference or `bool?`. */
  datatype Option<T> = None | Some(value: T)

  /** The value a C# method returns, or the message of the exception it throws. */
  datatype Result<T> = Ok(value: T) | Thrown(message: string)
}
