/** Option and Result, and the .NET exceptions the denormalization core can raise. */
module Wrappers {

  /** A value that may be absent: a C# `null`, a `decimal?` without a value. */
  datatype Option<+T> = None | Some(value: T)

  /** The exceptions the core can raise, named after the .NET exception that carries them:
      `DuplicateKey` is the ArgumentException of `Dictionary.Add` and `ToDictionary`,
      `KeyNotFound` the KeyNotFoundException of the dictionary indexer,
      `NullReference` the NullReferenceException of a member access on `null`. */
  datatype Error = DuplicateKey(key: int) | KeyNotFound(key: int) | NullReference

  /** The outcome of an operation that completes with a value or raises. */
  datatype Result<+T> = Ok(value: T) | Err(error: Error)

  /** A C# `string` reference: `None` is `null`. */
  type NullableString = Option<string>
}
