/** Failure-carrying wrappers shared by every module: a C# `null` becomes `None`,
    a thrown exception becomes `Err`. */
module Common {

  datatype Option<+T> = None | Some(value: T)

  datatype Result<+T, +E> = Ok(value: T) | Err(error: E)

  /** A step that either completes or fails, with no value of its own. */
  datatype Outcome<+E> = Pass | Fail(error: E)
}
