/** Option and Result, the two failure-carrying datatypes the model uses in
    place of .NET's null references and exceptions. */
module Wrappers {

  /** A value that may be missing: what `GetValue` returns for an absent
      registry value, or what `OpenSubKey` returns for an absent key. */
  datatype Option<+T> = None | Some(value: T) {

    /** Returns the value in Some, or a default when None. */
    function GetOr(default: T): (r: T)
    {
      match this
      case Some(v) => v
      case None => default
    }
  }

  /** The outcome of a step that can raise: a value, or the fault it raised. */
  datatype Result<+T, +E> = Success(value: T) | Failure(error: E)
}
