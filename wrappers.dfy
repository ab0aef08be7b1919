/**
 * Small wrapper types shared by every module of the model.
 *
 * `Option` stands for Python's `None`-or-value and TypeScript's
 * `undefined`-or-value; `Result` stands for "returns a value" versus "raises
 * an exception", the exception being named by its class (for example
 * `"ValueError"`).
 */
module Wrappers {
  datatype Option<T> = None | Some(value: T)
  {
    predicate IsSome() { this.Some? }

    function GetOr(default: T): (r: T)
      ensures this.None? ==> r == default
      ensures this.Some? ==> r == value
    {
      match this
      case None => default
      case Some(v) => v
    }
  }

  datatype Result<T> = Ok(value: T) | Err(error: string)
  {
    predicate IsFailure() { this.Err? }
  }
}
