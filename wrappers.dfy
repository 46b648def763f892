/** Missing values and failures. `None` stands for a pandas NaN cell; `Result`
    carries the exceptions the script would raise and not catch. */
module Wrappers {

  datatype Option<+T> = None | Some(value: T) {
    function GetOr(default: T): T {
      match this
      case Some(v) => v
      case None => default
    }
  }

  datatype Result<+R, +E> = Ok(value: R) | Err(error: E)
}
