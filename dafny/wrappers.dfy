/** Option and Result: the absent value (`null`/`undefined`/`None`) and the error
    return (`Err(String)`, a thrown exception) of the modelled code. */
module Wrappers {

  datatype Option<+T> = None | Some(value: T) {
    function GetOr(default: T): T {
      match this
      case Some(v) => v
      case None => default
    }
  }

  datatype Result<+T> = Ok(value: T) | Err(error: string)
}
