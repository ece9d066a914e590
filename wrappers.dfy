/** Option and Result values, and the Python exceptions the modelled code can raise. */
module Wrappers {

  datatype Option<+T> = None | Some(value: T) {
    function GetOr(default: T): T {
      match this
      case Some(v) => v
      case None => default
    }
  }

  /** The Python exception a modelled operation ends with instead of returning. */
  datatype PyError =
    | ValueError       // list.index of a missing element, max() of an empty sequence, np.concatenate of nothing
    | IndexError       // a list subscript out of range
    | KeyError         // a dictionary lookup of a missing key
    | UnboundLocalError // a local that no branch of an if/elif chain assigned
    | AttributeError   // a module attribute that does not exist

  datatype Result<+T> = Ok(value: T) | Err(error: PyError)
}
