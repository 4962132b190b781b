/** Optional values, standing for the nullable references and the
    `TryGetValue`/`TryParse` out-parameter idiom of the program. */
module Wrappers {

  datatype Option<+T> = None | Some(value: T) {

    /** The value, or `default` when there is none. */
    function GetOr(default: T): T {
      match this
      case Some(v) => v
      case None => default
    }
  }
}
