/** The optional value used throughout: a nullable column, a missing dictionary key, a failed lookup. */
module Options {
  datatype Option<+T> = None | Some(value: T) {
    function GetOr(default: T): T {
      match this
      case Some(v) => v
      case None => default
    }
  }
}
