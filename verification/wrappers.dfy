/** The optional value every lookup of the adapter returns: `None` stands for
    JavaScript's `null` or `undefined`, whichever the operation resolves to. */
module Wrappers {

  datatype Option<T> = None | Some(value: T) {

    /** The value, or `default` when there is none. */
    function GetOr(default: T): T {
      match this
      case Some(v) => v
      case None => default
    }
  }
}
