/** Optional values: a table cell that may hold a value or be missing (NaN/None). */
module Wrappers {

  datatype Option<+T> = None | Some(value: T) {

    /** The held value, or `default` when the cell is missing. */
    function GetOr(default: T): (r: T)
      ensures Some? ==> r == value
      ensures None? ==> r == default
    {
      match this
      case Some(v) => v
      case None => default
    }
  }
}
