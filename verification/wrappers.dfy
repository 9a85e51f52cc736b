/** The optional-value type shared by the spider and the pipeline models. */
module Wrappers {

  /** `None` stands for Python's `None` or for a key that is absent. */
  datatype Option<+T> = None | Some(value: T) {

    /** The value held in `Some`, or `default` when there is none. */
    function GetOr(default: T): (r: T)
      ensures Some? ==> r == value
      ensures None? ==> r == default
    {
      match this
      case Some(v) => v
      case None => default
    }
  }
}
