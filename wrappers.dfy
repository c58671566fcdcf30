/** The optional-value wrapper used for fields a JavaScript object may lack. */
module Wrappers {

  /** `None` stands for a missing (undefined or null) property. */
  datatype Option<+T> = None | Some(value: T) {

    /** The value, or `default` when the property is missing. */
    function GetOr(default: T): T {
      match this
      case Some(v) => v
      case None => default
    }
  }
}
