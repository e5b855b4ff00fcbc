/** Swift's optional values. */
module Wrappers {

  /** `T?` in Swift: either nil or a wrapped value. */
  datatype Option<+T> = None | Some(value: T) {

    /** The `??` operator: the wrapped value, or `default` for nil. */
    function GetOr(default: T): T {
      match this
      case Some(v) => v
      case None => default
    }
  }
}
