/** Optional values: the model's counterpart of `java.util.Optional` where absence is
    meaningful (a `var` without initializer, an `if` without `else`, a class without
    superclass, a lookup that found nothing). */
module Wrappers {

  datatype Option<+T> = None | Some(value: T) {

    /** Returns the value held in Some, or `default` when None. */
    function GetOr(default: T): T {
      match this
      case Some(v) => v
      case None => default
    }
  }
}
