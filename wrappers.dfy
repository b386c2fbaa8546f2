/** The optional-value datatype shared by every module of the model: `None` stands
    for JavaScript's `undefined`/`null` or for an operation that throws. */
module Wrappers {

  datatype Option<+T> = None | Some(value: T) {

    /** The value, or `default` when there is none (JavaScript's `x || default`
        on a value that cannot be falsy). */
    function GetOr(default: T): T {
      match this
      case Some(v) => v
      case None => default
    }
  }
}
