/** Small shared value types: optional values, results, and a model of the
    dynamically typed Python values the core receives as arguments. */
module Basics {

  datatype Option<+T> = None | Some(value: T)

  datatype Result<+R, +E> = Success(value: R) | Failure(error: E)

  /** A Python argument that should be a string: `None`, a `str`, or a value
      of some other type (an `int`, a `list`, ...). */
  datatype Raw = NoneValue | Str(s: string) | OtherType
}
