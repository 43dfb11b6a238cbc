// The optional value used across the model for a value that may be `undefined`.
module Options {
  datatype Option<+T> = None | Some(value: T) {
    // The `??` operator.
    function OrElse(other: Option<T>): Option<T> {
      if Some? then this else other
    }

    function GetOr(default: T): T {
      if Some? then value else default
    }
  }

  datatype Result<+T> = Success(value: T) | Failure
}
