/** Nullable values as Option; validation outcomes as Result. */
module Optional {

  datatype Option<+T> = None | Some(value: T) {

    /** The value if present, else `default` (the `??` operator). */
    function GetOr(default: T): T {
      match this
      case Some(v) => v
      case None => default
    }
  }

  datatype Result<+T, +E> = Success(value: T) | Failure(error: E)
}
