/** Optional values: the model's stand-in for TypeScript's `T | null` and
    `T | undefined`, and for destructuring with a default value. */
module Optional {

  datatype Option<T> = None | Some(value: T) {

    /** The value if present, otherwise `default` (a destructuring default). */
    function GetOr(default: T): (r: T)
      ensures Some? ==> r == value
      ensures None? ==> r == default
    {
      match this
      case Some(v) => v
      case None => default
    }
  }
}
