/** Optional values: a JSON key that may be absent from its object. */
module Options {

  /** `None` stands for a key missing from the JSON object; `Some(v)` for a key present with value `v`. */
  datatype Option<+T> = None | Some(value: T) {

    /** The value when present, otherwise `default` (Python's `dict.get(key, default)`). */
    function GetOr(default: T): T {
      match this
      case Some(v) => v
      case None => default
    }
  }
}
