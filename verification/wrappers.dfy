/** Optional values: the model's stand-in for a Python result that may be
    `None`. */
module Wrappers {

  datatype Option<+T> = None | Some(value: T) {

    /** What `dict.get(key, fallback)` yields when the lookup found this:
        the held value if there is one, otherwise `fallback`. */
    function ValueOr(fallback: T): T {
      if Some? then value else fallback
    }
  }
}
