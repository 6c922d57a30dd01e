/** Optional values: a missing dict key, a failed request, a result that is None. */
module Wrappers {

  datatype Option<T> = None | Some(value: T) {

    /** The value, or `default` when there is none (Python's `d.get(key, default)`). */
    function GetOr(default: T): T {
      if Some? then value else default
    }
  }
}
