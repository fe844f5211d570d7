/** Optional values and error results, standing for Python's `None` and raised errors. */
module Options {

  datatype Option<+T> = None | Some(value: T) {
    function GetOr(default: T): T {
      match this
      case Some(v) => v
      case None => default
    }
  }

  datatype Result<+T, +E> = Ok(value: T) | Err(error: E)

  /** Python truthiness of an optional string: present and non-empty. */
  predicate Truthy(s: Option<string>) {
    s.Some? && s.value != ""
  }

  /** Python truthiness of an optional list: present and non-empty. */
  predicate TruthyList<T>(s: Option<seq<T>>) {
    s.Some? && |s.value| > 0
  }

  /** `x or default` for an optional integer column (NULL and 0 both fall back). */
  function OrInt(x: Option<int>, default: int): int {
    if x.Some? && x.value != 0 then x.value else default
  }
}
