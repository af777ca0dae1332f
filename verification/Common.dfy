/** Small definitions that several components share. */
module Common {

  datatype Option<T> = None | Some(value: T)

  /** The profile of a VM that names none. */
  const DEFAULT_PROFILE := "default"

  function Min(a: int, b: int): int { if a < b then a else b }

  function Max(a: int, b: int): int { if a < b then b else a }

  /** The next element of a map iteration: any one of those left. */
  method PickAny<T(==)>(s: set<T>) returns (x: T)
    requires s != {}
    ensures x in s
  {
    x :| x in s;
  }
}
