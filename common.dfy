/** Values shared by the backend and the dashboard. */
module Common {

  /** A JavaScript value that may be absent (`undefined`, `null` or `NaN`, by context). */
  datatype Option<T> = None | Some(value: T)

  /** One parsed CSV row: column name to the cell's (trimmed) string. */
  type Record = map<string, string>

  function Min(a: int, b: int): int { if a <= b then a else b }

  function Max(a: int, b: int): int { if a <= b then b else a }
}
