/** Shared vocabulary of the CSV subject-metadata import: optional values,
    results, the run's fatal errors and the shape of one decoded CSV row. */
module Base {

  datatype Option<+T> = None | Some(value: T)

  datatype Result<+R, +E> = Success(value: R) | Failure(error: E)

  /** The fatal conditions of an import run. */
  datatype ImportError =
    /** No header name contains "id" or "subject" (case-insensitively) and no
        match column is configured. */
    | NoMatchColumn
    /** A row has no entry for the match column: `pop` raises `KeyError`. */
    | MissingKey(column: string)

  /** One row as the CSV dictionary reader yields it: header name to cell.
      A cell is `None` when the line had fewer fields than there are headers. */
  type Row = map<string, Option<string>>

  /** Python truthiness of an optional configuration string or cell:
      `None` and the empty string are false, every other string is true. */
  predicate Truthy(s: Option<string>)
  {
    s.Some? && s.value != ""
  }
}
