/** Small shared vocabulary: optional values, results, the adapter's errors and durations. */
module Base {

  datatype Option<+T> = None | Some(value: T)

  datatype Result<+R, +E> = Success(value: R) | Failure(error: E)

  /** The failures the adapter itself produces (driver and network failures are not modelled). */
  datatype AdapterError =
    | TooManyArguments   // more than one timeout argument was given to a constructor
    | InvalidUrl         // the normalised connection URL could not be parsed
    | IndexBuildFailed   // the unique index could not be created over the existing documents
    | DuplicateKey       // a write would give two documents the same (ptype, v0..v5)
    | FilteredSave       // SavePolicy after a filtered load
    | NotUpdatable       // UpdatePolicy on an adapter not built as updatable

  /** Go's time.Duration: a count of nanoseconds. */
  type Duration = int

  const Second: Duration := 1_000_000_000

  /** The identifier (`_id`) the store gives a document when it is inserted. */
  type ObjectId = nat
}
