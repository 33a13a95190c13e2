/** Outcomes shared by the whole model.
    A Rust `Result` becomes `Result<T, E>`; a Rust panic (an out-of-bounds index,
    `unwrap` on `None`/`Err`, `expect`) becomes the `Panic` alternative of `Run<T>`,
    so that the model can say which inputs abort instead of forbidding them. */
module Outcome {

  datatype Option<+T> = None | Some(value: T)

  datatype Result<+T, +E> = Ok(value: T) | Err(error: E)

  /** Why a computation aborted. */
  datatype PanicCause =
    | IndexOutOfBounds(index: nat, len: nat)  // `v[i]` with `i >= v.len()`
    | UnwrapNone                              // `Option::unwrap` on `None`
    | SplitAtOutOfBounds(mid: nat, len: nat)  // `str::split_at(mid)` with `mid > len`
    | TimestampUnparseable(text: string)      // `.parse::<DateTime<Utc>>().unwrap()` on `Err`
    | BatchRejected                           // `RecordBatch::try_new(..).unwrap()` on `Err`
    | ProjectionOutOfRange(index: nat)        // `project_schema(..).unwrap()` on `Err`
    | ReadFailed(message: string)             // `read_all().unwrap()` on `Err`
    | ReaderFailed(message: string)           // `LogReader::new(..).expect("LogReader failed")`

  /** A computation that either finishes with a value or aborts. */
  datatype Run<+T> = Done(value: T) | Panic(cause: PanicCause)
}
