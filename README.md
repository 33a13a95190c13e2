# datafusion_log_reader, modelled in Dafny

This project models the log-to-table bridge of the `datafusion_log_reader`
crate, with proofs. The crate turns a text log file into one Arrow record batch with four
columns (`time`, `level`, `location`, `message`). It exposes that batch to a
DataFusion-style query engine through a table provider and a leaf execution
plan.

A log line reads `[<timestamp>] [<level>] [<location>] <message>`. The
reader cuts a line on `[`, space and `]` and drops the empty pieces. Token 0 is
the timestamp, read as a UTC date-time and stored as microseconds since the
Unix epoch. Token 1 is the level and token 2 the location. The message is the
rest of the raw line, starting two bytes after the first occurrence of the
location text.

Modules (one per concern, dependencies in this order):

- `Outcome` (outcome.dfy): `Option`, `Result`, and `Run`. `Run` is either a
  finished value or a panic with its cause. Rust panics (`unwrap`, `expect`,
  an index past the end, `split_at` past the end) are modelled as values,
  so that the model can say which inputs abort.
- `Text` (text.dfy): `str::split` on the three delimiters, the filter of
  empty pieces (`Tokens`), and `str::find`.
- `UtcTime` (utc_time.dfy): the timestamp text form and its conversion to
  epoch microseconds.
- `ArrowTypes` (arrow_types.dfy): field types, fields, schemas, schema
  projection, columns and `RecordBatch::try_new`.
- `LogReader` (log_reader.dfy): `LogReader::new`, the fixed schema, the line
  parser, `read_all` and `Iterator::next`. `ReadAll` is an imperative method
  with the source's loop over the lines. It grows the four column sequences
  and is proved equal to the specification function `ReadAllSpec`.
- `DataSource` and `DataSourceScan` (datasource.dfy): the table provider
  and its `scan` / `create_physical_plan`.
- `ExecutionPlan` (execution_plan.dfy): the leaf plan and `execute`.
- `ReaderOptions` (reader_options.dfy): the options record and its setters.

The file system is a parameter: a map from path to either the file's lines
or a reason the file cannot be read as text.

The model follows the code, including where it differs from what a reader might expect:

- A missing path gives a `General` error from `LogReader::new`, not a
  dedicated not-found error.
- A malformed line is not reported as a format error. It aborts the whole
  read (an index panic, an `unwrap` panic or a `split_at` panic).
- `execute` does not apply the projection to the batch. The stream announces
  the projected schema but carries all four columns (`ExecuteIsUnprojected`).
- An out-of-range projection index aborts plan construction (`unwrap`); it
  is not reported as an input error.
- `execute` aborts on a read error; it does not return the error.
- The message is found at the *first* occurrence of the location text
  anywhere in the line. When that text already appears in the level, the
  message starts too early and keeps the location's bracket
  (`LocationRepeatsLevel`). This is modelled as written.

## Model

| member | source | states |
|---|---|---|
| Text.Split | src/lib.rs:85-87 | every piece of `split` is free of `[`, space and `]`, and there is at least one piece |
| Text.SplitRoundTrip | src/lib.rs:85-87 | the pieces, with the delimiters put back between them, give the line back; there is one more piece than delimiters |
| Text.SplitUnique | src/lib.rs:85-87 | any cutting of a line into delimiter-free pieces and delimiters is the one `split` finds |
| Text.Tokens | src/lib.rs:85-90 | every token is non-empty and free of delimiters |
| Text.TokensOfConcat | src/lib.rs:85-90 | a delimiter separates the tokens on its two sides: the tokens of `a + d + b` are those of `a` followed by those of `b` |
| Text.Find | src/lib.rs:94 | `find` gives the first index where the text occurs, and `None` exactly when it occurs nowhere |
| Text.TokenOccurs | src/lib.rs:94 | every token of a line occurs in the line, so `find` on a token always succeeds |
| UtcTime.ParseFormat | src/lib.rs:99 | the text of a valid date-time parses back to that date-time |
| UtcTime.FormatParse | src/lib.rs:99 | every text that parses is the text of the valid date-time it parses to, so parsing accepts exactly the formatted texts |
| UtcTime.EpochDayOfEpoch | src/lib.rs:100 | day 0 of the epoch count is 1970-01-01 |
| UtcTime.EpochDayNext | src/lib.rs:100 | the epoch day goes up by exactly one from each valid date to the next, across months, years and leap days |
| UtcTime.ParseTimestamp | src/lib.rs:99-100 | a timestamp is read exactly when the text parses as a date-time; it is then valid, is the text of that date-time, and the result is its epoch microseconds |
| UtcTime.ParseTimestampOfFormat | src/lib.rs:99-100 | the text of every valid date-time reads as that date-time's epoch microseconds |
| UtcTime.ParseTimestampExample | src/lib.rs:99-100 | `2023-01-01T10:00:00Z` is 1672567200000000 microseconds since the epoch |
| ArrowTypes.Project | src/execution_plan.rs:23 | projection succeeds exactly when every index is in range; the fields come in the order of the indices; otherwise the error is the first bad index |
| ArrowTypes.ProjectSchema | src/execution_plan.rs:23 | no projection keeps the whole schema; a projection is `Project` of its indices |
| ArrowTypes.TryNewBatch | src/lib.rs:111-120 | a batch is accepted exactly when there is at least one column, one column per field, each of exactly its field's type (a timestamp column only under a microsecond field without timezone), all of one length |
| LogReader.ReadLines | src/lib.rs:81-82 | reading succeeds exactly when the path holds a readable file, and gives its lines |
| LogReader.New | src/lib.rs:48-72 | construction fails exactly when nothing exists at the path, with the `General` error `path <p> does not exist`; otherwise the reader keeps the path and the four-field schema |
| LogReader.ReaderSchema | src/lib.rs:142-146 | the reader answers the schema stored at construction (the four log fields, by `SchemaIsFixed`) |
| LogReader.SchemaIsFixed | src/lib.rs:57-66 | a built reader's schema is time (microsecond timestamp, non-null), level (text, non-null), location (text, nullable), message (text, nullable), in that order |
| LogReader.Message | src/lib.rs:93-95 | the message is a suffix of the line that starts `|location| + 2` after the first occurrence of the location; the only aborts are a failed `find` and a `split_at` past the end; when it succeeds and when each abort happens is stated by `MessageCases` |
| LogReader.ParseLine | src/lib.rs:85-103 | a line aborts only with the index panic for fewer than 3 tokens, a `find`/`split_at` panic, or an unparseable timestamp; when each happens, and what a parsed row holds, is stated by `ParseLineCases` |
| LogReader.MessageCases | src/lib.rs:93-95 | the message is taken exactly when the location occurs and the split point is within the line, and is then the line from that point; a location that occurs nowhere is the `unwrap` panic, a split point past the end the `split_at` panic |
| LogReader.ParseLineCases | src/lib.rs:85-103 | fewer than 3 tokens is exactly the index panic; a line parses exactly when it has 3 tokens, its message is taken and its timestamp reads; otherwise it aborts with the message's panic or the timestamp panic, in that order; a parsed row holds token 1, token 2, the message and the timestamp's microseconds |
| LogReader.LocationAlwaysFound | src/lib.rs:94 | the `find(..).unwrap()` never fires, because the location is a token of the line |
| LogReader.ReadAll | src/lib.rs:74-123 | the loop builds the four columns, one entry per line, and returns what `ReadAllSpec` says: the IO error, the first bad line's panic, the `try_new` panic, or the batch |
| LogReader.ParseEachRows | src/lib.rs:82-104 | all lines parse exactly when each line does, and then there is one row per line, in order, each being its line's row |
| LogReader.ParseEachFirstPanic | src/lib.rs:82-104 | when the read aborts, it aborts with the panic of a line before which every line parsed |
| LogReader.ReadAllErrors | src/lib.rs:81 | `read_all` returns an error value exactly when the file read fails, and the error is the `IO` error of that read |
| LogReader.ReadAllAborts | src/lib.rs:94-120 | for a reader built by `new` over a readable file, `read_all` aborts exactly when some line is malformed; the `try_new(..).unwrap()` never fires |
| LogReader.ReadAllBatch | src/lib.rs:100-122 | a batch from `read_all` has the log schema and 4 columns of one entry per line; row `k` holds line `k`'s parsed timestamp, token 1, token 2 and message |
| LogReader.BatchAccepted | src/lib.rs:106-120 | the four columns the loop builds always satisfy `RecordBatch::try_new` under the log schema |
| LogReader.Next | src/lib.rs:134-139 | `next` never returns `None`; it aborts exactly when `read_all` does, yields the batch, and turns a read error into a cast error carrying the error's text |
| LogReader.TokensOfLine | src/lib.rs:85-90 | a line written as `[t] [l] [loc] m`, with delimiter-free non-empty parts, has the tokens `t`, `l`, `loc` and then the message's own tokens |
| LogReader.FormatLineParses | src/lib.rs:85-103 | a line written from a valid date-time, a non-empty level and a non-empty location both free of `[`, space and `]`, the location not occurring earlier in the line, and any message parses back to exactly those parts, with the date-time's epoch microseconds |
| LogReader.WorkedExample | src/lib.rs:85-103 | `[2023-01-01T10:00:00Z] [INFO] [loc] hello world` gives 1672567200000000, `INFO`, `loc`, `hello world` |
| LogReader.LocationRepeatsLevel | src/lib.rs:93-95 | when the location repeats a non-empty, delimiter-free level whose first character cannot occur in the timestamp text (not a digit, `-`, `T`, `:` or `Z`), the message is taken from inside the level and keeps `[<location>] ` in front |
| LogReader.LocationRecursInLevel | src/lib.rs:93-95 | `[2023-01-01T10:00:00Z] [INFO] [INFO] hello` gives the message `[INFO] hello` |
| DataSource.New | src/datasource.rs:21-29 | building the table aborts exactly when the path is missing; otherwise it keeps the name, the path and a reader over that path with the log schema |
| DataSource.TableSchema | src/datasource.rs:38-40 | the table's schema is its reader's schema |
| DataSource.GetTableType | src/datasource.rs:42-44 | every log table is a base table |
| DataSource.TableOfNew | src/datasource.rs:38-44 | a table built by `new` answers the four-field log schema and is a base table |
| DataSource.SupportsFiltersPushdown | src/datasource.rs:101-110 | the answer never fails and has exactly one `Inexact` per filter |
| DataSource.PushdownOnlyCounts | src/datasource.rs:109 | the pushdown answer depends only on the number of filters |
| DataSourceScan.CreatePhysicalPlan | src/datasource.rs:114-124 | the plan gets the data source and the projection of the given schema unchanged; it aborts exactly when the projection is out of range |
| DataSourceScan.Scan | src/datasource.rs:47-97 | a failing predicate conversion is returned as the error; otherwise the plan is the one for the projection over the table's own schema |
| DataSourceScan.ScanIgnoresFiltersAndLimit | src/datasource.rs:47-97 | once the predicate conversion succeeds for both filter lists, two scans with the same projection build the same plan, whatever their filters and limits |
| DataSourceScan.ScanOfLogTable | src/datasource.rs:96 | over the log table, once the predicate conversion succeeds, no projection plans all four fields, a projection plans the chosen fields in its order, and an index of 4 or more aborts |
| ExecutionPlan.ComputeProperties | src/execution_plan.rs:34-41 | the properties are built over the given schema, with exactly one partition and the bounded mode |
| ExecutionPlan.New | src/execution_plan.rs:21-31 | the plan is built exactly when the projection is in range, with the projected schema and the properties computed from it; otherwise it aborts with the bad index |
| ExecutionPlan.PlanSchema | src/execution_plan.rs:59-61 | the plan answers the projected schema fixed at construction |
| ExecutionPlan.Properties | src/execution_plan.rs:63-65 | the plan answers the properties cached at construction |
| ExecutionPlan.NewPlanSchema | src/execution_plan.rs:21-69 | a built plan's schema is the whole schema without projection and the chosen fields in order with one; its properties are one bounded partition over that schema; it has no children |
| ExecutionPlan.NewPlanAborts | src/execution_plan.rs:23 | construction aborts exactly when some projection index is past the schema |
| ExecutionPlan.Children | src/execution_plan.rs:67-69 | the plan is a leaf |
| ExecutionPlan.WithNewChildren | src/execution_plan.rs:71-76 | replacing the children returns the same plan |
| ExecutionPlan.NewChildrenKeepPlan | src/execution_plan.rs:71-76 | after replacing the children, the schema is unchanged and the plan is still a leaf |
| ExecutionPlan.Execute | src/execution_plan.rs:78-87 | execution succeeds exactly when `read_all` returns a batch; the stream then holds that one batch under the plan's schema; a read error or a malformed line aborts |
| ExecutionPlan.ExecuteIgnoresPartition | src/execution_plan.rs:80 | every partition number gives the same stream |
| ExecutionPlan.ExecuteAbortsOnReadError | src/execution_plan.rs:84-85 | an unreadable file aborts execution with the read's message instead of returning an error |
| ExecutionPlan.ExecuteIsUnprojected | src/execution_plan.rs:85-86 | with projection `[0, 1]` the stream announces two fields but its one batch has all 4 columns and a row per line |
| ReaderOptions.Default | src/reader_options.rs:18-27 | the defaults are no schema, extension `.log`, no partition columns and level `info` |
| ReaderOptions.WithTablePartitionCols | src/reader_options.rs:31-34 | the setter replaces the partition columns and keeps every other field |
| ReaderOptions.WithSchema | src/reader_options.rs:37-40 | the setter sets the schema and keeps every other field |
| ReaderOptions.SettersCommute | src/reader_options.rs:31-40 | the two setters can be applied in either order |
| ReaderOptions.LastSetterWins | src/reader_options.rs:31-40 | a second call of a setter overrides the first |
| ReaderOptions.ConfiguredDefaults | src/reader_options.rs:18-40 | setting both fields on the defaults keeps the default extension and level |

## Left out

- File access (`Path::exists`, `read_to_string`, `lines()`): modelled as a map from path to the file's lines or an unreadable reason. Line splitting on `\n`/`\r\n` and UTF-8 decoding are not modelled.
- Lines are taken to be ASCII, so a byte index is a character index; the UTF-8 char-boundary panic of `split_at` is not modelled.
- UtcTime.ParseTimestamp: covers only the RFC 3339 form `YYYY-MM-DDTHH:MM:SSZ` (section 5.6 of RFC 3339 with the `Z` offset) and years 0000-9999. chrono also accepts fractional seconds, numeric offsets, leap seconds and other variants.
- Panic messages are kept only as the cause and the error's own text (`ReaderFailed`, `ReadFailed`), not as the exact text Rust prints.
- `MemoryStream::try_new` with no projection is treated as always succeeding, so `execute` has no error value.
- `filters_to_predicate` belongs to the engine and is a function parameter of `Scan`. The `Session` and `TaskContext` arguments are left out.
- `ExecutionPlan::name`, `as_any`, `fmt_as` (constant display text) and `statistics` (unknown statistics) are left out; they carry no behaviour beyond a constant.
- The `Drop` impls and all `trace!`/`info!` logging only log, so they are left out.
- `async`, `Arc` and `Box::pin` are left out. Values are modelled as immutable data, which is how the source uses them: `read_all` and `next` take `&mut self` but write no field.
- Null entries in columns are not modelled, because the reader never produces one.
- src/context.rs (table registration) and examples/simple.rs (SQL through the engine) are not part of this model.
- The commented-out Parquet scan in `scan` and the commented-out `read_filetred` are dead code and are not modelled.
- The `Debug`-text schema comparison in the crate's test is not modelled; `SchemaIsFixed` states the fields directly.
