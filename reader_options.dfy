/** The options record of the log reader, built from its defaults and
    changed by value, one field per setter. */
module ReaderOptions {
  import opened Outcome
  import opened ArrowTypes

  datatype LogReaderOptions = LogReaderOptions(
    schema: Option<Schema>,
    fileExtension: string,
    tablePartitionCols: seq<(string, DataType)>,
    filerLevel: string)

  /** `Default::default`: no schema, the `.log` extension, no partition
      columns and the `info` level. */
  function Default(): (o: LogReaderOptions)
    ensures o.schema.None?
    ensures o.fileExtension == ".log"
    ensures o.tablePartitionCols == []
    ensures o.filerLevel == "info"
  {
    LogReaderOptions(None, ".log", [], "info")
  }

  /** `table_partition_cols`: replaces the partition columns, keeps the rest. */
  function WithTablePartitionCols(o: LogReaderOptions, cols: seq<(string, DataType)>): (r: LogReaderOptions)
    ensures r.tablePartitionCols == cols
    ensures r.schema == o.schema && r.fileExtension == o.fileExtension && r.filerLevel == o.filerLevel
  {
    o.(tablePartitionCols := cols)
  }

  /** `schema`: sets the schema, keeps the rest. */
  function WithSchema(o: LogReaderOptions, s: Schema): (r: LogReaderOptions)
    ensures r.schema == Some(s)
    ensures r.tablePartitionCols == o.tablePartitionCols && r.fileExtension == o.fileExtension
            && r.filerLevel == o.filerLevel
  {
    o.(schema := Some(s))
  }

  /** The two setters touch different fields, so their order does not
      matter ... */
  lemma SettersCommute(o: LogReaderOptions, cols: seq<(string, DataType)>, s: Schema)
    ensures WithSchema(WithTablePartitionCols(o, cols), s) == WithTablePartitionCols(WithSchema(o, s), cols)
  {
  }

  /** ... and a second call of a setter overrides the first. */
  lemma LastSetterWins(o: LogReaderOptions, c1: seq<(string, DataType)>, c2: seq<(string, DataType)>,
                       s1: Schema, s2: Schema)
    ensures WithTablePartitionCols(WithTablePartitionCols(o, c1), c2) == WithTablePartitionCols(o, c2)
    ensures WithSchema(WithSchema(o, s1), s2) == WithSchema(o, s2)
  {
  }

  /** Setting both fields of the defaults gives the record with those two
      fields and the default extension and level. */
  lemma ConfiguredDefaults(cols: seq<(string, DataType)>, s: Schema)
    ensures WithSchema(WithTablePartitionCols(Default(), cols), s) == LogReaderOptions(Some(s), ".log", cols, "info")
  {
  }
}
