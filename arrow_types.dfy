/** The pieces of the columnar library and of the query engine that the log
    reader uses, reduced to what the reader observes: field types, fields,
    schemas, schema projection, columns and record batches. Null entries are
    not modelled: the reader never produces one. */
module ArrowTypes {
  import opened Outcome

  datatype TimeUnit = Second | Millisecond | Microsecond | Nanosecond

  /** The field types the reader uses; every other type is `Other`. */
  datatype DataType = Timestamp(unit: TimeUnit, timezone: Option<string>) | Utf8 | Other(name: string)

  datatype Field = Field(name: string, dataType: DataType, nullable: bool)

  /** A schema is its ordered list of fields (the reader attaches no metadata). */
  type Schema = seq<Field>

  datatype ArrowError = CastError(message: string) | SchemaError(message: string)

  /** `ArrowError`'s `Display`. */
  function ArrowErrorText(e: ArrowError): string {
    match e
    case CastError(m) => "Cast error: " + m
    case SchemaError(m) => "Schema error: " + m
  }

  /** `Schema::project`: the fields at `indices`, in the order of `indices`;
      the first index that is out of range is the error. */
  function Project(schema: Schema, indices: seq<nat>): (r: Result<Schema, nat>)
    ensures r.Ok? <==> forall k :: 0 <= k < |indices| ==> indices[k] < |schema|
    ensures r.Ok? ==> |r.value| == |indices|
    ensures r.Ok? ==> forall k :: 0 <= k < |indices| ==> r.value[k] == schema[indices[k]]
    ensures r.Err? ==> exists k :: 0 <= k < |indices| && indices[k] == r.error && r.error >= |schema|
                                   && forall j :: 0 <= j < k ==> indices[j] < |schema|
  {
    if indices == [] then Ok([])
    else if indices[0] >= |schema| then Err(indices[0])
    else match Project(schema, indices[1..])
      case Err(i) => Err(i)
      case Ok(rest) => Ok([schema[indices[0]]] + rest)
  }

  /** `project_schema`: no projection keeps the whole schema. */
  function ProjectSchema(schema: Schema, projection: Option<seq<nat>>): (r: Result<Schema, nat>)
    ensures projection.None? ==> r == Ok(schema)
    ensures projection.Some? ==> r == Project(schema, projection.value)
  {
    match projection
    case None => Ok(schema)
    case Some(indices) => Project(schema, indices)
  }

  /** A column of microsecond timestamps or of text values. */
  datatype Column = Timestamps(micros: seq<int>) | Strings(texts: seq<string>)

  function ColumnLength(c: Column): nat {
    match c
    case Timestamps(m) => |m|
    case Strings(t) => |t|
  }

  predicate ColumnFits(f: Field, c: Column) {
    match c
    case Timestamps(_) => f.dataType == Timestamp(Microsecond, None)
    case Strings(_) => f.dataType == Utf8
  }

  datatype RecordBatch = RecordBatch(schema: Schema, columns: seq<Column>)

  function NumColumns(b: RecordBatch): nat {
    |b.columns|
  }

  function NumRows(b: RecordBatch): nat {
    if b.columns == [] then 0 else ColumnLength(b.columns[0])
  }

  /** `RecordBatch::try_new`: at least one column (no row count is given),
      one column per field, of exactly the field's type, all of one length.
      The error value is only ever unwrapped, so it is not kept. */
  function TryNewBatch(schema: Schema, columns: seq<Column>): (r: Option<RecordBatch>)
    ensures r.Some? <==> && |columns| > 0
                         && |columns| == |schema|
                         && (forall k :: 0 <= k < |columns| ==> ColumnFits(schema[k], columns[k]))
                         && (forall k :: 0 <= k < |columns| ==> ColumnLength(columns[k]) == ColumnLength(columns[0]))
    ensures r.Some? ==> r.value.schema == schema && r.value.columns == columns
  {
    if && |columns| > 0
       && |columns| == |schema|
       && (forall k :: 0 <= k < |columns| ==> ColumnFits(schema[k], columns[k]))
       && (forall k :: 0 <= k < |columns| ==> ColumnLength(columns[k]) == ColumnLength(columns[0]))
    then Some(RecordBatch(schema, columns))
    else None
  }
}
