/** The table provider: a log file registered as a table under a name.
    Everything it answers is fixed by the reader it holds; the filters and
    the limit the engine passes to `scan` are not used. */
module DataSource {
  import opened Outcome
  import opened ArrowTypes
  import LogReader

  /** A filter expression of the engine, known here only by its display. */
  datatype Expr = Expr(display: string)

  datatype TableType = Base | View | Temporary

  /** How far the provider promises to apply a pushed-down filter. */
  datatype FilterPushDown = Unsupported | Inexact | Exact

  datatype LogDataSource = LogDataSource(name: string, path: string, reader: LogReader.LogReader)

  /** `LogDataSource::new`: builds the reader and aborts (`expect`) when the
      path does not exist; otherwise keeps the name, the path and the reader. */
  function New(tableName: string, tablePath: string, fs: LogReader.FileSystem): (r: Run<LogDataSource>)
    ensures r.Panic? <==> tablePath !in fs
    ensures r.Panic? ==> r.cause == ReaderFailed("path " + tablePath + " does not exist")
    ensures r.Done? ==> && r.value.name == tableName && r.value.path == tablePath
                        && r.value.reader == LogReader.LogReader(tablePath, LogReader.LogSchema)
  {
    match LogReader.New(tablePath, fs)
    case Err(e) => Panic(ReaderFailed(LogReader.ErrorText(e)))
    case Ok(reader) => Done(LogDataSource(tableName, tablePath, reader))
  }

  /** `TableProvider::schema`: the reader's schema. */
  function TableSchema(ds: LogDataSource): (s: Schema)
    ensures s == LogReader.ReaderSchema(ds.reader)
  {
    ds.reader.schema
  }

  /** `TableProvider::table_type`: every log table is a base table. */
  function GetTableType(ds: LogDataSource): (t: TableType)
    ensures t == Base
  {
    Base
  }

  /** `supports_filters_pushdown`: one `Inexact` per filter. The call never
      fails. */
  function SupportsFiltersPushdown(ds: LogDataSource, filters: seq<Expr>): (r: Result<seq<FilterPushDown>, string>)
    ensures r.Ok?
    ensures |r.value| == |filters|
    ensures forall k :: 0 <= k < |r.value| ==> r.value[k] == Inexact
  {
    Ok(seq(|filters|, _ => Inexact))
  }

  /** A table built by `new` answers the four log fields as its schema, and
      is a base table. */
  lemma TableOfNew(tableName: string, tablePath: string, fs: LogReader.FileSystem)
    requires New(tableName, tablePath, fs).Done?
    ensures TableSchema(New(tableName, tablePath, fs).value) == LogReader.LogSchema
    ensures |TableSchema(New(tableName, tablePath, fs).value)| == 4
    ensures GetTableType(New(tableName, tablePath, fs).value) == Base
  {
  }

  /** The pushdown answer depends on nothing but the number of filters. */
  lemma PushdownOnlyCounts(ds1: LogDataSource, f1: seq<Expr>, ds2: LogDataSource, f2: seq<Expr>)
    requires |f1| == |f2|
    ensures SupportsFiltersPushdown(ds1, f1) == SupportsFiltersPushdown(ds2, f2)
  {
    var a := SupportsFiltersPushdown(ds1, f1).value;
    var b := SupportsFiltersPushdown(ds2, f2).value;
    assert a == b;
  }
}

/** `scan` and `create_physical_plan`: building the execution plan of a
    table. The conversion of the filters into a pruning predicate is a call
    into the engine and is passed in as a function. */
module DataSourceScan {
  import opened Outcome
  import opened ArrowTypes
  import opened DataSource
  import ExecutionPlan
  import LogReader

  /** `create_physical_plan`: hands the projection, the schema and the data
      source to the plan unchanged; the plan's construction may abort. */
  function CreatePhysicalPlan(ds: LogDataSource, projection: Option<seq<nat>>, schema: ArrowTypes.Schema)
    : (r: Run<Result<ExecutionPlan.LogExecutionPlan, string>>)
    ensures r.Panic? <==> ProjectSchema(schema, projection).Err?
    ensures r.Done? ==> && r.value.Ok?
                        && r.value.value.db == ds
                        && r.value.value.projectedSchema == ProjectSchema(schema, projection).value
  {
    match ExecutionPlan.New(projection, schema, ds)
    case Panic(c) => Panic(c)
    case Done(plan) => Done(Ok(plan))
  }

  /** `TableProvider::scan`: an error from the predicate conversion is
      returned; otherwise the plan is the one for the projection over the
      table's schema. */
  function Scan(ds: LogDataSource, projection: Option<seq<nat>>, filters: seq<Expr>, limit: Option<nat>,
                toPredicate: seq<Expr> -> Result<Expr, string>)
    : (r: Run<Result<ExecutionPlan.LogExecutionPlan, string>>)
    ensures toPredicate(filters).Err? ==> r == Done(Err(toPredicate(filters).error))
    ensures toPredicate(filters).Ok? ==> r == CreatePhysicalPlan(ds, projection, TableSchema(ds))
  {
    match toPredicate(filters)
    case Err(e) => Done(Err(e))
    case Ok(_) => CreatePhysicalPlan(ds, projection, TableSchema(ds))
  }

  /** Filters and limit do not reach the plan: once the predicate conversion
      succeeds, two scans with the same projection build the same plan. */
  lemma ScanIgnoresFiltersAndLimit(ds: LogDataSource, projection: Option<seq<nat>>,
                                   f1: seq<Expr>, l1: Option<nat>, f2: seq<Expr>, l2: Option<nat>,
                                   toPredicate: seq<Expr> -> Result<Expr, string>)
    requires toPredicate(f1).Ok? && toPredicate(f2).Ok?
    ensures Scan(ds, projection, f1, l1, toPredicate) == Scan(ds, projection, f2, l2, toPredicate)
  {
  }

  /** Over a table built by `new`: no projection plans all four fields, a
      projection plans the chosen fields in its own order, and an index past
      the fourth field aborts the scan. */
  lemma ScanOfLogTable(ds: LogDataSource, projection: Option<seq<nat>>, filters: seq<Expr>, limit: Option<nat>,
                       toPredicate: seq<Expr> -> Result<Expr, string>)
    requires TableSchema(ds) == LogReader.LogSchema
    requires toPredicate(filters).Ok?
    ensures var r := Scan(ds, projection, filters, limit, toPredicate);
      && (r.Panic? <==> projection.Some? && exists k :: 0 <= k < |projection.value| && projection.value[k] >= 4)
      && (r.Done? && projection.None? ==> r.value.value.projectedSchema == LogReader.LogSchema)
      && (r.Done? && projection.Some? ==>
            && |r.value.value.projectedSchema| == |projection.value|
            && forall k :: 0 <= k < |projection.value| ==>
                 r.value.value.projectedSchema[k] == LogReader.LogSchema[projection.value[k]])
  {
  }
}
