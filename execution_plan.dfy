/** The physical plan of a log table: a leaf node with one partition that,
    when executed, reads the whole file into one batch. The schema it
    announces is the projected one, but the batch it streams is the full,
    unprojected result of `read_all`. */
module ExecutionPlan {
  import opened Outcome
  import opened ArrowTypes
  import LogReader
  import DataSource

  datatype ExecutionMode = Bounded | Unbounded

  datatype Partitioning = UnknownPartitioning(count: nat)

  /** The cached plan properties: the schema the equivalence properties are
      built over, the output partitioning and the execution mode. */
  datatype PlanProperties = PlanProperties(equivalence: Schema, partitioning: Partitioning, mode: ExecutionMode)

  datatype LogExecutionPlan = LogExecutionPlan(db: DataSource.LogDataSource, projectedSchema: Schema, cache: PlanProperties)

  /** A stream over batches kept in memory, announcing `schema`. */
  datatype MemoryStream = MemoryStream(batches: seq<RecordBatch>, schema: Schema)

  /** `compute_properties`: one partition, bounded, over the given schema. */
  function ComputeProperties(schema: Schema): (p: PlanProperties)
    ensures p.equivalence == schema
    ensures p.partitioning == UnknownPartitioning(1) && p.mode == Bounded
  {
    PlanProperties(schema, UnknownPartitioning(1), Bounded)
  }

  /** `LogExecutionPlan::new`: projects the schema (`unwrap`, so an
      out-of-range index aborts) and computes the properties once from the
      projected schema. */
  function New(projection: Option<seq<nat>>, schema: Schema, db: DataSource.LogDataSource): (r: Run<LogExecutionPlan>)
    ensures r.Done? <==> ProjectSchema(schema, projection).Ok?
    ensures r.Panic? ==> r.cause == ProjectionOutOfRange(ProjectSchema(schema, projection).error)
    ensures r.Done? ==> && r.value.db == db
                        && r.value.projectedSchema == ProjectSchema(schema, projection).value
                        && r.value.cache == ComputeProperties(r.value.projectedSchema)
  {
    match ProjectSchema(schema, projection)
    case Err(i) => Panic(ProjectionOutOfRange(i))
    case Ok(projected) => Done(LogExecutionPlan(db, projected, ComputeProperties(projected)))
  }

  /** `ExecutionPlan::schema`: the projected schema fixed at construction. */
  function PlanSchema(plan: LogExecutionPlan): (s: Schema)
    ensures s == plan.projectedSchema
  {
    plan.projectedSchema
  }

  /** `ExecutionPlan::properties`: the properties cached at construction. */
  function Properties(plan: LogExecutionPlan): (p: PlanProperties)
    ensures p == plan.cache
  {
    plan.cache
  }

  /** `ExecutionPlan::children`: a leaf. */
  function Children(plan: LogExecutionPlan): (r: seq<LogExecutionPlan>)
    ensures |r| == 0
  {
    []
  }

  /** `with_new_children`: the plan itself, whatever is passed. */
  function WithNewChildren(plan: LogExecutionPlan, children: seq<LogExecutionPlan>): (r: Result<LogExecutionPlan, string>)
    ensures r == Ok(plan)
  {
    Ok(plan)
  }

  /** `ExecutionPlan::execute`: reads the file through the data source's
      reader; a read error aborts (`unwrap`), so does a malformed line, and
      otherwise the stream holds exactly the read batch under the plan's
      schema. The partition number is not used. */
  function Execute(plan: LogExecutionPlan, partition: nat, fs: LogReader.FileSystem): (r: Run<MemoryStream>)
    ensures r.Done? <==> LogReader.ReadAllSpec(plan.db.reader, fs).Done? && LogReader.ReadAllSpec(plan.db.reader, fs).value.Ok?
    ensures r.Done? ==> && r.value.batches == [LogReader.ReadAllSpec(plan.db.reader, fs).value.value]
                        && r.value.schema == PlanSchema(plan)
    ensures LogReader.ReadAllSpec(plan.db.reader, fs).Panic? ==> r == Panic(LogReader.ReadAllSpec(plan.db.reader, fs).cause)
    ensures LogReader.ReadAllSpec(plan.db.reader, fs).Done? && LogReader.ReadAllSpec(plan.db.reader, fs).value.Err? ==>
            r == Panic(ReadFailed(LogReader.ErrorText(LogReader.ReadAllSpec(plan.db.reader, fs).value.error)))
  {
    match LogReader.ReadAllSpec(plan.db.reader, fs)
    case Panic(c) => Panic(c)
    case Done(Err(e)) => Panic(ReadFailed(LogReader.ErrorText(e)))
    case Done(Ok(batch)) => Done(MemoryStream([batch], PlanSchema(plan)))
  }

  /** What `new` builds: the schema is the whole one without a projection,
      the chosen fields in the projection's order with one, and the
      properties promise one bounded partition over that schema. */
  lemma NewPlanSchema(projection: Option<seq<nat>>, schema: Schema, db: DataSource.LogDataSource)
    requires New(projection, schema, db).Done?
    ensures var plan := New(projection, schema, db).value;
      && (projection.None? ==> PlanSchema(plan) == schema)
      && (projection.Some? ==> && |PlanSchema(plan)| == |projection.value|
                               && forall k :: 0 <= k < |projection.value| ==> PlanSchema(plan)[k] == schema[projection.value[k]])
      && Properties(plan).equivalence == PlanSchema(plan)
      && Properties(plan).partitioning == UnknownPartitioning(1)
      && Properties(plan).mode == Bounded
      && Children(plan) == []
  {
  }

  /** ... and `new` aborts exactly when some index is past the schema. */
  lemma NewPlanAborts(projection: Option<seq<nat>>, schema: Schema, db: DataSource.LogDataSource)
    ensures New(projection, schema, db).Panic? <==>
            projection.Some? && exists k :: 0 <= k < |projection.value| && projection.value[k] >= |schema|
  {
  }

  /** Replacing the children changes nothing, and the plan stays a leaf. */
  lemma NewChildrenKeepPlan(plan: LogExecutionPlan, children: seq<LogExecutionPlan>)
    ensures WithNewChildren(plan, children).Ok?
    ensures PlanSchema(WithNewChildren(plan, children).value) == PlanSchema(plan)
    ensures Children(WithNewChildren(plan, children).value) == []
  {
  }

  /** Every partition number gives the same stream. */
  lemma ExecuteIgnoresPartition(plan: LogExecutionPlan, p1: nat, p2: nat, fs: LogReader.FileSystem)
    ensures Execute(plan, p1, fs) == Execute(plan, p2, fs)
  {
  }

  /** A file that cannot be read aborts the execution instead of returning
      an error, with the read's message. */
  lemma ExecuteAbortsOnReadError(plan: LogExecutionPlan, partition: nat, fs: LogReader.FileSystem)
    requires LogReader.ReadLines(fs, plan.db.reader.path).Err?
    ensures Execute(plan, partition, fs) == Panic(ReadFailed(LogReader.ReadLines(fs, plan.db.reader.path).error))
  {
    LogReader.ReadAllErrors(plan.db.reader, fs);
  }

  /** The stream of a plan over a log table holds one batch with all four
      columns and a row per line, even when the plan's schema is projected:
      with the projection `[0, 1]` the stream announces two fields and
      carries four columns. */
  lemma ExecuteIsUnprojected(ds: DataSource.LogDataSource, partition: nat, fs: LogReader.FileSystem)
    requires ds.reader.schema == LogReader.LogSchema
    requires LogReader.ReadAllSpec(ds.reader, fs).Done? && LogReader.ReadAllSpec(ds.reader, fs).value.Ok?
    ensures New(Some([0, 1]), LogReader.LogSchema, ds).Done?
    ensures var plan := New(Some([0, 1]), LogReader.LogSchema, ds).value;
      var stream := Execute(plan, partition, fs);
      && stream.Done?
      && |stream.value.batches| == 1
      && stream.value.schema == [LogReader.LogSchema[0], LogReader.LogSchema[1]]
      && NumColumns(stream.value.batches[0]) == 4
      && NumRows(stream.value.batches[0]) == |LogReader.ReadLines(fs, ds.reader.path).value|
  {
    LogReader.ReadAllBatch(ds.reader, fs);
    var plan := New(Some([0, 1]), LogReader.LogSchema, ds).value;
    assert PlanSchema(plan) == [LogReader.LogSchema[0], LogReader.LogSchema[1]];
  }
}
