/** The log reader: construction over a file path, the fixed four-column
    schema, the line parser, the batch builder (`read_all`) and the iterator
    that re-reads the file on every step.

    A line has the shape `[<timestamp>] [<level>] [<location>] <message>`.
    It is cut into tokens on `[`, space and `]`; token 0 is the timestamp,
    token 1 the level, token 2 the location, and the message is the rest of
    the line from two characters after the first occurrence of the location.
    Malformed lines abort the whole read (a Rust panic), they are not
    reported as error values. */
module LogReader {
  import opened Outcome
  import opened ArrowTypes
  import opened Text
  import UtcTime

  /** The crate's error enum; `Display` of each variant is its payload. */
  datatype LogError =
    | DataFusion(message: string)
    | Arrow(arrowError: ArrowError)
    | IO(message: string)
    | General(message: string)
    | Format(message: string)

  function ErrorText(e: LogError): string {
    match e
    case DataFusion(m) => m
    case Arrow(a) => ArrowErrorText(a)
    case IO(m) => m
    case General(m) => m
    case Format(m) => m
  }

  /** What is at a path: a file whose text splits into these lines, or
      something that exists but cannot be read as text (a directory, a file
      without permission, a file that is not UTF-8). */
  datatype Entry = Readable(lines: seq<string>) | Unreadable(reason: string)

  /** The file system as the reader sees it at the moment of a call. */
  type FileSystem = map<string, Entry>

  const NotFoundText: string := "No such file or directory (os error 2)"

  /** Reads the file at `path` as text and cuts it into lines. */
  function ReadLines(fs: FileSystem, path: string): (r: Result<seq<string>, string>)
    ensures r.Ok? <==> path in fs && fs[path].Readable?
    ensures r.Ok? ==> r.value == fs[path].lines
  {
    if path !in fs then Err(NotFoundText)
    else match fs[path]
      case Readable(lines) => Ok(lines)
      case Unreadable(reason) => Err(reason)
  }

  /** The schema of every log relation, whatever the file holds. */
  const LogSchema: Schema := [
    Field("time", Timestamp(Microsecond, None), false),
    Field("level", Utf8, false),
    Field("location", Utf8, true),
    Field("message", Utf8, true)
  ]

  datatype LogReader = LogReader(path: string, schema: Schema)

  /** `LogReader::new`: fails exactly when nothing exists at the path. */
  function New(path: string, fs: FileSystem): (r: Result<LogReader, LogError>)
    ensures r.Err? <==> path !in fs
    ensures r.Err? ==> r.error == General("path " + path + " does not exist")
    ensures r.Ok? ==> r.value.path == path && r.value.schema == LogSchema
  {
    if path !in fs then Err(General("path " + path + " does not exist"))
    else Ok(LogReader(path, LogSchema))
  }

  /** `RecordBatchReader::schema`: the schema stored at construction. */
  function ReaderSchema(reader: LogReader): (s: Schema)
    ensures s == reader.schema
  {
    reader.schema
  }

  /** A reader that was built has the four log fields, in order, with their
      types and nullability, whatever the file contains. */
  lemma SchemaIsFixed(path: string, fs: FileSystem)
    requires New(path, fs).Ok?
    ensures var s := ReaderSchema(New(path, fs).value);
      && |s| == 4
      && s[0].name == "time" && s[0].dataType == Timestamp(Microsecond, None) && !s[0].nullable
      && s[1].name == "level" && s[1].dataType == Utf8 && !s[1].nullable
      && s[2].name == "location" && s[2].dataType == Utf8 && s[2].nullable
      && s[3].name == "message" && s[3].dataType == Utf8 && s[3].nullable
  {
  }

  /** One parsed line. */
  datatype Row = Row(time: int, level: string, location: string, message: string)

  /** The message of a line: the rest of the line from `|location| + 2`
      characters after the first occurrence of the location. */
  function Message(line: string, location: string): (r: Run<string>)
    ensures r.Done? ==> |r.value| + |location| + 2 <= |line|
    ensures r.Done? ==> line[|line| - |r.value|..] == r.value
    ensures r.Done? ==> var i := |line| - |r.value| - |location| - 2;
      OccursAt(line, location, i) && forall j :: 0 <= j < i ==> !OccursAt(line, location, j)
    ensures r.Panic? ==> r.cause.UnwrapNone? || r.cause.SplitAtOutOfBounds?
  {
    match Find(line, location)
    case None => Panic(UnwrapNone)
    case Some(i) =>
      var mid := i + |location| + 2;
      if mid > |line| then Panic(SplitAtOutOfBounds(mid, |line|))
      else Done(line[mid..])
  }

  /** One iteration of the loop of `read_all`, as a value: the row it pushes,
      or the panic it raises (in the order the source evaluates: the index
      `tokens[2]`, the `find`/`split_at`, then the timestamp). */
  function ParseLine(line: string): (r: Run<Row>)
    ensures r.Panic? ==> || r.cause == IndexOutOfBounds(2, |Tokens(line)|)
                         || r.cause.UnwrapNone? || r.cause.SplitAtOutOfBounds?
                         || r.cause.TimestampUnparseable?
  {
    var tokens := Tokens(line);
    if |tokens| < 3 then Panic(IndexOutOfBounds(2, |tokens|))
    else match Message(line, tokens[2])
      case Panic(c) => Panic(c)
      case Done(message) =>
        match UtcTime.ParseTimestamp(tokens[0])
        case None => Panic(TimestampUnparseable(tokens[0]))
        case Some(micros) => Done(Row(micros, tokens[1], tokens[2], message))
  }

  /** Applies `parse` to each line in order: all the results, or the panic
      of the first line that aborts. */
  function ParseEach<T>(lines: seq<string>, parse: string -> Run<T>): Run<seq<T>>
    decreases |lines|
  {
    if lines == [] then Done([])
    else match ParseEach(lines[..|lines| - 1], parse)
      case Panic(c) => Panic(c)
      case Done(rows) =>
        match parse(lines[|lines| - 1])
        case Panic(c) => Panic(c)
        case Done(row) => Done(rows + [row])
  }

  /** The rows of all lines, or the panic of the first line that aborts. */
  function ParseLines(lines: seq<string>): Run<seq<Row>> {
    ParseEach(lines, ParseLine)
  }

  function TimeColumn(rows: seq<Row>): seq<int> {
    seq(|rows|, k requires 0 <= k < |rows| => rows[k].time)
  }

  function LevelColumn(rows: seq<Row>): seq<string> {
    seq(|rows|, k requires 0 <= k < |rows| => rows[k].level)
  }

  function LocationColumn(rows: seq<Row>): seq<string> {
    seq(|rows|, k requires 0 <= k < |rows| => rows[k].location)
  }

  function MessageColumn(rows: seq<Row>): seq<string> {
    seq(|rows|, k requires 0 <= k < |rows| => rows[k].message)
  }

  function ColumnsOf(rows: seq<Row>): seq<Column> {
    [Timestamps(TimeColumn(rows)), Strings(LevelColumn(rows)),
     Strings(LocationColumn(rows)), Strings(MessageColumn(rows))]
  }

  /** What `read_all` computes: the read error, the panic of the first bad
      line, the panic of an unwrapped `RecordBatch::try_new`, or the batch. */
  function ReadAllSpec(reader: LogReader, fs: FileSystem): Run<Result<RecordBatch, LogError>> {
    match ReadLines(fs, reader.path)
    case Err(e) => Done(Err(IO(e)))
    case Ok(lines) =>
      match ParseLines(lines)
      case Panic(c) => Panic(c)
      case Done(rows) =>
        match TryNewBatch(reader.schema, ColumnsOf(rows))
        case None => Panic(BatchRejected)
        case Some(batch) => Done(Ok(batch))
  }

  /** `LogReader::read_all`: reads the file and grows the four columns, one
      entry per line. */
  method ReadAll(reader: LogReader, fs: FileSystem) returns (r: Run<Result<RecordBatch, LogError>>)
    ensures r == ReadAllSpec(reader, fs)
  {
    var time: seq<int> := [];
    var level: seq<string> := [];
    var location: seq<string> := [];
    var message: seq<string> := [];
    var contents := ReadLines(fs, reader.path);
    if contents.Err? {
      return Done(Err(IO(contents.error)));
    }
    var lines := contents.value;
    ghost var rows: seq<Row> := [];
    for i := 0 to |lines|
      invariant ParseLines(lines[..i]) == Done(rows)
      invariant time == TimeColumn(rows) && level == LevelColumn(rows)
      invariant location == LocationColumn(rows) && message == MessageColumn(rows)
    {
      var line := lines[i];
      var tokens := Tokens(line);
      if |tokens| < 3 {
        LineAborts(lines, ParseLine, i, IndexOutOfBounds(2, |tokens|));
        return Panic(IndexOutOfBounds(2, |tokens|));
      }
      var mess := Message(line, tokens[2]);
      if mess.Panic? {
        LineAborts(lines, ParseLine, i, mess.cause);
        return Panic(mess.cause);
      }
      var dt := UtcTime.ParseTimestamp(tokens[0]);
      if dt.None? {
        LineAborts(lines, ParseLine, i, TimestampUnparseable(tokens[0]));
        return Panic(TimestampUnparseable(tokens[0]));
      }
      ghost var row := Row(dt.value, tokens[1], tokens[2], mess.value);
      assert ParseLine(line) == Done(row);
      LineParses(lines, ParseLine, i, rows, row);
      ColumnsGrow(rows, row);
      time := time + [dt.value];
      level := level + [tokens[1]];
      location := location + [tokens[2]];
      message := message + [mess.value];
      rows := rows + [row];
    }
    assert lines[..|lines|] == lines;
    var batch := TryNewBatch(reader.schema, [Timestamps(time), Strings(level), Strings(location), Strings(message)]);
    if batch.None? {
      return Panic(BatchRejected);
    }
    return Done(Ok(batch.value));
  }

  /** The loop step: a line that parses adds its row. */
  lemma LineParses<T>(lines: seq<string>, parse: string -> Run<T>, i: nat, rows: seq<T>, row: T)
    requires i < |lines| && ParseEach(lines[..i], parse) == Done(rows) && parse(lines[i]) == Done(row)
    ensures ParseEach(lines[..i + 1], parse) == Done(rows + [row])
  {
    var prefix := lines[..i + 1];
    assert prefix[..|prefix| - 1] == lines[..i] && prefix[|prefix| - 1] == lines[i];
  }

  /** Adding a row adds one entry to each column. */
  lemma ColumnsGrow(rows: seq<Row>, row: Row)
    ensures TimeColumn(rows + [row]) == TimeColumn(rows) + [row.time]
    ensures LevelColumn(rows + [row]) == LevelColumn(rows) + [row.level]
    ensures LocationColumn(rows + [row]) == LocationColumn(rows) + [row.location]
    ensures MessageColumn(rows + [row]) == MessageColumn(rows) + [row.message]
  {
  }

  /** The loop exit on a bad line: the whole read aborts with that line's panic. */
  lemma LineAborts<T>(lines: seq<string>, parse: string -> Run<T>, i: nat, c: PanicCause)
    requires i < |lines| && ParseEach(lines[..i], parse).Done? && parse(lines[i]) == Panic(c)
    ensures ParseEach(lines, parse) == Panic(c)
  {
    var prefix := lines[..i + 1];
    assert prefix[..|prefix| - 1] == lines[..i] && prefix[|prefix| - 1] == lines[i];
    PanicPersists(lines, parse, i + 1);
  }

  /** Once a prefix of the lines aborts, the whole read aborts the same way. */
  lemma {:induction false} PanicPersists<T>(lines: seq<string>, parse: string -> Run<T>, n: nat)
    requires n <= |lines| && ParseEach(lines[..n], parse).Panic?
    ensures ParseEach(lines, parse) == ParseEach(lines[..n], parse)
    decreases |lines|
  {
    if n < |lines| {
      var init := lines[..|lines| - 1];
      assert init[..n] == lines[..n];
      PanicPersists(init, parse, n);
    } else {
      assert lines[..n] == lines;
    }
  }

  /** `Iterator::next`: every call re-reads the file and yields an item; a
      read error comes back as a cast error carrying the error's text. */
  function Next(reader: LogReader, fs: FileSystem): (r: Run<Option<Result<RecordBatch, ArrowError>>>)
    ensures r.Done? ==> r.value.Some?
    ensures r.Panic? <==> ReadAllSpec(reader, fs).Panic?
    ensures r.Done? && r.value.value.Ok? <==> ReadAllSpec(reader, fs).Done? && ReadAllSpec(reader, fs).value.Ok?
    ensures r.Done? && r.value.value.Ok? ==> r.value.value.value == ReadAllSpec(reader, fs).value.value
    ensures r.Done? && r.value.value.Err? ==>
      r.value.value.error == CastError(ErrorText(ReadAllSpec(reader, fs).value.error))
  {
    match ReadAllSpec(reader, fs)
    case Panic(c) => Panic(c)
    case Done(Ok(batch)) => Done(Some(Ok(batch)))
    case Done(Err(e)) => Done(Some(Err(CastError(ErrorText(e)))))
  }

  /** When `Message` succeeds and when it aborts: it succeeds exactly when
      the location occurs and the split point is within the line, and then
      gives the rest of the line from there; a location that occurs nowhere
      is the `unwrap` panic, a split point past the end the `split_at` one. */
  lemma MessageCases(line: string, location: string)
    ensures Message(line, location).Done? <==>
            Find(line, location).Some? && Find(line, location).value + |location| + 2 <= |line|
    ensures Message(line, location).Done? ==>
            Message(line, location).value == line[Find(line, location).value + |location| + 2..]
    ensures Message(line, location) == Panic(UnwrapNone) <==> Find(line, location).None?
    ensures Message(line, location).Panic? && Find(line, location).Some? ==>
            Message(line, location).cause
              == SplitAtOutOfBounds(Find(line, location).value + |location| + 2, |line|)
  {
  }

  /** When a line parses and when it aborts, in the order the source checks:
      fewer than three tokens is the index panic, then the message's panic,
      then an unparseable timestamp; a line that passes all three gives the
      row its tokens, message and timestamp say. */
  lemma ParseLineCases(line: string)
    ensures |Tokens(line)| < 3 <==> ParseLine(line) == Panic(IndexOutOfBounds(2, |Tokens(line)|))
    ensures ParseLine(line).Done? <==>
            && |Tokens(line)| >= 3
            && Message(line, Tokens(line)[2]).Done?
            && UtcTime.ParseTimestamp(Tokens(line)[0]).Some?
    ensures |Tokens(line)| >= 3 && Message(line, Tokens(line)[2]).Panic? ==>
            ParseLine(line) == Panic(Message(line, Tokens(line)[2]).cause)
    ensures |Tokens(line)| >= 3 && Message(line, Tokens(line)[2]).Done?
            && UtcTime.ParseTimestamp(Tokens(line)[0]).None? ==>
            ParseLine(line) == Panic(TimestampUnparseable(Tokens(line)[0]))
    ensures ParseLine(line).Done? ==> RowOfLine(line, ParseLine(line).value)
  {
  }

  /** The `find(..).unwrap()` never fires: the location is a token of the
      line and so occurs in it. Only the index, `split_at` and timestamp
      panics remain. */
  lemma LocationAlwaysFound(line: string)
    ensures ParseLine(line) != Panic(UnwrapNone)
  {
    if |Tokens(line)| >= 3 {
      TokenOccurs(line, 2);
    }
  }

  /** All lines parse exactly when each does, and the results are the lines'
      results in order ... */
  lemma {:induction false} ParseEachRows<T>(lines: seq<string>, parse: string -> Run<T>)
    ensures ParseEach(lines, parse).Done? <==> forall k :: 0 <= k < |lines| ==> parse(lines[k]).Done?
    ensures ParseEach(lines, parse).Done? ==>
      && |ParseEach(lines, parse).value| == |lines|
      && forall k :: 0 <= k < |lines| ==> parse(lines[k]) == Done(ParseEach(lines, parse).value[k])
    decreases |lines|
  {
    if lines != [] {
      var n := |lines| - 1;
      var init := lines[..n];
      ParseEachRows(init, parse);
      assert forall k :: 0 <= k < n ==> init[k] == lines[k];
    }
  }

  /** ... otherwise the read aborts with the panic of the first bad line. */
  lemma {:induction false} ParseEachFirstPanic<T>(lines: seq<string>, parse: string -> Run<T>)
    requires ParseEach(lines, parse).Panic?
    ensures exists k :: && 0 <= k < |lines|
                        && parse(lines[k]) == Panic(ParseEach(lines, parse).cause)
                        && forall j :: 0 <= j < k ==> parse(lines[j]).Done?
    decreases |lines|
  {
    var n := |lines| - 1;
    var init := lines[..n];
    assert forall k :: 0 <= k < n ==> init[k] == lines[k];
    if ParseEach(init, parse).Panic? {
      ParseEachFirstPanic(init, parse);
      var k :| && 0 <= k < n
                && parse(init[k]) == Panic(ParseEach(init, parse).cause)
                && forall j :: 0 <= j < k ==> parse(init[j]).Done?;
      assert parse(lines[k]) == Panic(ParseEach(lines, parse).cause);
    } else {
      ParseEachRows(init, parse);
      assert parse(lines[n]) == Panic(ParseEach(lines, parse).cause);
    }
  }

  /** Only the file read produces an error value from `read_all`, an `IO`
      one carrying the read's message. */
  lemma ReadAllErrors(reader: LogReader, fs: FileSystem)
    ensures (ReadAllSpec(reader, fs).Done? && ReadAllSpec(reader, fs).value.Err?)
            <==> ReadLines(fs, reader.path).Err?
    ensures ReadAllSpec(reader, fs).Done? && ReadAllSpec(reader, fs).value.Err? ==>
            ReadAllSpec(reader, fs).value.error == IO(ReadLines(fs, reader.path).error)
  {
  }

  /** For a reader built by `new`, a readable file makes `read_all` abort
      exactly when one of its lines is malformed, with that line's panic (the
      first such line's); the `try_new(..).unwrap()` never fires. */
  lemma ReadAllAborts(reader: LogReader, fs: FileSystem)
    requires reader.schema == LogSchema
    requires ReadLines(fs, reader.path).Ok?
    ensures ReadAllSpec(reader, fs) != Panic(BatchRejected)
    ensures var lines := ReadLines(fs, reader.path).value;
            ReadAllSpec(reader, fs).Panic? <==> exists k :: 0 <= k < |lines| && ParseLine(lines[k]).Panic?
  {
    var lines := ReadLines(fs, reader.path).value;
    ParseEachRows(lines, ParseLine);
    if ParseLines(lines).Done? {
      BatchOfRows(lines, ParseLines(lines).value);
    } else {
      ParseEachFirstPanic(lines, ParseLine);
    }
  }

  /** For a reader built by `new`, a batch from `read_all` has the log schema
      and one entry per line in each of the four columns, holding the line's
      timestamp, level, location and message. */
  lemma ReadAllBatch(reader: LogReader, fs: FileSystem)
    requires reader.schema == LogSchema
    requires ReadAllSpec(reader, fs).Done? && ReadAllSpec(reader, fs).value.Ok?
    ensures ReadLines(fs, reader.path).Ok?
    ensures BatchHoldsLines(ReadAllSpec(reader, fs).value.value, ReadLines(fs, reader.path).value)
  {
    var lines := ReadLines(fs, reader.path).value;
    BatchOfRows(lines, ParseLines(lines).value);
  }

  lemma BatchOfRows(lines: seq<string>, rows: seq<Row>)
    requires ParseLines(lines) == Done(rows)
    ensures TryNewBatch(LogSchema, ColumnsOf(rows)) == Some(RecordBatch(LogSchema, ColumnsOf(rows)))
    ensures BatchHoldsLines(RecordBatch(LogSchema, ColumnsOf(rows)), lines)
  {
    ParseEachRows(lines, ParseLine);
    BatchAccepted(rows);
    forall k | 0 <= k < |lines|
      ensures RowOfLine(lines[k], Row(TimeColumn(rows)[k], LevelColumn(rows)[k],
                                      LocationColumn(rows)[k], MessageColumn(rows)[k]))
    {
      assert rows[k] == Row(TimeColumn(rows)[k], LevelColumn(rows)[k], LocationColumn(rows)[k], MessageColumn(rows)[k]);
      ParsedRow(lines[k], rows[k]);
    }
  }

  /** `RecordBatch::try_new` accepts the four columns the loop builds. */
  lemma BatchAccepted(rows: seq<Row>)
    ensures TryNewBatch(LogSchema, ColumnsOf(rows)) == Some(RecordBatch(LogSchema, ColumnsOf(rows)))
  {
    var columns := ColumnsOf(rows);
    assert forall k :: 0 <= k < 4 ==> ColumnLength(columns[k]) == |rows|;
    assert forall k :: 0 <= k < 4 ==> ColumnFits(LogSchema[k], columns[k]);
  }

  lemma ParsedRow(line: string, row: Row)
    requires ParseLine(line) == Done(row)
    ensures RowOfLine(line, row)
  {
  }

  /** What a parsed row holds: token 1 and token 2 of the line, its message,
      and its timestamp token converted to microseconds. */
  ghost predicate RowOfLine(line: string, row: Row) {
    var tokens := Tokens(line);
    && |tokens| >= 3
    && row.level == tokens[1]
    && row.location == tokens[2]
    && Message(line, tokens[2]) == Done(row.message)
    && UtcTime.ParseTimestamp(tokens[0]) == Some(row.time)
  }

  /** The batch has the log schema, four columns of `|lines|` entries, and
      row `k` holds what line `k` says. */
  ghost predicate BatchHoldsLines(b: RecordBatch, lines: seq<string>) {
    && b.schema == LogSchema
    && NumColumns(b) == 4
    && NumRows(b) == |lines|
    && b.columns[0].Timestamps? && |b.columns[0].micros| == |lines|
    && b.columns[1].Strings? && |b.columns[1].texts| == |lines|
    && b.columns[2].Strings? && |b.columns[2].texts| == |lines|
    && b.columns[3].Strings? && |b.columns[3].texts| == |lines|
    && forall k :: 0 <= k < |lines| ==>
         RowOfLine(lines[k], Row(b.columns[0].micros[k], b.columns[1].texts[k],
                                 b.columns[2].texts[k], b.columns[3].texts[k]))
  }

  /** The line format: `[<time>] [<level>] [<location>] <message>`. */
  function FormatLine(time: string, level: string, location: string, message: string): string {
    "[" + time + "] [" + level + "] [" + location + "] " + message
  }

  /** The parts of a line the parser reads back: a valid date-time, a level
      and a location that are non-empty and free of `[`, space and `]`, and a
      location whose text does not already occur earlier in the line (where
      `find` would stop instead). */
  ghost predicate WellFormedParts(dt: UtcTime.DateTime, level: string, location: string, message: string) {
    && UtcTime.Valid(dt)
    && |level| > 0 && DelimiterFree(level)
    && |location| > 0 && DelimiterFree(location)
    && var line := FormatLine(UtcTime.Format(dt), level, location, message);
       forall j :: 0 <= j < |level| + 27 ==> !OccursAt(line, location, j)
  }

  /** A date-time's text has no delimiter in it. */
  lemma FormatIsOneToken(dt: UtcTime.DateTime)
    requires UtcTime.Valid(dt)
    ensures |UtcTime.Format(dt)| > 0 && DelimiterFree(UtcTime.Format(dt))
  {
    var ts := UtcTime.Format(dt);
    forall k | 0 <= k < |ts| ensures !IsDelimiter(ts[k]) {
    }
  }

  /** A bracketed word is one token. */
  lemma TokensOfBracket(w: string, rest: string)
    requires |w| > 0 && DelimiterFree(w)
    ensures Tokens("[" + w + "]" + rest) == [w] + Tokens(rest)
  {
    assert "[" + w + "]" + rest == [] + ['['] + (w + [']'] + rest);
    TokensOfConcat([], '[', w + [']'] + rest);
    TokensOfConcat(w, ']', rest);
    TokensOfWord(w);
  }

  /** A leading space adds no token. */
  lemma TokensOfSpace(rest: string)
    ensures Tokens(" " + rest) == Tokens(rest)
  {
    assert " " + rest == [] + [' '] + rest;
    TokensOfConcat([], ' ', rest);
  }

  /** The tokens of a formatted line: the three bracketed parts, then the
      message's own tokens. */
  lemma TokensOfLine(time: string, level: string, location: string, message: string)
    requires |time| > 0 && DelimiterFree(time)
    requires |level| > 0 && DelimiterFree(level)
    requires |location| > 0 && DelimiterFree(location)
    ensures Tokens(FormatLine(time, level, location, message)) == [time, level, location] + Tokens(message)
  {
    var r3 := " " + message;
    var r2 := " " + ("[" + location + "]" + r3);
    var r1 := " " + ("[" + level + "]" + r2);
    assert FormatLine(time, level, location, message) == "[" + time + "]" + r1;
    TokensOfBracket(time, r1);
    TokensOfSpace("[" + level + "]" + r2);
    TokensOfBracket(level, r2);
    TokensOfSpace("[" + location + "]" + r3);
    TokensOfBracket(location, r3);
    TokensOfSpace(message);
  }

  /** Round trip of the line format: a line written from well-formed parts
      parses back to exactly those parts. */
  lemma FormatLineParses(dt: UtcTime.DateTime, level: string, location: string, message: string)
    requires WellFormedParts(dt, level, location, message)
    ensures ParseLine(FormatLine(UtcTime.Format(dt), level, location, message))
            == Done(Row(UtcTime.EpochMicros(dt), level, location, message))
  {
    var ts := UtcTime.Format(dt);
    var line := FormatLine(ts, level, location, message);
    FormatIsOneToken(dt);
    TokensOfLine(ts, level, location, message);
    var p := |level| + 27;
    assert line == ("[" + ts + "] [" + level + "] [") + location + ("] " + message);
    assert OccursAt(line, location, p);
    assert Find(line, location) == Some(p);
    assert line[p + |location| + 2..] == message;
    UtcTime.ParseFormat(dt);
  }

  /** `find` cannot stop before the location's bracket when the location's
      first character appears neither in the time nor in the level. */
  lemma LocationNotEarlier(time: string, level: string, location: string, message: string)
    requires |location| > 0 && !IsDelimiter(location[0])
    requires forall k :: 0 <= k < |time| ==> time[k] != location[0]
    requires forall k :: 0 <= k < |level| ==> level[k] != location[0]
    ensures forall j :: 0 <= j < |time| + |level| + 7 ==> !OccursAt(FormatLine(time, level, location, message), location, j)
  {
    var line := FormatLine(time, level, location, message);
    forall j | 0 <= j < |time| + |level| + 7 ensures !OccursAt(line, location, j) {
      if 1 <= j <= |time| {
        assert line[j] == time[j - 1];
      } else if |time| + 4 <= j < |time| + 4 + |level| {
        assert line[j] == level[j - |time| - 4];
      }
      assert line[j] != location[0];
    }
  }

  /** The worked example: `[2023-01-01T10:00:00Z] [INFO] [loc] hello world`. */
  lemma WorkedExample()
    ensures ParseLine(FormatLine(UtcTime.Format(UtcTime.DateTime(2023, 1, 1, 10, 0, 0)), "INFO", "loc", "hello world"))
            == Done(Row(1672567200000000, "INFO", "loc", "hello world"))
  {
    var dt := UtcTime.DateTime(2023, 1, 1, 10, 0, 0);
    WorkedExampleParts();
    FormatLineParses(dt, "INFO", "loc", "hello world");
    UtcTime.ParseTimestampExample();
  }

  lemma WorkedExampleParts()
    ensures WellFormedParts(UtcTime.DateTime(2023, 1, 1, 10, 0, 0), "INFO", "loc", "hello world")
  {
    var dt := UtcTime.DateTime(2023, 1, 1, 10, 0, 0);
    UtcTime.FormatAvoids(dt, 'l');
    LocationNotEarlier(UtcTime.Format(dt), "INFO", "loc", "hello world");
  }

  /** When the location repeats the level, `find` stops inside the level and
      the message starts at the wrong place: it keeps the location's bracket
      and the space after it. */
  lemma LocationRepeatsLevel(dt: UtcTime.DateTime, level: string, message: string)
    requires UtcTime.Valid(dt)
    requires |level| > 0 && DelimiterFree(level)
    requires !UtcTime.IsDigit(level[0]) && level[0] !in "-T:Z"
    ensures ParseLine(FormatLine(UtcTime.Format(dt), level, level, message))
            == Done(Row(UtcTime.EpochMicros(dt), level, level, "[" + level + "] " + message))
  {
    var ts := UtcTime.Format(dt);
    var line := FormatLine(ts, level, level, message);
    FormatIsOneToken(dt);
    TokensOfLine(ts, level, level, message);
    LevelFoundFirst(dt, level, message);
    UtcTime.FormatChars(dt);
    SuffixAfterLevel(ts, level, message);
    assert Message(line, level) == Done("[" + level + "] " + message);
    UtcTime.ParseTimestampOfFormat(dt);
  }

  lemma SuffixAfterLevel(time: string, level: string, message: string)
    ensures |time| + |level| + 6 <= |FormatLine(time, level, level, message)|
    ensures FormatLine(time, level, level, message)[|time| + |level| + 6..] == "[" + level + "] " + message
  {
    var front := "[" + time + "] [" + level + "] ";
    assert FormatLine(time, level, level, message) == front + ("[" + level + "] " + message);
  }

  lemma LevelFoundFirst(dt: UtcTime.DateTime, level: string, message: string)
    requires UtcTime.Valid(dt)
    requires |level| > 0 && !IsDelimiter(level[0])
    requires !UtcTime.IsDigit(level[0]) && level[0] !in "-T:Z"
    ensures Find(FormatLine(UtcTime.Format(dt), level, level, message), level) == Some(24)
  {
    var ts := UtcTime.Format(dt);
    var line := FormatLine(ts, level, level, message);
    UtcTime.FormatChars(dt);
    UtcTime.FormatAvoids(dt, level[0]);
    assert line == ("[" + ts + "] [") + level + ("] [" + level + "] " + message);
    assert OccursAt(line, level, 24);
    forall j | 0 <= j < 24 ensures !OccursAt(line, level, j) {
      if 1 <= j <= 20 {
        assert line[j] == ts[j - 1];
      }
      assert line[j] != level[0];
    }
  }

  /** An instance: `[2023-01-01T10:00:00Z] [INFO] [INFO] hello` reads as the
      message `[INFO] hello`. */
  lemma LocationRecursInLevel()
    ensures ParseLine(FormatLine(UtcTime.Format(UtcTime.DateTime(2023, 1, 1, 10, 0, 0)), "INFO", "INFO", "hello"))
            == Done(Row(UtcTime.EpochMicros(UtcTime.DateTime(2023, 1, 1, 10, 0, 0)), "INFO", "INFO", "[" + "INFO" + "] " + "hello"))
  {
    assert DelimiterFree("INFO");
    assert !UtcTime.IsDigit("INFO"[0]) && "INFO"[0] !in "-T:Z";
    LocationRepeatsLevel(UtcTime.DateTime(2023, 1, 1, 10, 0, 0), "INFO", "hello");
  }
}
