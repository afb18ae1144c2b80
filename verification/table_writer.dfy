/** `TableWriter`: buffers the rows of one table and writes them to
    numbered Parquet files in the table's directory. The directory is
    modelled as the set of file names in it; a completed file as its name,
    schema and row group. */
module Writer {
  import opened Wrappers
  import opened ParquetTypes
  import opened Digits
  import opened Persistable
  import opened Row
  import opened Config
  import opened DebugText

  /** `BUFFERED_ROWS`: the flush threshold every writer starts with. */
  const BUFFERED_ROWS: nat := 1_000_000

  /** File names are the index left-padded with zeros to this width. */
  const INDEX_WIDTH: nat := 9

  const PARQUET_EXTENSION := ".parquet"

  const SCHEMA_NOT_CREATED := "schema has not been created"

  /** `PersistError::Other` and `PersistError::IOError`, and a panic of the
      schema code (a leaf reached without a name). */
  datatype WriterError = Other(message: string) | Io(message: string) | Panic(message: string)

  datatype TableWriter = TableWriter(
    flushSize: nat,
    currentFilePath: string,
    fileIndex: nat,
    buffer: RowBuffer,
    enabled: bool,
    fields: seq<Column>,
    schema: Option<seq<Column>>,
    autoFlush: bool)

  /** A file the writer completed: its name in the table directory, its
      schema, the row group handed to the file writer and its row count. */
  datatype ParquetFile = ParquetFile(name: string, schema: seq<Column>, rowGroup: seq<ColumnChunk>, numRows: nat)

  /** The writer and the table directory after one call, the files that call
      completed, and its result. */
  datatype Step = Step(result: Result<(), WriterError>, writer: TableWriter, dir: set<string>, written: seq<ParquetFile>)

  function Done(w: TableWriter, dir: set<string>): Step {
    Step(Ok(()), w, dir, [])
  }

  // ----- File names -----

  /** `format!("{:0>9}.parquet", index)` */
  function FileName(index: nat): string {
    PadLeftZeros(NatToString(index), INDEX_WIDTH) + PARQUET_EXTENSION
  }

  /** The index a file name carries: digits followed by `.parquet`. */
  function FileIndexOf(name: string): Option<nat> {
    if |name| > |PARQUET_EXTENSION| && name[|name| - |PARQUET_EXTENSION|..] == PARQUET_EXTENSION
       && AllDigits(name[..|name| - |PARQUET_EXTENSION|])
    then Some(ParseDigits(name[..|name| - |PARQUET_EXTENSION|]))
    else None
  }

  /** The index is recoverable from the name, so distinct indices give
      distinct names; below 10^9 every name has the same length. */
  lemma {:induction false} FileNameCarriesIndex(index: nat)
    ensures FileIndexOf(FileName(index)) == Some(index)
    ensures |FileName(index)| >= INDEX_WIDTH + |PARQUET_EXTENSION|
  {
    var digits := PadLeftZeros(NatToString(index), INDEX_WIDTH);
    ParsePadded(index, INDEX_WIDTH);
    assert FileName(index)[..|FileName(index)| - |PARQUET_EXTENSION|] == digits;
    assert FileName(index)[|FileName(index)| - |PARQUET_EXTENSION|..] == PARQUET_EXTENSION;
  }

  lemma {:induction false} FileNamesDistinct(i: nat, j: nat)
    requires i != j
    ensures FileName(i) != FileName(j)
  {
    FileNameCarriesIndex(i);
    FileNameCarriesIndex(j);
  }

  /** Names in the directory whose index is at least `i`. */
  ghost function TakenFrom(dir: set<string>, i: nat): set<string> {
    set n | n in dir && FileIndexOf(n).Some? && FileIndexOf(n).value >= i
  }

  lemma {:induction false} TakenShrinks(dir: set<string>, i: nat)
    requires FileName(i) in dir
    ensures |TakenFrom(dir, i + 1)| < |TakenFrom(dir, i)|
  {
    FileNameCarriesIndex(i);
    var a := TakenFrom(dir, i + 1);
    var b := TakenFrom(dir, i);
    assert a <= b;
    assert FileName(i) in b - a;
    assert b == a + (b - a);
    assert |b| == |a| + |b - a|;
  }

  /** The loop of `flush`: the first index from `i` on whose name is free. */
  function NextFree(dir: set<string>, i: nat): (r: nat)
    ensures i <= r && FileName(r) !in dir
    ensures forall j :: i <= j < r ==> FileName(j) in dir
    decreases |TakenFrom(dir, i)|
  {
    if FileName(i) !in dir then i
    else
      TakenShrinks(dir, i);
      NextFree(dir, i + 1)
  }

  // ----- Construction -----

  /** `PathBuf::from(directory)` followed by `push(name)` for a relative name. */
  function JoinPath(directory: string, name: string): string {
    if |directory| == 0 then name
    else if directory[|directory| - 1] == '/' then directory + name
    else directory + "/" + name
  }

  /** The writer and directory `TableWriter::new` leaves behind. */
  datatype Created = Created(result: Result<TableWriter, WriterError>, dir: set<string>)

  /** `TableWriter::new(path_prefix, config)`. `dir` holds the names already in
      the table directory and `createDir` the outcome of `create_dir_all`;
      with a directory configured and `keep` off the table directory is
      deleted first, whether or not the table is enabled. */
  function New(pathPrefix: string, config: PersistConfig, dir: set<string>, createDir: Result<(), string>): Created {
    var w := TableWriter(BUFFERED_ROWS, JoinPath(config.directory, pathPrefix), 0, EmptyBuffer,
                         Enabled(config, pathPrefix), [], None, true);
    if config.directory == "" then Created(Ok(w), dir)
    else
      var left := if config.keep then dir else {};
      if createDir.Err? then Created(Err(Io(createDir.error)), left)
      else Created(Ok(w), left)
  }

  // ----- Flushing -----

  /** The physical types of the schema's columns, one column writer each. */
  function Kinds(schema: seq<Column>): (k: seq<PhysicalType>)
    ensures |k| == |schema|
    ensures forall i :: 0 <= i < |schema| ==> k[i] == schema[i].physical
  {
    seq(|schema|, i requires 0 <= i < |schema| => schema[i].physical)
  }

  /** What `flush` needs of the buffered rows: they complete whole rows and
      have one column per schema column (each row recorded with the same type). */
  predicate FlushReady(w: TableWriter) {
    w.enabled && !IsEmpty(w.buffer) && w.schema.Some? ==>
      w.buffer.currentCol == |w.buffer.columns| && Rectangular(w.buffer.columns)
      && |w.schema.value| == |w.buffer.columns|
  }

  /** The message `flush` wraps a column writer error in. */
  function WriteFailed(path: string, error: string): string {
    "failed to write to parquet " + Quoted(path) + " - General(" + Quoted(error) + ")"
  }

  /** `flush`: nothing to do on an empty buffer or a disabled writer; an error
      without a schema; otherwise the next free file name is taken and the
      buffered rows are written to it as one row group. */
  function Flush(w: TableWriter, dir: set<string>): (r: Step)
    requires FlushReady(w)
    ensures r.writer == w.(fileIndex := r.writer.fileIndex, buffer := r.writer.buffer)
    ensures w.enabled && !IsEmpty(w.buffer) && w.schema.Some? ==>
      && r.writer.fileIndex == NextFree(dir, w.fileIndex) + 1
      && r.dir == dir + {FileName(NextFree(dir, w.fileIndex))}
      && forall f :: f in r.written ==> f.name == FileName(NextFree(dir, w.fileIndex))
  {
    if IsEmpty(w.buffer) || !w.enabled then Done(w, dir)
    else if w.schema.None? then Step(Err(Other(SCHEMA_NOT_CREATED)), w, dir, [])
    else
      var index := NextFree(dir, w.fileIndex);
      var name := FileName(index);
      var rec := RecordSpec(w.buffer, Kinds(w.schema.value));
      var after := w.(fileIndex := index + 1, buffer := rec.after);
      if rec.result.Err? then
        Step(Err(Other(WriteFailed(w.currentFilePath, rec.result.error))), after, dir + {name}, [])
      else
        RecordSpecCorrect(w.buffer, Kinds(w.schema.value));
        Step(Ok(()), after, dir + {name}, [ParquetFile(name, w.schema.value, rec.rowGroup.value, rec.result.value)])
  }

  /** `flush_if_needed` */
  function FlushIfNeeded(w: TableWriter, dir: set<string>): Step
    requires FlushReady(w)
  {
    if Len(w.buffer) >= w.flushSize then Flush(w, dir) else Done(w, dir)
  }

  /** `Drop`: a writer that still holds rows flushes them; an error is only
      logged, so the step's result reports it to nobody. */
  function Drop(w: TableWriter, dir: set<string>): Step
    requires FlushReady(w)
  {
    if !IsEmpty(w.buffer) then Flush(w, dir) else Done(w, dir)
  }

  // ----- One row -----

  /** `begin`: flush first when the buffer is full, then start a row. */
  function Begin(w: TableWriter, dir: set<string>): Step
    requires w.enabled ==> w.buffer.currentCol == |w.buffer.columns|
    requires FlushReady(w)
  {
    if !w.enabled then Done(w, dir)
    else
      var s := if Len(w.buffer) >= w.flushSize then Flush(w, dir) else Done(w, dir);
      if s.result.Err? then s
      else s.(writer := s.writer.(buffer := Row.Begin(s.writer.buffer)))
  }

  /** `RowBuilder::record(value)`: while no schema exists the value's columns
      are collected (panicking for an unnamed leaf), then its fields pushed. */
  function RecordValue(w: TableWriter, t: TypeDesc, v: Value): Result<TableWriter, WriterError>
    requires WellTyped(t, v)
  {
    if !w.enabled then Ok(w)
    else
      var cols := if w.schema.None? then Schema(t, None, None, None) else Ok([]);
      if cols.Err? then Err(Panic(cols.error))
      else Ok(w.(fields := w.fields + cols.value, buffer := PushAll(w.buffer, Append(t, v))))
  }

  /** The writer with its schema fixed: the collected columns, if there was
      no schema yet. */
  function Frozen(w: TableWriter): TableWriter {
    if w.schema.None? then w.(schema := Some(w.fields)) else w
  }

  /** `RowBuilder::end`: the first row fixes the schema; with `auto_flush`
      the buffer is flushed once full. */
  function End(w: TableWriter, dir: set<string>): Step
    requires FlushReady(Frozen(w))
  {
    if !w.enabled then Done(w, dir)
    else if w.autoFlush then FlushIfNeeded(Frozen(w), dir)
    else Done(Frozen(w), dir)
  }
}
