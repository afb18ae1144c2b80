/** Properties of one `TableWriter` call: the enable rule, inert disabled
    writers, the frozen schema, and what `flush` does with the file names
    and the buffered rows. */
module WriterProperties {
  import opened Wrappers
  import opened ParquetTypes
  import opened Persistable
  import opened Row
  import opened SchemaProperties
  import Config
  import opened Writer

  /** `new` gives an empty writer with the default threshold that is enabled
      exactly by the configuration's rule, after deleting the table directory
      when a directory is set and `keep` is off; it fails only when the
      directory cannot be created. */
  lemma {:induction false} NewWriterState(pathPrefix: string, config: Config.PersistConfig, dir: set<string>, createDir: Result<(), string>)
    ensures Writer.New(pathPrefix, config, dir, createDir).result.Ok? <==> config.directory == "" || createDir.Ok?
    ensures Writer.New(pathPrefix, config, dir, createDir).dir == if config.directory != "" && !config.keep then {} else dir
    ensures Writer.New(pathPrefix, config, dir, createDir).result.Ok? ==>
      var w := Writer.New(pathPrefix, config, dir, createDir).result.value;
      && (w.enabled <==> (|config.tables| == 0 || pathPrefix in config.tables) && config.directory != "")
      && w.flushSize == BUFFERED_ROWS && w.fileIndex == 0 && IsEmpty(w.buffer) && w.buffer.columns == []
      && w.schema.None? && w.fields == [] && w.autoFlush
  {
  }

  /** The persister's writer, built from `PersistConfig::new(folder, venue)`
      for the venue's own table, is enabled exactly when the folder is set. */
  lemma {:induction false} VenueWriterEnabled(folder: string, venue: string, dir: set<string>, createDir: Result<(), string>)
    requires Writer.New(venue, Config.New(folder, venue), dir, createDir).result.Ok?
    ensures Writer.New(venue, Config.New(folder, venue), dir, createDir).result.value.enabled <==> folder != ""
  {
    Config.NewEnablesOnlyItsTable(folder, venue, venue);
  }

  /** A disabled writer accepts every call and changes nothing. */
  lemma {:induction false} DisabledWriterIsInert(w: TableWriter, dir: set<string>, t: TypeDesc, v: Value)
    requires !w.enabled && WellTyped(t, v)
    ensures Writer.Begin(w, dir) == Step(Ok(()), w, dir, [])
    ensures RecordValue(w, t, v) == Ok(w)
    ensures End(w, dir) == Step(Ok(()), w, dir, [])
    ensures Flush(w, dir) == Step(Ok(()), w, dir, [])
    ensures FlushIfNeeded(w, dir) == Step(Ok(()), w, dir, [])
  {
  }

  /** Once a schema exists no call changes it or the collected columns. */
  lemma {:induction false} SchemaIsFrozen(w: TableWriter, dir: set<string>, t: TypeDesc, v: Value)
    requires w.schema.Some? && WellTyped(t, v)
    requires w.enabled ==> w.buffer.currentCol == |w.buffer.columns|
    requires FlushReady(w)
    ensures Writer.Begin(w, dir).writer.schema == w.schema && Writer.Begin(w, dir).writer.fields == w.fields
    ensures RecordValue(w, t, v).Ok? ==>
      RecordValue(w, t, v).value.schema == w.schema && RecordValue(w, t, v).value.fields == w.fields
    ensures End(w, dir).writer.schema == w.schema && End(w, dir).writer.fields == w.fields
    ensures Flush(w, dir).writer.schema == w.schema && Flush(w, dir).writer.fields == w.fields
  {
  }

  /** Without a schema, `record` collects the value's columns and the first
      `end` makes them the schema. */
  lemma {:induction false} FirstRowFixesSchema(w: TableWriter, dir: set<string>, t: TypeDesc, v: Value)
    requires w.enabled && w.schema.None? && WellTyped(t, v)
    ensures RecordValue(w, t, v).Ok? <==> SelfNaming(t)
    ensures RecordValue(w, t, v).Err? ==> RecordValue(w, t, v).error == Panic(NAME_MUST_BE_SET)
    ensures RecordValue(w, t, v).Ok? ==>
      RecordValue(w, t, v).value.fields == w.fields + Schema(t, None, None, None).value
      && RecordValue(w, t, v).value.schema.None?
    ensures FlushReady(Frozen(w)) ==> End(w, dir).writer.schema == Some(w.fields)
  {
    TopLevelSchema(t);
  }

  /** `flush` without rows does nothing, and with rows but no schema fails
      with "schema has not been created", leaving everything as it was. */
  lemma {:induction false} FlushGuards(w: TableWriter, dir: set<string>)
    requires FlushReady(w)
    ensures IsEmpty(w.buffer) ==> Flush(w, dir) == Step(Ok(()), w, dir, [])
    ensures w.enabled && !IsEmpty(w.buffer) && w.schema.None? ==>
      Flush(w, dir) == Step(Err(Other(SCHEMA_NOT_CREATED)), w, dir, [])
  {
  }

  /** A flush that gets past its guards takes a name that is not in the
      directory: the first free index from `fileIndex` on, every index in
      between being taken. The directory gains that name and nothing else,
      and the next search starts after it. */
  lemma {:induction false} FlushTakesFreshName(w: TableWriter, dir: set<string>)
    requires FlushReady(w)
    requires w.enabled && !IsEmpty(w.buffer) && w.schema.Some?
    ensures var s := Flush(w, dir);
      && w.fileIndex < s.writer.fileIndex
      && FileName(s.writer.fileIndex - 1) !in dir
      && s.dir == dir + {FileName(s.writer.fileIndex - 1)}
      && (forall j :: w.fileIndex <= j < s.writer.fileIndex - 1 ==> FileName(j) in dir)
      && FileIndexOf(FileName(s.writer.fileIndex - 1)) == Some(s.writer.fileIndex - 1)
      && (forall f :: f in s.written ==> f.name == FileName(s.writer.fileIndex - 1))
  {
    var index := NextFree(dir, w.fileIndex);
    FileNameCarriesIndex(index);
  }

  /** Successive flushes use strictly increasing indices, hence distinct names. */
  lemma {:induction false} FlushNamesIncrease(w: TableWriter, dir: set<string>)
    requires FlushReady(w)
    requires w.enabled && !IsEmpty(w.buffer) && w.schema.Some?
    ensures var s := Flush(w, dir);
      forall j :: s.writer.fileIndex <= j ==> FileName(j) != FileName(s.writer.fileIndex - 1)
  {
    var s := Flush(w, dir);
    forall j | s.writer.fileIndex <= j
      ensures FileName(j) != FileName(s.writer.fileIndex - 1)
    {
      FileNamesDistinct(j, s.writer.fileIndex - 1);
    }
  }

  /** A flush of buffered rows succeeds exactly when each column's writer
      accepts its fields; it then writes one file with the schema and every
      buffered row, column `i` as definition levels and non-null values that
      read back as the column, and leaves every column empty. */
  lemma {:induction false} FlushWritesBuffer(w: TableWriter, dir: set<string>)
    requires FlushReady(w)
    requires w.enabled && !IsEmpty(w.buffer) && w.schema.Some?
    ensures var s := Flush(w, dir);
      && (s.result.Ok? <==> forall i :: 0 <= i < |w.buffer.columns| ==>
            ColumnAccepted(w.schema.value[i].physical, w.buffer.columns[i]))
      && (s.result.Err? ==> s.written == [] && s.result.error.Other?)
      && s.writer.buffer.currentCol == w.buffer.currentCol
      && |s.writer.buffer.columns| == |w.buffer.columns|
    ensures var s := Flush(w, dir);
      s.result.Ok? ==>
        && |s.written| == 1
        && s.written[0].schema == w.schema.value
        && s.written[0].numRows == Len(w.buffer)
        && |s.written[0].rowGroup| == |w.buffer.columns|
        && (forall i :: 0 <= i < |w.buffer.columns| ==>
              Decode(s.written[0].rowGroup[i].defLevels, s.written[0].rowGroup[i].values) == NormalizeAll(w.buffer.columns[i]))
        && (forall i :: 0 <= i < |w.buffer.columns| ==> s.writer.buffer.columns[i] == [])
        && IsEmpty(s.writer.buffer)
  {
    RecordSpecCorrect(w.buffer, Kinds(w.schema.value));
  }

  /** `flush_if_needed` writes a file exactly when the buffer holds at least
      `flush_size` rows (and at least one), and then empties it. */
  lemma {:induction false} FlushIfNeededWhenFull(w: TableWriter, dir: set<string>)
    requires FlushReady(w)
    requires w.enabled && w.schema.Some? && |w.schema.value| == |w.buffer.columns|
    requires forall i :: 0 <= i < |w.buffer.columns| ==> ColumnAccepted(w.schema.value[i].physical, w.buffer.columns[i])
    ensures FlushIfNeeded(w, dir).result.Ok?
    ensures |FlushIfNeeded(w, dir).written| == if Len(w.buffer) >= w.flushSize && !IsEmpty(w.buffer) then 1 else 0
    ensures Len(FlushIfNeeded(w, dir).writer.buffer) == if Len(w.buffer) >= w.flushSize then 0 else Len(w.buffer)
  {
    if Len(w.buffer) >= w.flushSize && !IsEmpty(w.buffer) {
      FlushWritesBuffer(w, dir);
    }
  }

  /** Dropping a writer that holds rows writes them; an empty one writes nothing. */
  lemma {:induction false} DropFlushesPendingRows(w: TableWriter, dir: set<string>)
    requires FlushReady(w)
    requires w.enabled && w.schema.Some? && |w.schema.value| == |w.buffer.columns|
    requires forall i :: 0 <= i < |w.buffer.columns| ==> ColumnAccepted(w.schema.value[i].physical, w.buffer.columns[i])
    ensures |Drop(w, dir).written| == if IsEmpty(w.buffer) then 0 else 1
    ensures !IsEmpty(w.buffer) ==> Drop(w, dir).written[0].numRows == Len(w.buffer)
  {
    if !IsEmpty(w.buffer) {
      FlushWritesBuffer(w, dir);
    }
  }
}
