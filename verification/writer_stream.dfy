/** A stream of records of one type through a `TableWriter`: every record
    lands, in order, in exactly one numbered file, each file but the last
    holding `flush_size` rows. */
module WriterStream {
  import opened Wrappers
  import opened ParquetTypes
  import opened Persistable
  import opened Row
  import opened Writer
  import opened SchemaProperties
  import opened WriterProperties

  // ----- Rows held in the buffer and rows read back from files -----

  /** Every column has the buffer's length (there may be no column). */
  predicate Even(b: RowBuffer) {
    forall i :: 0 <= i < |b.columns| ==> |b.columns[i]| == Len(b)
  }

  /** The rows the buffer holds: row `r` is field `r` of every column. */
  function Pending(b: RowBuffer): (rows: seq<seq<Field>>)
    requires Even(b)
    ensures |rows| == Len(b)
    ensures forall r :: 0 <= r < |rows| ==> |rows[r]| == |b.columns|
  {
    seq(Len(b), r requires 0 <= r < Len(b) =>
      seq(|b.columns|, i requires 0 <= i < |b.columns| => b.columns[i][r]))
  }

  /** Each row as the file stores it. */
  function NormalizeRows(rows: seq<seq<Field>>): (r: seq<seq<Field>>)
    ensures |r| == |rows|
    ensures forall k :: 0 <= k < |rows| ==> r[k] == NormalizeAll(rows[k])
  {
    seq(|rows|, k requires 0 <= k < |rows| => NormalizeAll(rows[k]))
  }

  /** A column chunk read back: definition levels and values to fields. */
  function ReadColumn(c: ColumnChunk): seq<Field> {
    Decode(c.defLevels, c.values)
  }

  /** Every column of the file reads back to `numRows` fields. */
  predicate Readable(f: ParquetFile) {
    forall i :: 0 <= i < |f.rowGroup| ==> |ReadColumn(f.rowGroup[i])| == f.numRows
  }

  /** The rows of a file: row `r` is field `r` of every column read back. */
  function FileRows(f: ParquetFile): (rows: seq<seq<Field>>)
    requires Readable(f)
    ensures |rows| == f.numRows
  {
    seq(f.numRows, r requires 0 <= r < f.numRows =>
      seq(|f.rowGroup|, i requires 0 <= i < |f.rowGroup| => ReadColumn(f.rowGroup[i])[r]))
  }

  predicate AllReadable(files: seq<ParquetFile>) {
    forall k :: 0 <= k < |files| ==> Readable(files[k])
  }

  /** The rows of the files, file after file. */
  function AllRows(files: seq<ParquetFile>): seq<seq<Field>>
    requires AllReadable(files)
    decreases |files|
  {
    if |files| == 0 then [] else FileRows(files[0]) + AllRows(files[1..])
  }

  lemma {:induction false} AllRowsConcat(a: seq<ParquetFile>, b: seq<ParquetFile>)
    requires AllReadable(a) && AllReadable(b)
    ensures AllReadable(a + b)
    ensures AllRows(a + b) == AllRows(a) + AllRows(b)
    decreases |a|
  {
    if |a| > 0 {
      assert (a + b)[1..] == a[1..] + b;
      AllRowsConcat(a[1..], b);
    } else {
      assert a + b == b;
    }
  }

  lemma {:induction false} NormalizeRowsConcat(a: seq<seq<Field>>, b: seq<seq<Field>>)
    ensures NormalizeRows(a + b) == NormalizeRows(a) + NormalizeRows(b)
  {
  }

  // ----- File names over a stream -----

  /** The files were created one after another in `dir`, each under a name not
      yet there, leaving `after`. */
  predicate FreshNames(dir: set<string>, files: seq<ParquetFile>, after: set<string>)
    decreases |files|
  {
    if |files| == 0 then after == dir
    else files[0].name !in dir && FreshNames(dir + {files[0].name}, files[1..], after)
  }

  /** The files carry strictly increasing indices, all at least `from`, all
      below `upto`. */
  predicate NamedInOrder(files: seq<ParquetFile>, from: nat, upto: nat)
    decreases |files|
  {
    if |files| == 0 then from <= upto
    else
      FileIndexOf(files[0].name).Some? && from <= FileIndexOf(files[0].name).value
      && NamedInOrder(files[1..], FileIndexOf(files[0].name).value + 1, upto)
  }

  lemma {:induction false} FreshNamesConcat(d0: set<string>, a: seq<ParquetFile>, d1: set<string>, b: seq<ParquetFile>, d2: set<string>)
    requires FreshNames(d0, a, d1) && FreshNames(d1, b, d2)
    ensures FreshNames(d0, a + b, d2)
    decreases |a|
  {
    if |a| > 0 {
      assert (a + b)[1..] == a[1..] + b;
      FreshNamesConcat(d0 + {a[0].name}, a[1..], d1, b, d2);
    } else {
      assert a + b == b;
    }
  }

  lemma {:induction false} NamedInOrderConcat(a: seq<ParquetFile>, x: nat, y: nat, b: seq<ParquetFile>, z: nat)
    requires NamedInOrder(a, x, y) && NamedInOrder(b, y, z)
    ensures NamedInOrder(a + b, x, z)
    decreases |a|
  {
    if |a| > 0 {
      assert (a + b)[1..] == a[1..] + b;
      NamedInOrderConcat(a[1..], FileIndexOf(a[0].name).value + 1, y, b, z);
    } else {
      assert a + b == b;
      NamedInOrderWeaken(b, x, y, z);
    }
  }

  lemma {:induction false} NamedInOrderWeaken(b: seq<ParquetFile>, x: nat, y: nat, z: nat)
    requires x <= y && NamedInOrder(b, y, z)
    ensures NamedInOrder(b, x, z)
  {
    if |b| > 0 {
      assert x <= FileIndexOf(b[0].name).value;
    }
  }

  /** Increasing indices mean distinct files have distinct names. */
  lemma {:induction false} NamedInOrderDistinct(files: seq<ParquetFile>, from: nat, upto: nat)
    requires NamedInOrder(files, from, upto)
    ensures forall j, k :: 0 <= j < k < |files| ==> files[j].name != files[k].name
    ensures forall k :: 0 <= k < |files| ==>
      FileIndexOf(files[k].name).Some? && from <= FileIndexOf(files[k].name).value < upto
    decreases |files|
  {
    if |files| > 0 {
      var first := FileIndexOf(files[0].name).value;
      NamedInOrderDistinct(files[1..], first + 1, upto);
      forall k | 0 <= k < |files|
        ensures FileIndexOf(files[k].name).Some? && from <= FileIndexOf(files[k].name).value < upto
      {
        if k > 0 {
          assert files[k] == files[1..][k - 1];
        }
      }
      forall j, k | 0 <= j < k < |files|
        ensures files[j].name != files[k].name
      {
        if j > 0 {
          assert files[j] == files[1..][j - 1];
        }
        assert files[k] == files[1..][k - 1];
      }
    }
  }

  // ----- The state a stream of records keeps -----

  /** An enabled, auto-flushing writer fed records of type `t`: no schema and
      no columns before the first row; afterwards the type's own columns as
      schema, one buffer column per schema column, fewer than `flush_size`
      rows held, and each held row fitting the schema. */
  predicate Ready(w: TableWriter, t: TypeDesc) {
    && w.enabled && w.autoFlush && w.flushSize >= 1
    && SelfNaming(t) && Width(t) >= 1
    && Schema(t, None, None, None).Ok?
    && w.buffer.currentCol == |w.buffer.columns|
    && Even(w.buffer)
    && (w.schema.None? ==> w.fields == [] && w.buffer.columns == [])
    && (w.schema.Some? ==>
         && w.fields == w.schema.value == Schema(t, None, None, None).value
         && |w.schema.value| == |w.buffer.columns| == Width(t)
         && Len(w.buffer) < w.flushSize
         && forall r :: 0 <= r < Len(w.buffer) ==> Fits(w.schema.value, Pending(w.buffer)[r]))
  }

  /** The writer `TableWriter::new` returns is ready for any type that names
      its own columns. */
  lemma {:induction false} NewWriterIsReady(pathPrefix: string, config: Config.PersistConfig, dir: set<string>,
                         createDir: Result<(), string>, t: TypeDesc)
    requires Writer.New(pathPrefix, config, dir, createDir).result.Ok?
    requires Writer.New(pathPrefix, config, dir, createDir).result.value.enabled
    requires SelfNaming(t) && Width(t) >= 1
    ensures Ready(Writer.New(pathPrefix, config, dir, createDir).result.value, t)
    ensures Pending(Writer.New(pathPrefix, config, dir, createDir).result.value.buffer) == []
  {
    TopLevelSchema(t);
  }

  lemma {:induction false} ReadyFlushReady(w: TableWriter, t: TypeDesc)
    requires Ready(w, t)
    ensures FlushReady(w)
    ensures w.schema.Some? ==> |w.schema.value| == |w.buffer.columns|
  {
    SchemaShape(t, None, None, None);
  }

  /** `begin` on a ready writer never flushes: it only restarts the column. */
  lemma {:induction false} StartRow(w: TableWriter, dir: set<string>, t: TypeDesc)
    requires Ready(w, t)
    ensures FlushReady(w)
    ensures Writer.Begin(w, dir) == Step(Ok(()), w.(buffer := w.buffer.(currentCol := 0)), dir, [])
  {
    ReadyFlushReady(w, t);
  }

  /** The writer after `begin` and `record(v)`. */
  function Recorded(w: TableWriter, t: TypeDesc, v: Value): TableWriter
    requires Ready(w, t) && WellTyped(t, v)
  {
    var w1 := w.(buffer := w.buffer.(currentCol := 0));
    w1.(fields := w.fields + (if w.schema.None? then Schema(t, None, None, None).value else []),
        buffer := PushAll(w1.buffer, Append(t, v)))
  }

  /** Pushing the first row into a buffer without columns creates one column
      per field. */
  lemma {:induction false} PushIntoEmpty(b: RowBuffer, fs: seq<Field>)
    requires b.columns == [] && b.currentCol == 0 && |fs| >= 1
    ensures var b2 := PushAll(b, fs);
      Even(b2) && b2.currentCol == |b2.columns| == |fs| && Len(b2) == 1 && Pending(b2) == [fs]
  {
    PushAllCreatesColumns(b, fs);
    var b2 := PushAll(b, fs);
    assert b2.columns == seq(|fs|, k requires 0 <= k < |fs| => [fs[k]]);
    assert |Pending(b2)| == 1;
    assert Pending(b2)[0] == fs;
  }

  /** Pushing a row that has one field per column extends every column. */
  lemma {:induction false} PushIntoColumns(b: RowBuffer, fs: seq<Field>)
    requires Even(b) && b.currentCol == 0 && |fs| == |b.columns| >= 1
    ensures var b2 := PushAll(b, fs);
      && Even(b2) && b2.currentCol == |b2.columns| == |fs|
      && Len(b2) == Len(b) + 1 && Pending(b2) == Pending(b) + [fs]
  {
    PushAllIntoColumns(b, fs);
    ColumnsGrowByRow(b, PushAll(b, fs), fs);
  }

  /** Columns that each gain one field hold one more row: those fields. */
  lemma {:induction false} ColumnsGrowByRow(b: RowBuffer, b2: RowBuffer, fs: seq<Field>)
    requires Even(b) && |fs| == |b.columns| == |b2.columns| >= 1
    requires forall i :: 0 <= i < |fs| ==> b2.columns[i] == b.columns[i] + [fs[i]]
    ensures Even(b2) && Len(b2) == Len(b) + 1 && Pending(b2) == Pending(b) + [fs]
  {
    var width := |fs|;
    var P := Pending(b);
    assert Len(b2) == Len(b) + 1;
    assert Even(b2);
    var P2 := Pending(b2);
    forall r | 0 <= r < |P2|
      ensures P2[r] == (P + [fs])[r]
    {
      if r < |P| {
        assert forall i :: 0 <= i < width ==> P2[r][i] == P[r][i];
      } else {
        assert forall i :: 0 <= i < width ==> P2[r][i] == fs[i];
      }
    }
  }

  /** `record(v)` after `begin` succeeds on a ready writer and adds exactly
      the value's fields as one more row; once the row ends the schema is
      the type's columns. */
  lemma {:induction false} PushRow(w: TableWriter, t: TypeDesc, v: Value)
    requires Ready(w, t) && WellTyped(t, v)
    ensures RecordValue(w.(buffer := w.buffer.(currentCol := 0)), t, v) == Ok(Recorded(w, t, v))
    ensures var w2 := Recorded(w, t, v);
      && Frozen(w2).schema == Some(Schema(t, None, None, None).value)
      && Frozen(w2).fields == Schema(t, None, None, None).value
      && w2.buffer.currentCol == |w2.buffer.columns| == Width(t)
      && Even(w2.buffer)
      && Len(w2.buffer) == Len(w.buffer) + 1
      && Pending(w2.buffer) == Pending(w.buffer) + [Append(t, v)]
      && w2.enabled && w2.autoFlush && w2.flushSize == w.flushSize && w2.fileIndex == w.fileIndex
  {
    SchemaShape(t, None, None, None);
    AppendWidth(t, v);
    if w.schema.None? {
      PushIntoEmpty(w.buffer.(currentCol := 0), Append(t, v));
      assert Pending(w.buffer) == [];
      assert w.fields + Schema(t, None, None, None).value == Schema(t, None, None, None).value;
    } else {
      PushIntoColumns(w.buffer.(currentCol := 0), Append(t, v));
      assert Pending(w.buffer.(currentCol := 0)) == Pending(w.buffer);
    }
  }

  /** Rows that each fit the schema make columns every column writer accepts. */
  lemma {:induction false} RowsFitColumns(b: RowBuffer, schema: seq<Column>)
    requires Even(b) && |schema| == |b.columns|
    requires forall r :: 0 <= r < Len(b) ==> Fits(schema, Pending(b)[r])
    ensures forall i :: 0 <= i < |b.columns| ==> ColumnAccepted(schema[i].physical, b.columns[i])
  {
    forall i | 0 <= i < |b.columns|
      ensures ColumnAccepted(schema[i].physical, b.columns[i])
    {
      forall j | 0 <= j < |b.columns[i]|
        ensures Accepts(schema[i].physical, b.columns[i][j])
      {
        assert Fits(schema, Pending(b)[j]);
        assert Pending(b)[j][i] == b.columns[i][j];
      }
    }
  }

  /** Column chunks that read back as the normalised columns give the
      buffer's rows, normalised. */
  lemma {:induction false} ChunksReadAsRows(f: ParquetFile, b: RowBuffer)
    requires Even(b) && |f.rowGroup| == |b.columns| && f.numRows == Len(b)
    requires forall i :: 0 <= i < |b.columns| ==> ReadColumn(f.rowGroup[i]) == NormalizeAll(b.columns[i])
    ensures Readable(f) && FileRows(f) == NormalizeRows(Pending(b))
  {
    var P := Pending(b);
    forall r | 0 <= r < |P|
      ensures FileRows(f)[r] == NormalizeRows(P)[r]
    {
      assert forall i :: 0 <= i < |b.columns| ==> FileRows(f)[r][i] == NormalizeAll(b.columns[i])[r];
    }
  }

  /** A single file named by a free index: a fresh name, in order. */
  lemma {:induction false} OneFreshFile(dir: set<string>, files: seq<ParquetFile>, after: set<string>, from: nat, k: nat)
    requires |files| == 1 && files[0].name == FileName(k)
    requires FileName(k) !in dir && after == dir + {FileName(k)} && from <= k
    ensures FreshNames(dir, files, after)
    ensures NamedInOrder(files, from, k + 1)
  {
    FileNameCarriesIndex(k);
    assert files[1..] == [];
  }

  /** What a flush of a ready buffer needs. */
  predicate FlushablePending(w: TableWriter) {
    && FlushReady(w) && Even(w.buffer)
    && w.enabled && !IsEmpty(w.buffer) && w.schema.Some? && |w.schema.value| == |w.buffer.columns|
    && forall r :: 0 <= r < Len(w.buffer) ==> Fits(w.schema.value, Pending(w.buffer)[r])
  }

  lemma {:induction false} FlushPendingRows(w: TableWriter, dir: set<string>)
    requires FlushablePending(w)
    ensures var s := Flush(w, dir);
      && s.result.Ok? && |s.written| == 1 && AllReadable(s.written)
      && s.written[0].numRows == Len(w.buffer)
      && AllRows(s.written) == NormalizeRows(Pending(w.buffer))
  {
    RowsFitColumns(w.buffer, w.schema.value);
    FlushWritesBuffer(w, dir);
    SingleFileRows(Flush(w, dir).written, w.buffer);
  }

  /** One file whose chunks read back as the buffer's columns holds the
      buffer's rows. */
  lemma {:induction false} SingleFileRows(files: seq<ParquetFile>, b: RowBuffer)
    requires |files| == 1 && Even(b)
    requires |files[0].rowGroup| == |b.columns| && files[0].numRows == Len(b)
    requires forall i :: 0 <= i < |b.columns| ==>
      Decode(files[0].rowGroup[i].defLevels, files[0].rowGroup[i].values) == NormalizeAll(b.columns[i])
    ensures AllReadable(files) && AllRows(files) == NormalizeRows(Pending(b))
  {
    var f := files[0];
    ChunksReadAsRows(f, b);
    assert files[1..] == [];
    assert AllRows(files) == FileRows(f) + AllRows(files[1..]);
  }

  lemma {:induction false} FlushPendingBuffer(w: TableWriter, dir: set<string>)
    requires FlushablePending(w)
    ensures var s := Flush(w, dir);
      && Even(s.writer.buffer) && Pending(s.writer.buffer) == [] && IsEmpty(s.writer.buffer)
      && |s.writer.buffer.columns| == |w.buffer.columns|
      && s.writer == w.(fileIndex := s.writer.fileIndex, buffer := s.writer.buffer)
      && s.writer.buffer.currentCol == w.buffer.currentCol
  {
    RowsFitColumns(w.buffer, w.schema.value);
    FlushWritesBuffer(w, dir);
    EmptiedHoldsNothing(Flush(w, dir).writer.buffer);
  }

  /** A buffer whose columns are all empty holds no row. */
  lemma {:induction false} EmptiedHoldsNothing(b: RowBuffer)
    requires forall i :: 0 <= i < |b.columns| ==> b.columns[i] == []
    ensures Even(b) && IsEmpty(b) && Pending(b) == []
  {
    if |b.columns| > 0 {
      assert b.columns[0] == [];
    }
  }

  lemma {:induction false} FlushPendingNames(w: TableWriter, dir: set<string>)
    requires FlushablePending(w)
    ensures FreshNames(dir, Flush(w, dir).written, Flush(w, dir).dir)
    ensures NamedInOrder(Flush(w, dir).written, w.fileIndex, Flush(w, dir).writer.fileIndex)
  {
    RowsFitColumns(w.buffer, w.schema.value);
    FlushWritesBuffer(w, dir);
    FlushTakesFreshName(w, dir);
    var s := Flush(w, dir);
    assert s.written[0] in s.written;
    OneFreshFile(dir, s.written, s.dir, w.fileIndex, s.writer.fileIndex - 1);
  }

  // ----- One row, then a stream of rows -----

  /** What a run of calls that started with `fileIndex` and `dir`, with
      `rows` held or recorded, leaves behind: no error, a ready writer with
      the same threshold, files that read back and, followed by the rows
      still held, give `rows` normalised and in order, each file with
      exactly `flushSize` rows under a fresh name in increasing order. */
  predicate Advanced(flushSize: nat, fileIndex: nat, dir: set<string>, t: TypeDesc, rows: seq<seq<Field>>, s: Step) {
    && s.result.Ok? && Ready(s.writer, t) && s.writer.flushSize == flushSize
    && AllReadable(s.written)
    && AllRows(s.written) + NormalizeRows(Pending(s.writer.buffer)) == NormalizeRows(rows)
    && (forall k :: 0 <= k < |s.written| ==> s.written[k].numRows == flushSize)
    && FreshNames(dir, s.written, s.dir)
    && NamedInOrder(s.written, fileIndex, s.writer.fileIndex)
  }

  /** Rows out of files then still held, over two runs. */
  lemma {:induction false} RowsCompose(a1: seq<seq<Field>>, a2: seq<seq<Field>>, p1: seq<seq<Field>>, n2: seq<seq<Field>>,
                    rows: seq<seq<Field>>, more: seq<seq<Field>>)
    requires a1 + NormalizeRows(p1) == NormalizeRows(rows)
    requires a2 + n2 == NormalizeRows(p1 + more)
    ensures (a1 + a2) + n2 == NormalizeRows(rows + more)
  {
    NormalizeRowsConcat(p1, more);
    NormalizeRowsConcat(rows, more);
    calc {
      (a1 + a2) + n2;
      a1 + (a2 + n2);
      a1 + (NormalizeRows(p1) + NormalizeRows(more));
      (a1 + NormalizeRows(p1)) + NormalizeRows(more);
    }
  }

  lemma {:induction false} SizesCompose(a: seq<ParquetFile>, b: seq<ParquetFile>, n: nat)
    requires forall k :: 0 <= k < |a| ==> a[k].numRows == n
    requires forall k :: 0 <= k < |b| ==> b[k].numRows == n
    ensures forall k :: 0 <= k < |a + b| ==> (a + b)[k].numRows == n
  {
    forall k | 0 <= k < |a + b|
      ensures (a + b)[k].numRows == n
    {
      if k >= |a| {
        assert (a + b)[k] == b[k - |a|];
      }
    }
  }

  /** Two runs, the second starting where the first stopped, make one run. */
  lemma {:induction false} AdvancedCompose(flushSize: nat, fileIndex: nat, dir: set<string>, t: TypeDesc,
                        rows: seq<seq<Field>>, s1: Step, more: seq<seq<Field>>, s2: Step)
    requires Advanced(flushSize, fileIndex, dir, t, rows, s1)
    requires Advanced(flushSize, s1.writer.fileIndex, s1.dir, t, Pending(s1.writer.buffer) + more, s2)
    ensures Advanced(flushSize, fileIndex, dir, t, rows + more, Step(s2.result, s2.writer, s2.dir, s1.written + s2.written))
  {
    AllRowsConcat(s1.written, s2.written);
    FreshNamesConcat(dir, s1.written, s1.dir, s2.written, s2.dir);
    NamedInOrderConcat(s1.written, fileIndex, s1.writer.fileIndex, s2.written, s2.writer.fileIndex);
    RowsCompose(AllRows(s1.written), AllRows(s2.written), Pending(s1.writer.buffer),
                NormalizeRows(Pending(s2.writer.buffer)), rows, more);
    SizesCompose(s1.written, s2.written, flushSize);
  }

  /** A writer that has just recorded a row: the type's schema fixed on
      `end`, its columns full, at most `flush_size` rows, all fitting. */
  predicate Filled(w: TableWriter, t: TypeDesc) {
    && w.enabled && w.autoFlush && w.flushSize >= 1
    && SelfNaming(t) && Width(t) >= 1
    && Schema(t, None, None, None).Ok?
    && Frozen(w).schema == Some(Schema(t, None, None, None).value)
    && w.fields == Schema(t, None, None, None).value
    && |Schema(t, None, None, None).value| == |w.buffer.columns| == Width(t)
    && w.buffer.currentCol == |w.buffer.columns|
    && Even(w.buffer) && 1 <= Len(w.buffer) <= w.flushSize
    && forall r :: 0 <= r < Len(w.buffer) ==> Fits(Schema(t, None, None, None).value, Pending(w.buffer)[r])
  }

  /** `end` on a filled writer below the threshold keeps the rows. */
  lemma {:induction false} EndKeeps(w: TableWriter, dir: set<string>, t: TypeDesc)
    requires Filled(w, t) && Len(w.buffer) < w.flushSize
    ensures FlushReady(Frozen(w))
    ensures Advanced(w.flushSize, w.fileIndex, dir, t, Pending(w.buffer), End(w, dir))
  {
    assert End(w, dir) == Done(Frozen(w), dir);
    assert AllRows([]) == [];
  }

  /** `end` at the threshold is a flush of the frozen writer. */
  lemma {:induction false} EndIsFlush(w: TableWriter, dir: set<string>, t: TypeDesc)
    requires Filled(w, t) && Len(w.buffer) == w.flushSize
    ensures FlushReady(Frozen(w)) && FlushablePending(Frozen(w))
    ensures End(w, dir) == Flush(Frozen(w), dir)
  {
    assert Frozen(w).buffer == w.buffer;
  }

  /** A filled writer whose columns have been emptied is ready again. */
  lemma {:induction false} EmptiedIsReady(w: TableWriter, after: TableWriter, t: TypeDesc)
    requires Filled(w, t)
    requires after == Frozen(w).(fileIndex := after.fileIndex, buffer := after.buffer)
    requires Even(after.buffer) && IsEmpty(after.buffer)
    requires |after.buffer.columns| == |w.buffer.columns| && after.buffer.currentCol == w.buffer.currentCol
    ensures Ready(after, t)
  {
  }

  /** `end` on a filled writer at the threshold writes every held row. */
  lemma {:induction false} EndFlushes(w: TableWriter, dir: set<string>, t: TypeDesc)
    requires Filled(w, t) && Len(w.buffer) == w.flushSize
    ensures FlushReady(Frozen(w))
    ensures Advanced(w.flushSize, w.fileIndex, dir, t, Pending(w.buffer), End(w, dir))
  {
    var wf := Frozen(w);
    EndIsFlush(w, dir, t);
    FlushPendingRows(wf, dir);
    FlushPendingBuffer(wf, dir);
    FlushPendingNames(wf, dir);
    OneFileAdvances(w, dir, t, Flush(wf, dir));
  }

  /** A step that writes every held row to one fresh file and empties the
      buffer advances the run by those rows. */
  lemma {:induction false} OneFileAdvances(w: TableWriter, dir: set<string>, t: TypeDesc, f: Step)
    requires Filled(w, t) && Len(w.buffer) == w.flushSize
    requires f.result.Ok? && |f.written| == 1 && AllReadable(f.written)
    requires f.written[0].numRows == Len(w.buffer)
    requires AllRows(f.written) == NormalizeRows(Pending(Frozen(w).buffer))
    requires Even(f.writer.buffer) && Pending(f.writer.buffer) == [] && IsEmpty(f.writer.buffer)
    requires |f.writer.buffer.columns| == |w.buffer.columns| && f.writer.buffer.currentCol == w.buffer.currentCol
    requires f.writer == Frozen(w).(fileIndex := f.writer.fileIndex, buffer := f.writer.buffer)
    requires FreshNames(dir, f.written, f.dir)
    requires NamedInOrder(f.written, Frozen(w).fileIndex, f.writer.fileIndex)
    ensures Advanced(w.flushSize, w.fileIndex, dir, t, Pending(w.buffer), f)
  {
    EmptiedIsReady(w, f.writer, t);
    assert Frozen(w).buffer == w.buffer;
    assert AllRows(f.written) + NormalizeRows(Pending(f.writer.buffer)) == AllRows(f.written);
  }

  lemma {:induction false} EndOfRow(w: TableWriter, dir: set<string>, t: TypeDesc)
    requires Filled(w, t)
    ensures FlushReady(Frozen(w))
    ensures Advanced(w.flushSize, w.fileIndex, dir, t, Pending(w.buffer), End(w, dir))
  {
    if Len(w.buffer) < w.flushSize {
      EndKeeps(w, dir, t);
    } else {
      EndFlushes(w, dir, t);
    }
  }

  /** After a ready writer records a row it is filled. */
  lemma {:induction false} RecordedIsFilled(w: TableWriter, t: TypeDesc, v: Value)
    requires Ready(w, t) && WellTyped(t, v)
    ensures Filled(Recorded(w, t, v), t)
    ensures Pending(Recorded(w, t, v).buffer) == Pending(w.buffer) + [Append(t, v)]
    ensures Recorded(w, t, v).flushSize == w.flushSize && Recorded(w, t, v).fileIndex == w.fileIndex
  {
    PushRow(w, t, v);
    SchemaShape(t, None, None, None);
    AppendFitsSchema(t, v, None, None, None);
    var w2 := Recorded(w, t, v);
    var P := Pending(w.buffer);
    forall r | 0 <= r < Len(w2.buffer)
      ensures Fits(Schema(t, None, None, None).value, Pending(w2.buffer)[r])
    {
      if r < |P| {
        assert Pending(w2.buffer)[r] == P[r];
      } else {
        assert Pending(w2.buffer)[r] == Append(t, v);
      }
    }
  }

  /** `writer.begin()?.record(&v)?.end()`, stopping at the first error. */
  function WriteRow(w: TableWriter, dir: set<string>, t: TypeDesc, v: Value): Step
    requires Ready(w, t) && WellTyped(t, v)
  {
    StartRow(w, dir, t);
    var b := Writer.Begin(w, dir);
    match b.result
    case Err(_) => b
    case Ok(_) =>
      match RecordValue(b.writer, t, v)
      case Err(e) => Step(Err(e), b.writer, b.dir, b.written)
      case Ok(w2) =>
        PushRow(w, t, v);
        RecordedIsFilled(w, t, v);
        EndOfRow(w2, b.dir, t);
        var e := End(w2, b.dir);
        Step(e.result, e.writer, e.dir, b.written + e.written)
  }

  lemma {:induction false} WriteRowIsEnd(w: TableWriter, dir: set<string>, t: TypeDesc, v: Value)
    requires Ready(w, t) && WellTyped(t, v)
    ensures Filled(Recorded(w, t, v), t) && FlushReady(Frozen(Recorded(w, t, v)))
    ensures WriteRow(w, dir, t, v) == End(Recorded(w, t, v), dir)
  {
    StartRow(w, dir, t);
    PushRow(w, t, v);
    RecordedIsFilled(w, t, v);
    EndOfRow(Recorded(w, t, v), dir, t);
  }

  /** One row through a ready writer: it succeeds and stays ready; every row
      it held or got comes out of the files it wrote or stays held, in order;
      a file holds exactly `flush_size` rows; names are fresh and in order. */
  lemma {:induction false} WriteRowStep(w: TableWriter, dir: set<string>, t: TypeDesc, v: Value)
    requires Ready(w, t) && WellTyped(t, v)
    ensures Advanced(w.flushSize, w.fileIndex, dir, t, Pending(w.buffer) + [Append(t, v)], WriteRow(w, dir, t, v))
  {
    WriteRowIsEnd(w, dir, t, v);
    RecordedIsFilled(w, t, v);
    EndOfRow(Recorded(w, t, v), dir, t);
  }

  /** The records as fields, one row each. */
  function Appended(t: TypeDesc, vs: seq<Value>): (rows: seq<seq<Field>>)
    requires forall k :: 0 <= k < |vs| ==> WellTyped(t, vs[k])
    ensures |rows| == |vs|
  {
    seq(|vs|, k requires 0 <= k < |vs| => Append(t, vs[k]))
  }

  /** Each record in turn through `begin`/`record`/`end`, stopping at the
      first error. */
  function WriteRows(w: TableWriter, dir: set<string>, t: TypeDesc, vs: seq<Value>): Step
    requires Ready(w, t)
    requires forall k :: 0 <= k < |vs| ==> WellTyped(t, vs[k])
    decreases |vs|
  {
    if |vs| == 0 then Done(w, dir)
    else
      var s := WriteRow(w, dir, t, vs[0]);
      match s.result
      case Err(_) => s
      case Ok(_) =>
        WriteRowStep(w, dir, t, vs[0]);
        var rest := WriteRows(s.writer, s.dir, t, vs[1..]);
        Step(rest.result, rest.writer, rest.dir, s.written + rest.written)
  }

  /** `WriteRows` on a non-empty stream: the first row, then the rest. */
  lemma {:induction false} WriteRowsCons(w: TableWriter, dir: set<string>, t: TypeDesc, vs: seq<Value>)
    requires Ready(w, t) && |vs| > 0
    requires forall k :: 0 <= k < |vs| ==> WellTyped(t, vs[k])
    ensures Advanced(w.flushSize, w.fileIndex, dir, t, Pending(w.buffer) + [Append(t, vs[0])], WriteRow(w, dir, t, vs[0]))
    ensures var s1 := WriteRow(w, dir, t, vs[0]);
      var rest := WriteRows(s1.writer, s1.dir, t, vs[1..]);
      WriteRows(w, dir, t, vs) == Step(rest.result, rest.writer, rest.dir, s1.written + rest.written)
  {
    WriteRowStep(w, dir, t, vs[0]);
  }

  /** A stream of records through a ready writer: no call fails; the rows of
      the written files followed by the rows still held are the rows held
      before followed by the records, normalised and in order; every file
      holds exactly `flush_size` rows under a fresh name with a larger index
      than the one before. */
  lemma {:induction false} WriteRowsStream(w: TableWriter, dir: set<string>, t: TypeDesc, vs: seq<Value>)
    requires Ready(w, t)
    requires forall k :: 0 <= k < |vs| ==> WellTyped(t, vs[k])
    ensures Advanced(w.flushSize, w.fileIndex, dir, t, Pending(w.buffer) + Appended(t, vs), WriteRows(w, dir, t, vs))
    decreases |vs|
  {
    if |vs| == 0 {
      assert Pending(w.buffer) + Appended(t, vs) == Pending(w.buffer);
      assert AllRows([]) == [];
    } else {
      WriteRowsCons(w, dir, t, vs);
      var s1 := WriteRow(w, dir, t, vs[0]);
      WriteRowsStream(s1.writer, s1.dir, t, vs[1..]);
      StreamCons(w, dir, t, vs, s1, WriteRows(s1.writer, s1.dir, t, vs[1..]), WriteRows(w, dir, t, vs));
    }
  }

  lemma {:induction false} StreamCons(w: TableWriter, dir: set<string>, t: TypeDesc, vs: seq<Value>, s1: Step, rest: Step, whole: Step)
    requires |vs| > 0 && forall k :: 0 <= k < |vs| ==> WellTyped(t, vs[k])
    requires Even(w.buffer)
    requires Advanced(w.flushSize, w.fileIndex, dir, t, Pending(w.buffer) + [Append(t, vs[0])], s1)
    requires Advanced(w.flushSize, s1.writer.fileIndex, s1.dir, t, Pending(s1.writer.buffer) + Appended(t, vs[1..]), rest)
    requires whole == Step(rest.result, rest.writer, rest.dir, s1.written + rest.written)
    ensures Advanced(w.flushSize, w.fileIndex, dir, t, Pending(w.buffer) + Appended(t, vs), whole)
  {
    AdvancedCompose(w.flushSize, w.fileIndex, dir, t, Pending(w.buffer) + [Append(t, vs[0])], s1, Appended(t, vs[1..]), rest);
    AppendedSplit(t, vs, Pending(w.buffer));
  }

  /** The first record's row, then the rows of the others. */
  lemma {:induction false} AppendedSplit(t: TypeDesc, vs: seq<Value>, held: seq<seq<Field>>)
    requires |vs| > 0 && forall k :: 0 <= k < |vs| ==> WellTyped(t, vs[k])
    ensures held + [Append(t, vs[0])] + Appended(t, vs[1..]) == held + Appended(t, vs)
  {
    assert [Append(t, vs[0])] + Appended(t, vs[1..]) == Appended(t, vs);
  }

  /** The final `flush` of a ready writer writes whatever it still holds. */
  lemma {:induction false} FinalFlush(s: Step, t: TypeDesc, flushSize: nat, fileIndex: nat, dir: set<string>, rows: seq<seq<Field>>)
    requires Advanced(flushSize, fileIndex, dir, t, rows, s)
    ensures FlushReady(s.writer)
    ensures var f := Flush(s.writer, s.dir);
      && f.result.Ok? && AllReadable(s.written + f.written)
      && AllRows(s.written + f.written) == NormalizeRows(rows)
      && (forall k :: 0 <= k < |s.written| ==> s.written[k].numRows == flushSize)
      && FreshNames(dir, s.written + f.written, f.dir)
      && NamedInOrder(s.written + f.written, fileIndex, f.writer.fileIndex)
      && IsEmpty(f.writer.buffer)
      && |f.written| == (if IsEmpty(s.writer.buffer) then 0 else 1)
      && (|f.written| == 1 ==> 1 <= f.written[0].numRows < flushSize)
  {
    var wr := s.writer;
    var f := Flush(wr, s.dir);
    if IsEmpty(wr.buffer) {
      assert f == Done(wr, s.dir);
      assert s.written + f.written == s.written;
      assert Pending(wr.buffer) == [];
    } else {
      assert FlushablePending(wr);
      FlushPendingRows(wr, s.dir);
      FlushPendingBuffer(wr, s.dir);
      FlushPendingNames(wr, s.dir);
      AllRowsConcat(s.written, f.written);
      FreshNamesConcat(dir, s.written, s.dir, f.written, f.dir);
      NamedInOrderConcat(s.written, fileIndex, wr.fileIndex, f.written, f.writer.fileIndex);
      assert NormalizeRows(Pending(f.writer.buffer)) == [];
    }
  }

  /** Full files followed by at most one shorter, non-empty file. */
  lemma {:induction false} LastFileBounds(a: seq<ParquetFile>, b: seq<ParquetFile>, n: nat)
    requires n >= 1
    requires forall k :: 0 <= k < |a| ==> a[k].numRows == n
    requires |b| <= 1 && (|b| == 1 ==> 1 <= b[0].numRows < n)
    ensures forall k :: 0 <= k < |a + b| - 1 ==> (a + b)[k].numRows == n
    ensures |a + b| > 0 ==> 1 <= (a + b)[|a + b| - 1].numRows <= n
  {
    if |b| == 0 {
      assert a + b == a;
    } else {
      assert forall k :: 0 <= k < |a| ==> (a + b)[k] == a[k];
      assert (a + b)[|a + b| - 1] == b[0];
    }
  }

  /** Files as a finished stream leaves them: they read back as `rows`, in
      order; every file but the last holds `n` rows and the last 1 to `n`;
      their names were free in `dir`, make up the rest of `after`, and carry
      increasing indices from `from` up to `upto`. */
  predicate Stored(files: seq<ParquetFile>, rows: seq<seq<Field>>, n: nat,
                   dir: set<string>, after: set<string>, from: nat, upto: nat) {
    && AllReadable(files) && AllRows(files) == rows
    && (forall k :: 0 <= k < |files| - 1 ==> files[k].numRows == n)
    && (|files| > 0 ==> 1 <= files[|files| - 1].numRows <= n)
    && FreshNames(dir, files, after)
    && NamedInOrder(files, from, upto)
  }

  /** Records through a writer holding no rows, then `flush`: the files hold
      exactly the records, normalised and in order; every file but the last
      holds `flush_size` rows and the last between 1 and `flush_size`; names
      are fresh and indices increase; nothing is left for `Drop` to write. */
  lemma {:induction false} StreamThenFlush(w: TableWriter, dir: set<string>, t: TypeDesc, vs: seq<Value>)
    requires Ready(w, t) && IsEmpty(w.buffer)
    requires forall k :: 0 <= k < |vs| ==> WellTyped(t, vs[k])
    ensures WriteRows(w, dir, t, vs).result.Ok? && Ready(WriteRows(w, dir, t, vs).writer, t)
    ensures FlushReady(WriteRows(w, dir, t, vs).writer)
    ensures var s := WriteRows(w, dir, t, vs);
      var f := Flush(s.writer, s.dir);
      && f.result.Ok?
      && Stored(s.written + f.written, NormalizeRows(Appended(t, vs)), w.flushSize, dir, f.dir, w.fileIndex, f.writer.fileIndex)
      && IsEmpty(f.writer.buffer)
      && Drop(f.writer, f.dir) == Done(f.writer, f.dir)
  {
    WriteRowsStream(w, dir, t, vs);
    var s := WriteRows(w, dir, t, vs);
    assert Pending(w.buffer) + Appended(t, vs) == Appended(t, vs);
    FinalFlush(s, t, w.flushSize, w.fileIndex, dir, Appended(t, vs));
    var f := Flush(s.writer, s.dir);
    LastFileBounds(s.written, f.written, w.flushSize);
  }
}
