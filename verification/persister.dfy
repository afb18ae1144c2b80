/** `persister::run`: the records `handle` produced, folded in arrival order
    into the venue's `TableWriter` (record_bin, dixit), or only logged
    (recorder_bin). The loop writes one row per data record, skips the rest,
    and stops at the first error record; the writer is then flushed. */
module Persister {
  import opened Wrappers
  import opened ParquetTypes
  import opened Persistable
  import opened Row
  import opened Writer
  import opened WriterProperties
  import opened WriterStream
  import opened StreamCount
  import opened Coinbase
  import Config

  /** `Venue::Coinbase.to_string()`, the table name and the file path prefix. */
  const VENUE := "coinbase"

  /** `OUTPUT_FOLDER`: the working directory with "output" pushed on it. */
  function OutputFolder(cwd: string): (folder: string)
    ensures folder != ""
  {
    JoinPath(cwd, "output")
  }

  // ----- Records before the first error -----

  /** The index of the first error record, or the length when there is none. */
  function FirstError(rs: seq<Record>): (i: nat)
    ensures i <= |rs|
    ensures forall k :: 0 <= k < i ==> !rs[k].Error?
    ensures i < |rs| ==> rs[i].Error?
    decreases |rs|
  {
    if |rs| == 0 || rs[0].Error? then 0 else 1 + FirstError(rs[1..])
  }

  /** The matches the data records carry, in order. */
  function DataMatches(rs: seq<Record>): seq<RfqMatch>
    decreases |rs|
  {
    if |rs| == 0 then []
    else (if rs[0].Data? then [rs[0].data.rfqMatch] else []) + DataMatches(rs[1..])
  }

  /** The matches as the values `record` receives. */
  function MatchValues(ms: seq<RfqMatch>): (vs: seq<Value>)
    ensures |vs| == |ms|
    ensures forall k :: 0 <= k < |vs| ==> WellTyped(RFQ_MATCH_TYPE, vs[k])
  {
    seq(|ms|, k requires 0 <= k < |ms| => RfqMatchValue(ms[k]))
  }

  /** The records the loop takes off the channel: up to and including the
      first error, or all of them. */
  function Consumed(rs: seq<Record>): nat {
    if FirstError(rs) < |rs| then FirstError(rs) + 1 else |rs|
  }

  // ----- The loop -----

  /** The writer's last step and how many records were received. */
  datatype Ran = Ran(step: Step, consumed: nat)

  /** A ready writer never needs the flush `flush_if_needed` checks for:
      `end` already flushed a full buffer. */
  lemma {:induction false} ReadyHasRoom(w: TableWriter, dir: set<string>, t: TypeDesc)
    requires Ready(w, t)
    ensures FlushReady(w)
    ensures FlushIfNeeded(w, dir) == Done(w, dir)
  {
    ReadyFlushReady(w, t);
  }

  /** The `while let Some(record) = rx.recv()` loop: a data record is
      written with `begin`/`record`/`end` and `flush_if_needed`, returning at
      the first error; a skip record is only logged; an error record breaks
      out of the loop. */
  function Loop(w: TableWriter, dir: set<string>, rs: seq<Record>): Ran
    requires Ready(w, RFQ_MATCH_TYPE)
    decreases |rs|
  {
    if |rs| == 0 then Ran(Done(w, dir), 0)
    else
      match rs[0]
      case Error(_, _) => Ran(Done(w, dir), 1)
      case Skip(_) =>
        var rest := Loop(w, dir, rs[1..]);
        Ran(rest.step, rest.consumed + 1)
      case Data(_, _, _, data) =>
        var v := RfqMatchValue(data.rfqMatch);
        var s := WriteRow(w, dir, RFQ_MATCH_TYPE, v);
        match s.result
        case Err(_) => Ran(s, 1)
        case Ok(_) =>
          WriteRowStep(w, dir, RFQ_MATCH_TYPE, v);
          ReadyHasRoom(s.writer, s.dir, RFQ_MATCH_TYPE);
          var f := FlushIfNeeded(s.writer, s.dir);
          match f.result
          case Err(_) => Ran(Step(f.result, f.writer, f.dir, s.written + f.written), 1)
          case Ok(_) =>
            var rest := Loop(f.writer, f.dir, rs[1..]);
            Ran(Step(rest.step.result, rest.step.writer, rest.step.dir, s.written + f.written + rest.step.written),
                rest.consumed + 1)
  }

  /** The loop on a data record: the row is written, the writer stays
      ready and no flush is needed, and the loop goes on with the rest. */
  lemma {:induction false} LoopData(w: TableWriter, dir: set<string>, rs: seq<Record>)
    requires Ready(w, RFQ_MATCH_TYPE) && |rs| > 0 && rs[0].Data?
    ensures var s := WriteRow(w, dir, RFQ_MATCH_TYPE, RfqMatchValue(rs[0].data.rfqMatch));
      && Advanced(w.flushSize, w.fileIndex, dir, RFQ_MATCH_TYPE,
                  Pending(w.buffer) + [Append(RFQ_MATCH_TYPE, RfqMatchValue(rs[0].data.rfqMatch))], s)
      && var rest := Loop(s.writer, s.dir, rs[1..]);
         Loop(w, dir, rs) == Ran(Step(rest.step.result, rest.step.writer, rest.step.dir, s.written + rest.step.written),
                                 rest.consumed + 1)
  {
    var v := RfqMatchValue(rs[0].data.rfqMatch);
    WriteRowStep(w, dir, RFQ_MATCH_TYPE, v);
    LoopDataUnfold(w, dir, rs, WriteRow(w, dir, RFQ_MATCH_TYPE, v));
  }

  lemma {:induction false} LoopDataUnfold(w: TableWriter, dir: set<string>, rs: seq<Record>, s: Step)
    requires Ready(w, RFQ_MATCH_TYPE) && |rs| > 0 && rs[0].Data?
    requires s == WriteRow(w, dir, RFQ_MATCH_TYPE, RfqMatchValue(rs[0].data.rfqMatch))
    requires s.result.Ok? && Ready(s.writer, RFQ_MATCH_TYPE)
    ensures var rest := Loop(s.writer, s.dir, rs[1..]);
      Loop(w, dir, rs) == Ran(Step(rest.step.result, rest.step.writer, rest.step.dir, s.written + rest.step.written),
                              rest.consumed + 1)
  {
    ReadyHasRoom(s.writer, s.dir, RFQ_MATCH_TYPE);
    assert s.written + [] == s.written;
  }

  /** The loop on a skip record goes straight on with the rest. */
  lemma {:induction false} LoopSkip(w: TableWriter, dir: set<string>, rs: seq<Record>)
    requires Ready(w, RFQ_MATCH_TYPE) && |rs| > 0 && rs[0].Skip?
    ensures Loop(w, dir, rs) == Ran(Loop(w, dir, rs[1..]).step, Loop(w, dir, rs[1..]).consumed + 1)
  {
  }

  /** Nothing after the first error record reaches the writer: the loop over
      all records does what the loop over the records before it does, and
      takes the error record itself off the channel. */
  lemma {:induction false} LoopStopsAtError(w: TableWriter, dir: set<string>, rs: seq<Record>)
    requires Ready(w, RFQ_MATCH_TYPE)
    ensures Loop(w, dir, rs).step == Loop(w, dir, rs[..FirstError(rs)]).step
    ensures Loop(w, dir, rs).consumed == Consumed(rs)
    decreases |rs|, 1
  {
    if |rs| > 0 && rs[0].Skip? {
      SkipBeforeError(w, dir, rs);
    } else if |rs| > 0 && rs[0].Data? {
      DataBeforeError(w, dir, rs);
    }
  }

  lemma {:induction false} SkipBeforeError(w: TableWriter, dir: set<string>, rs: seq<Record>)
    requires Ready(w, RFQ_MATCH_TYPE) && |rs| > 0 && rs[0].Skip?
    ensures Loop(w, dir, rs).step == Loop(w, dir, rs[..FirstError(rs)]).step
    ensures Loop(w, dir, rs).consumed == Consumed(rs)
    decreases |rs|, 0
  {
    var p := rs[..FirstError(rs)];
    PrefixTail(rs);
    LoopSkip(w, dir, rs);
    LoopSkip(w, dir, p);
    LoopStopsAtError(w, dir, rs[1..]);
  }

  lemma {:induction false} DataBeforeError(w: TableWriter, dir: set<string>, rs: seq<Record>)
    requires Ready(w, RFQ_MATCH_TYPE) && |rs| > 0 && rs[0].Data?
    ensures Loop(w, dir, rs).step == Loop(w, dir, rs[..FirstError(rs)]).step
    ensures Loop(w, dir, rs).consumed == Consumed(rs)
    decreases |rs|, 0
  {
    var p := rs[..FirstError(rs)];
    PrefixTail(rs);
    LoopData(w, dir, rs);
    LoopData(w, dir, p);
    var s := WriteRow(w, dir, RFQ_MATCH_TYPE, RfqMatchValue(rs[0].data.rfqMatch));
    LoopStopsAtError(s.writer, s.dir, rs[1..]);
  }

  /** Before the first error, the records up to it start with the first
      record and go on with the rest's records up to its first error. */
  lemma {:induction false} PrefixTail(rs: seq<Record>)
    requires |rs| > 0 && !rs[0].Error?
    ensures FirstError(rs) == FirstError(rs[1..]) + 1
    ensures rs[..FirstError(rs)][0] == rs[0]
    ensures rs[..FirstError(rs)][1..] == rs[1..][..FirstError(rs[1..])]
    ensures Consumed(rs) == Consumed(rs[1..]) + 1
  {
  }

  /** One data record's row, then the rest of the records, make one run. */
  lemma {:induction false} DataThenRest(w: TableWriter, dir: set<string>, rs: seq<Record>, s: Step, rest: Step, whole: Step)
    requires Ready(w, RFQ_MATCH_TYPE) && |rs| > 0 && rs[0].Data?
    requires Advanced(w.flushSize, w.fileIndex, dir, RFQ_MATCH_TYPE,
                      Pending(w.buffer) + [Append(RFQ_MATCH_TYPE, RfqMatchValue(rs[0].data.rfqMatch))], s)
    requires Advanced(s.writer.flushSize, s.writer.fileIndex, s.dir, RFQ_MATCH_TYPE,
                      Pending(s.writer.buffer) + Appended(RFQ_MATCH_TYPE, MatchValues(DataMatches(rs[1..]))), rest)
    requires whole == Step(rest.result, rest.writer, rest.dir, s.written + rest.written)
    ensures Advanced(w.flushSize, w.fileIndex, dir, RFQ_MATCH_TYPE,
                     Pending(w.buffer) + Appended(RFQ_MATCH_TYPE, MatchValues(DataMatches(rs))), whole)
  {
    DataCarriesMatch(rs);
    StreamCons(w, dir, RFQ_MATCH_TYPE, MatchValues(DataMatches(rs)), s, rest, whole);
  }

  /** A skip record carries no match. */
  lemma {:induction false} SkipCarriesNoMatch(rs: seq<Record>)
    requires |rs| > 0 && rs[0].Skip?
    ensures MatchValues(DataMatches(rs)) == MatchValues(DataMatches(rs[1..]))
  {
    assert DataMatches(rs) == DataMatches(rs[1..]);
  }

  /** A data record carries the first match. */
  lemma {:induction false} DataCarriesMatch(rs: seq<Record>)
    requires |rs| > 0 && rs[0].Data?
    ensures |MatchValues(DataMatches(rs))| > 0
    ensures MatchValues(DataMatches(rs))[0] == RfqMatchValue(rs[0].data.rfqMatch)
    ensures MatchValues(DataMatches(rs))[1..] == MatchValues(DataMatches(rs[1..]))
  {
    assert DataMatches(rs) == [rs[0].data.rfqMatch] + DataMatches(rs[1..]);
  }

  /** Before any error record, the loop is the stream of the data records'
      matches through the writer, and skip records leave no trace: no call
      fails, and the files written so far followed by the rows still held
      are the rows held before followed by one row per data record. */
  lemma {:induction false} LoopAdvances(w: TableWriter, dir: set<string>, rs: seq<Record>)
    requires Ready(w, RFQ_MATCH_TYPE)
    requires forall k :: 0 <= k < |rs| ==> !rs[k].Error?
    ensures Advanced(w.flushSize, w.fileIndex, dir, RFQ_MATCH_TYPE,
                     Pending(w.buffer) + Appended(RFQ_MATCH_TYPE, MatchValues(DataMatches(rs))), Loop(w, dir, rs).step)
    decreases |rs|, 2
  {
    if |rs| > 0 && rs[0].Skip? {
      SkipAdvances(w, dir, rs);
    } else if |rs| > 0 {
      DataAdvances(w, dir, rs);
    } else {
      assert Pending(w.buffer) + Appended(RFQ_MATCH_TYPE, MatchValues(DataMatches(rs))) == Pending(w.buffer);
      assert AllRows([]) == [];
    }
  }

  lemma {:induction false} SkipAdvances(w: TableWriter, dir: set<string>, rs: seq<Record>)
    requires Ready(w, RFQ_MATCH_TYPE) && |rs| > 0 && rs[0].Skip?
    requires forall k :: 0 <= k < |rs| ==> !rs[k].Error?
    ensures Advanced(w.flushSize, w.fileIndex, dir, RFQ_MATCH_TYPE,
                     Pending(w.buffer) + Appended(RFQ_MATCH_TYPE, MatchValues(DataMatches(rs))), Loop(w, dir, rs).step)
    decreases |rs|, 0
  {
    SkipCarriesNoMatch(rs);
    LoopSkip(w, dir, rs);
    LoopAdvances(w, dir, rs[1..]);
  }

  lemma {:induction false} DataAdvances(w: TableWriter, dir: set<string>, rs: seq<Record>)
    requires Ready(w, RFQ_MATCH_TYPE) && |rs| > 0 && rs[0].Data?
    requires forall k :: 0 <= k < |rs| ==> !rs[k].Error?
    ensures Advanced(w.flushSize, w.fileIndex, dir, RFQ_MATCH_TYPE,
                     Pending(w.buffer) + Appended(RFQ_MATCH_TYPE, MatchValues(DataMatches(rs))), Loop(w, dir, rs).step)
    decreases |rs|, 1
  {
    LoopData(w, dir, rs);
    DataThenLoop(w, dir, rs, WriteRow(w, dir, RFQ_MATCH_TYPE, RfqMatchValue(rs[0].data.rfqMatch)), Loop(w, dir, rs).step);
  }

  lemma {:induction false} DataThenLoop(w: TableWriter, dir: set<string>, rs: seq<Record>, s: Step, whole: Step)
    requires Ready(w, RFQ_MATCH_TYPE) && |rs| > 0 && rs[0].Data?
    requires forall k :: 0 <= k < |rs| ==> !rs[k].Error?
    requires Advanced(w.flushSize, w.fileIndex, dir, RFQ_MATCH_TYPE,
                      Pending(w.buffer) + [Append(RFQ_MATCH_TYPE, RfqMatchValue(rs[0].data.rfqMatch))], s)
    requires var rest := Loop(s.writer, s.dir, rs[1..]);
      whole == Step(rest.step.result, rest.step.writer, rest.step.dir, s.written + rest.step.written)
    ensures Advanced(w.flushSize, w.fileIndex, dir, RFQ_MATCH_TYPE,
                     Pending(w.buffer) + Appended(RFQ_MATCH_TYPE, MatchValues(DataMatches(rs))), whole)
    decreases |rs|, 0
  {
    LoopAdvances(s.writer, s.dir, rs[1..]);
    DataThenRest(w, dir, rs, s, Loop(s.writer, s.dir, rs[1..]).step, whole);
  }

  // ----- The whole run -----

  /** What `run` leaves behind: its result, the table directory, the files
      completed in order, the records received, and the next file index. */
  datatype Outcome = Outcome(result: Result<(), WriterError>, dir: set<string>, written: seq<ParquetFile>,
                             consumed: nat, nextIndex: nat)

  /** `persister::run(venue, rx)` over the records `rs`. `dir` holds the
      names already in the table directory and `createDir` the outcome of
      creating it. The writer is built for the venue's own table under the
      output folder, the loop runs, and `flush` writes what is left; the
      writer's `Drop` then finds nothing to write. */
  function Run(cwd: string, rs: seq<Record>, dir: set<string>, createDir: Result<(), string>): Outcome {
    var config := Config.New(OutputFolder(cwd), VENUE);
    var c := Writer.New(VENUE, config, dir, createDir);
    match c.result
    case Err(e) => Outcome(Err(e), c.dir, [], 0, 0)
    case Ok(w) =>
      WriterReady(cwd, dir, createDir);
      var r := Loop(w, c.dir, rs);
      match r.step.result
      case Err(e) => Outcome(Err(e), r.step.dir, r.step.written, r.consumed, r.step.writer.fileIndex)
      case Ok(_) =>
        LoopKeepsReady(w, c.dir, rs);
        var f := Flush(r.step.writer, r.step.dir);
        match f.result
        case Err(e) => Outcome(Err(e), f.dir, r.step.written + f.written, r.consumed, f.writer.fileIndex)
        case Ok(_) =>
          var d := Drop(f.writer, f.dir);
          Outcome(Ok(()), d.dir, r.step.written + f.written + d.written, r.consumed, d.writer.fileIndex)
  }

  /** The persister's writer is enabled, empty, and ready for matches. */
  lemma {:induction false} WriterReady(cwd: string, dir: set<string>, createDir: Result<(), string>)
    requires Writer.New(VENUE, Config.New(OutputFolder(cwd), VENUE), dir, createDir).result.Ok?
    ensures var w := Writer.New(VENUE, Config.New(OutputFolder(cwd), VENUE), dir, createDir).result.value;
      Ready(w, RFQ_MATCH_TYPE) && IsEmpty(w.buffer) && w.fileIndex == 0 && w.flushSize == BUFFERED_ROWS
  {
    var config := Config.New(OutputFolder(cwd), VENUE);
    NewWriterState(VENUE, config, dir, createDir);
    VenueWriterEnabled(OutputFolder(cwd), VENUE, dir, createDir);
    RfqMatchLayout();
    NewWriterIsReady(VENUE, config, dir, createDir, RFQ_MATCH_TYPE);
  }

  /** The loop never fails on a ready writer and leaves it ready and able
      to flush: it wrote or still holds the rows of the data records before
      the first error record. */
  lemma {:induction false} LoopKeepsReady(w: TableWriter, dir: set<string>, rs: seq<Record>)
    requires Ready(w, RFQ_MATCH_TYPE)
    ensures Advanced(w.flushSize, w.fileIndex, dir, RFQ_MATCH_TYPE,
                     Pending(w.buffer) + Appended(RFQ_MATCH_TYPE, MatchValues(DataMatches(rs[..FirstError(rs)]))),
                     Loop(w, dir, rs).step)
    ensures FlushReady(Loop(w, dir, rs).step.writer)
  {
    LoopStopsAtError(w, dir, rs);
    LoopAdvances(w, dir, rs[..FirstError(rs)]);
    ReadyFlushReady(Loop(w, dir, rs).step.writer, RFQ_MATCH_TYPE);
  }

  /** The rows a run stores: one per data record before the first error. */
  function StoredRows(rs: seq<Record>): (rows: seq<seq<Field>>)
    ensures |rows| == |DataMatches(rs[..FirstError(rs)])|
  {
    var ms := DataMatches(rs[..FirstError(rs)]);
    seq(|ms|, k requires 0 <= k < |ms| => RfqMatchRow(ms[k]))
  }

  /** The matches, appended and read back, are their stored rows. */
  lemma {:induction false} StoredRowsAreMatches(ms: seq<RfqMatch>)
    ensures NormalizeRows(Appended(RFQ_MATCH_TYPE, MatchValues(ms)))
      == seq(|ms|, k requires 0 <= k < |ms| => RfqMatchRow(ms[k]))
  {
    forall k | 0 <= k < |ms|
      ensures NormalizeAll(Append(RFQ_MATCH_TYPE, RfqMatchValue(ms[k]))) == RfqMatchRow(ms[k])
    {
      RfqMatchFields(ms[k]);
    }
  }

  /** When the table directory can be created, a run succeeds; the files it
      writes hold, in order and nothing else, one row per data record that
      came before the first error record; every file but the last holds
      `BUFFERED_ROWS` rows and the last 1 to `BUFFERED_ROWS`; the directory
      starts empty (`keep` is off) and every file gets a fresh name, with
      indices increasing from 0; the loop stops right after the first error
      record. */
  lemma {:induction false} RunStoresDataBeforeError(cwd: string, rs: seq<Record>, dir: set<string>, createDir: Result<(), string>)
    requires createDir.Ok?
    ensures var out := Run(cwd, rs, dir, createDir);
      && out.result.Ok?
      && AllReadable(out.written)
      && AllRows(out.written) == StoredRows(rs)
      && (forall k :: 0 <= k < |out.written| - 1 ==> out.written[k].numRows == BUFFERED_ROWS)
      && (|out.written| > 0 ==> 1 <= out.written[|out.written| - 1].numRows <= BUFFERED_ROWS)
      && FreshNames({}, out.written, out.dir)
      && NamedInOrder(out.written, 0, out.nextIndex)
      && out.consumed == Consumed(rs)
  {
    var config := Config.New(OutputFolder(cwd), VENUE);
    var c := Writer.New(VENUE, config, dir, createDir);
    NewWriterState(VENUE, config, dir, createDir);
    WriterReady(cwd, dir, createDir);
    var w := c.result.value;
    var ms := DataMatches(rs[..FirstError(rs)]);
    var rows := Appended(RFQ_MATCH_TYPE, MatchValues(ms));
    LoopKeepsReady(w, c.dir, rs);
    LoopStopsAtError(w, c.dir, rs);
    assert Pending(w.buffer) + rows == rows;
    var r := Loop(w, c.dir, rs);
    FinalFlush(r.step, RFQ_MATCH_TYPE, BUFFERED_ROWS, 0, {}, rows);
    var f := Flush(r.step.writer, r.step.dir);
    LastFileBounds(r.step.written, f.written, BUFFERED_ROWS);
    StoredRowsAreMatches(ms);
    RunShape(cwd, rs, dir, createDir);
  }

  /** With a ready writer and a loop that did not fail, a run is the loop,
      then `flush`, then a `Drop` with nothing left to write. */
  lemma {:induction false} RunShape(cwd: string, rs: seq<Record>, dir: set<string>, createDir: Result<(), string>)
    requires createDir.Ok?
    ensures var c := Writer.New(VENUE, Config.New(OutputFolder(cwd), VENUE), dir, createDir);
      && c.result.Ok? && c.dir == {} && Ready(c.result.value, RFQ_MATCH_TYPE)
      && var r := Loop(c.result.value, c.dir, rs);
      && r.step.result.Ok? && FlushReady(r.step.writer)
      && var f := Flush(r.step.writer, r.step.dir);
      && f.result.Ok? && IsEmpty(f.writer.buffer)
      && Run(cwd, rs, dir, createDir) == Outcome(Ok(()), f.dir, r.step.written + f.written, r.consumed, f.writer.fileIndex)
  {
    var config := Config.New(OutputFolder(cwd), VENUE);
    var c := Writer.New(VENUE, config, dir, createDir);
    NewWriterState(VENUE, config, dir, createDir);
    WriterReady(cwd, dir, createDir);
    var w := c.result.value;
    LoopKeepsReady(w, c.dir, rs);
    var r := Loop(w, c.dir, rs);
    FinalFlush(r.step, RFQ_MATCH_TYPE, BUFFERED_ROWS, 0, {}, Pending(w.buffer) + Appended(RFQ_MATCH_TYPE, MatchValues(DataMatches(rs[..FirstError(rs)]))));
    var f := Flush(r.step.writer, r.step.dir);
    assert Drop(f.writer, f.dir) == Done(f.writer, f.dir);
    assert r.step.written + f.written + [] == r.step.written + f.written;
  }

  /** As long as the data records before the first error fit in one buffer,
      a run writes exactly one file, or none when there is no data record.
      With fewer than `BUFFERED_ROWS` records the final flush writes it; with
      exactly `BUFFERED_ROWS` the last row's `end` already has. */
  lemma {:induction false} FewRecordsOneFile(cwd: string, rs: seq<Record>, dir: set<string>, createDir: Result<(), string>)
    requires createDir.Ok?
    requires |DataMatches(rs[..FirstError(rs)])| <= BUFFERED_ROWS
    ensures |Run(cwd, rs, dir, createDir).written| == if |DataMatches(rs[..FirstError(rs)])| == 0 then 0 else 1
  {
    RunStoresDataBeforeError(cwd, rs, dir, createDir);
    var out := Run(cwd, rs, dir, createDir);
    FileCount(out.written, BUFFERED_ROWS);
    var n := |DataMatches(rs[..FirstError(rs)])|;
    if n == 0 {
      DivOfRemainder(n + BUFFERED_ROWS - 1, BUFFERED_ROWS, 0, BUFFERED_ROWS - 1);
    } else {
      DivOfRemainder(n + BUFFERED_ROWS - 1, BUFFERED_ROWS, 1, n - 1);
    }
  }

  /** A run whose table directory cannot be created fails with the I/O error
      before receiving any record, and writes nothing. */
  lemma {:induction false} RunWithoutDirectory(cwd: string, rs: seq<Record>, dir: set<string>, message: string)
    ensures Run(cwd, rs, dir, Err(message)) == Outcome(Err(Io(message)), {}, [], 0, 0)
  {
  }

  // ----- recorder_bin: logging only -----

  /** A line of the log. */
  datatype LogLine = Info(text: string) | ErrorLine(text: string)

  /** The line logged for one record. */
  function LineFor(r: Record): LogLine {
    match r
    case Data(_, _, _, _) => Info("coinbase data")
    case Skip(message) => Info("skip data: " + message)
    case Error(message, reason) => ErrorLine(message + ": " + reason)
  }

  /** recorder_bin's `persister::run`: each record is logged, and the loop
      breaks after logging the first error. Nothing is persisted. */
  function LogOnly(rs: seq<Record>): seq<LogLine>
    decreases |rs|
  {
    if |rs| == 0 then []
    else
      match rs[0]
      case Data(_, _, _, _) => [Info("coinbase data")] + LogOnly(rs[1..])
      case Skip(message) => [Info("skip data: " + message)] + LogOnly(rs[1..])
      case Error(message, reason) => [ErrorLine(message + ": " + reason)]
  }

  /** The log has one line per record received, in order, up to and
      including the first error record; only its last line can be an error. */
  lemma {:induction false} LogOnlyLinesPerRecord(rs: seq<Record>)
    ensures |LogOnly(rs)| == Consumed(rs)
    ensures forall k :: 0 <= k < |LogOnly(rs)| ==> LogOnly(rs)[k] == LineFor(rs[k])
    ensures forall k :: 0 <= k < |LogOnly(rs)| - 1 ==> LogOnly(rs)[k].Info?
    decreases |rs|
  {
    if |rs| > 0 && !rs[0].Error? {
      LogOnlyLinesPerRecord(rs[1..]);
      var tail := LogOnly(rs[1..]);
      forall k | 0 <= k < |LogOnly(rs)|
        ensures LogOnly(rs)[k] == LineFor(rs[k])
      {
        if k > 0 {
          assert LogOnly(rs)[k] == tail[k - 1];
          assert rs[k] == rs[1..][k - 1];
        }
      }
      forall k | 0 <= k < |LogOnly(rs)| - 1
        ensures LogOnly(rs)[k].Info?
      {
        if k > 0 {
          assert LogOnly(rs)[k] == tail[k - 1];
        }
      }
    }
  }
}
