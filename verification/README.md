# dixit record persistence, modelled in Dafny

This project models how the dixit recorder turns exchange messages into
Parquet files. It covers four pieces:

- **The `Persistable` mapping.** Rust types map to Parquet columns, and values
  map to row fields. This covers the built-in implementations and what the
  `Persist` derive generates for structs, tuple structs and enums.
  - `Persistable.Schema` is the trait's `schema`.
  - `Persistable.Append` is its `append`.
  - A Rust type is described by a `TypeDesc`; its `Width` is the number of
    leaf columns.
  - The derive's field attributes (`#[persist(ignore = ..)]` and
    `#[persist_timestamp(unit = "..")]`) are parsed in `DeriveAttrs`.
- **The column-major `RowBuffer`.** `begin` and `push` fill rows column by
  column. `record` turns each column into definition levels plus a typed value
  array. The Parquet file writer is an abstract sink that receives those arrays
  as a row group.
- **`TableWriter` and `PersistConfig`.**
  - the enable rule;
  - a schema frozen by the first row;
  - flushing when `flush_size` rows are buffered;
  - file names `{:0>9}.parquet` chosen against the set of names already in the
    table directory;
  - `Drop`, which flushes what is left.

  `WriterStream` proves the stream theorem: rows go, in order and without loss
  or duplication, into files of `flush_size` rows, plus one last file for the
  remainder.
- **The Coinbase feed and the persister loop.**
  - `handle` classifies WebSocket frames into data, skip and error records. It
    consults two JSON decoders, which are given as functions.
  - `persister::run` folds the records into the venue's writer, stops at the
    first error record, and flushes.
  - recorder_bin's variant of the loop only logs.

  The three binaries (record_bin, dixit and recorder_bin) share the same
  `handle` and `subscribe` code and the same `RfqMatch` fields, so one model
  serves all three. Only record_bin and dixit derive `Persist` for
  `RfqMatch`; recorder_bin only logs it.

Rust's fixed-width integers are subset types of `int`. Every `as` cast that
matters is written out:

- `u32 as i32`, `u64 as i64` and `i64 as u64` as two's-complement
  reinterpretations;
- `u128 as u64` as truncation to the low 64 bits.

One panic of the schema walk becomes an error value: a leaf schema without
a name gives `"name must be set"`. The `build().unwrap()` that ends every
leaf schema is taken never to panic (see "Left out"). `debug_assert!`s
become preconditions.

## Model

| member | source | states |
|---|---|---|
| ParquetTypes.I32FromU32 | recorder_persist/src/row.rs:78 | `u as i32` is the value congruent to `u` modulo 2^32, and it is non-negative exactly when `u < 2^31`. |
| ParquetTypes.I64FromU64 | recorder_persist/src/row.rs:90 | `u as i64` is congruent to `u` modulo 2^64, and it is non-negative exactly when `u < 2^63`. |
| ParquetTypes.U64FromI64 | record_persist/src/lib.rs:323-325 | `x as u64` is `x` modulo 2^64; it is below 2^63 exactly when `x >= 0`. |
| ParquetTypes.U64Truncate | record_persist/src/lib.rs:347 | `as u64` of a wider count is exact below 2^64 and otherwise differs by a multiple of 2^64. |
| ParquetTypes.I64RoundTrip | record_persist/src/lib.rs:323-325 | An i64 cast to u64 for `append` and back to i64 by the INT64 column writer is unchanged. |
| Digits.NatToString | record_persist/src/lib.rs:359-362 | `n.to_string()` is a non-empty digit string with no leading zero; it has one digit exactly when `n < 10`. |
| Digits.PadLeftZeros | record_persist/src/writer.rs:153 | `{:0>w}` has length `max(w, len)`, ends with the original text, and is `'0'` before it. |
| Digits.ParsePadded | record_persist/src/writer.rs:153 | A zero-padded rendering of `n` is all digits and reads back as `n`. |
| Digits.PaddedInjective | record_persist/src/writer.rs:150-158 | Two naturals with the same padded rendering are equal. |
| DebugText.EscapeRoundTrip | record_persist/src/config.rs:34 | Reading back the `{:?}` escaping of a string gives the string. |
| DebugText.QuotedReadsBack | record_persist/src/config.rs:34 | `{:?}` of a string is quoted, its inside reads back as the string, and every quote inside is escaped. |
| Config.NewEnablesOnlyItsTable | record_persist/src/config.rs:18-27 | `new(d, t)` enables table `p` iff `p == t` and `d` is non-empty; it copies `d` and sets `keep` to false. |
| Config.DefaultDisablesEverything | record_persist/src/config.rs:5-15 | The default configuration has an empty directory, `keep` false and no tables, and it enables no table. |
| Config.RenderSet | record_persist/src/config.rs:40 | `{:?}` of a set starts with `{` and has at least two characters. |
| Config.QuotedSetIsNotAll | record_persist/src/config.rs:37-41 | The quoted rendering of a set can never be mistaken for `tables: "all"`. |
| Config.DisplayShowsAllIffEmpty | record_persist/src/config.rs:30-44 | `Display` ends in `tables: "all" }` iff the table set is empty. |
| DeriveAttrs.UnitFromString | record_persist_derive/src/parquet.rs:275-280 | `"ns"`, `"us"` and `"ms"` (and only they) select nanos, micros and millis; anything else gives none. |
| DeriveAttrs.TimestampLogicalType | record_persist_derive/src/parquet.rs:141-153 | The generated logical type is a UTC-adjusted timestamp in exactly the chosen unit. |
| DeriveAttrs.ParseIgnoreIsLastSetting | record_persist_derive/src/parquet.rs:249-268 | `ignore` is the last `ignore = <bool>` written in a `persist` attribute, and false when there is none. |
| DeriveAttrs.ParseUnitIsLastSetting | record_persist_derive/src/parquet.rs:269-288 | The timestamp comes from the last `unit = ".."` written: a known unit selects it, any other string clears it, and none leaves it unset. |
| Persistable.IntPhysical | record_persist/src/lib.rs:288-298 | 16- and 32-bit integers map to INT32; 64-bit and pointer-sized integers map to INT64. |
| Persistable.PrimPhysical | record_persist/src/lib.rs:288-298 | bool maps to BOOLEAN, f32 to FLOAT, f64 to DOUBLE, and exactly the integers map to INT32/INT64. |
| Persistable.SchemaShape | record_persist/src/lib.rs:242-261 | `schema` panics with "name must be set" iff a leaf is reached without a name. Otherwise it emits `Width(t)` columns whatever the prefix, override and logical type. The `build().unwrap()` after each leaf is taken to succeed (see Left out). |
| Persistable.FieldCount | record_persist/src/lib.rs:34-54 | `field_count()` is the type's column count. |
| Persistable.FieldCountCached | record_persist/src/lib.rs:43-52 | A cache hit or a miss returns the column count. The cache stays consistent, gains the entry, and keeps every old entry. |
| SchemaLayout.LeafColumn | record_persist/src/lib.rs:242-261 | A named leaf is one column of the tabled physical type, REQUIRED unless overridden. Only primitives and `Duration` take the caller's logical type. `Duration` is named `p_ns`. The leaf's `build()` is taken to accept every physical/logical pair (see Left out). |
| SchemaLayout.LeafNeedsName | record_persist/src/lib.rs:250 | A leaf schema without a prefix panics with "name must be set". |
| SchemaLayout.DateTimeStoredAsNanos | record_persist/src/lib.rs:300-328 | A `DateTime` pushes a field the INT64 writer accepts and stores as its epoch nanoseconds (0 when unrepresentable), negative values included. |
| SchemaLayout.DurationStoredAsNanos | record_persist/src/lib.rs:330-351 | A `Duration` pushes its nanosecond count cast to u64: exact below 2^64, otherwise the low 64 bits. |
| SchemaLayout.PairLayout | record_persist/src/lib.rs:205-240 | A pair's columns are `.0`'s under `p_0`, then `.1`'s under `p_1`. Its fields line up with them block by block. |
| SchemaLayout.ArrayLayout | record_persist/src/lib.rs:353-382 | `[T; n]` has `n * Width(T)` columns and fields. Column and field `i*Width(T)+m` are column and field `m` of element `i`, named `p_i`. |
| SchemaLayout.NamedStructLayout | record_persist_derive/src/parquet.rs:53-85 | A struct's schema and append concatenate, in declaration order, each non-ignored field's columns under `p_f` and its values. An ignored field gives neither. The incoming logical type is dropped. |
| SchemaLayout.TupleStructLayout | record_persist_derive/src/parquet.rs:87-115 | A tuple struct's field `i` contributes its columns under `p_i` and its values, in index order; the ignore attribute is never read. |
| SchemaLayout.EnumLayout | record_persist_derive/src/parquet.rs:120-133 | An enum of unit and tuple variants is one STRING byte-array column named by the prefix or the enum's name. It pushes the variant name whatever the tuple payload. |
| SchemaProperties.SchemaColumnsBehave | record_persist/src/lib.rs:82-103 | Every column has a supported physical type; an OPTIONAL override reaches every leaf; without an inner `Option` every leaf takes the override, REQUIRED by default. |
| SchemaProperties.OptionColumnsAreOptional | record_persist/src/lib.rs:89 | Every column of `Option<T>` is OPTIONAL, whatever override it was given. |
| SchemaProperties.DefaultColumnsAreRequired | record_persist/src/lib.rs:253 | With no override and no `Option` inside, every column is REQUIRED. |
| SchemaProperties.AppendFitsSchema | record_persist/src/lib.rs:93-102 | Column alignment. A well-typed value pushes one field per column, in order. Each field is accepted by its column's writer, and Nulls land only in OPTIONAL columns. |
| SchemaProperties.AppendWidth | record_persist/src/lib.rs:97-99 | `append` pushes `Width(t) == field_count()` fields, so the Nulls of a `None` fill exactly its columns. |
| SchemaProperties.FieldCountMatchesAnySchema | record_persist/src/lib.rs:43-52 | `field_count()` under the dummy name "any" equals the column count under any prefix, override and logical type. |
| SchemaProperties.TopLevelSchema | record_persist/src/writer.rs:53 | The unprefixed top-level `schema` call succeeds exactly for self-naming types, and fails otherwise with "name must be set". |
| Row.Begin | recorder_persist/src/row.rs:24-27 | `begin`, called after a full row, keeps the columns and restarts at column 0. |
| Row.Push | recorder_persist/src/row.rs:29-35 | `push` appends to the current column, grows the list only when past its end, leaves other columns alone, and advances. |
| Row.PushAllIntoColumns | recorder_persist/src/row.rs:29-35 | Pushing a row appends field `k` to column `currentCol + k` and leaves the others unchanged. |
| Row.EncodeFieldsOkIff | recorder_persist/src/row.rs:62-140 | A column encodes iff its writer accepts every field. Otherwise the error names the expected type. |
| Row.DefLevelsMarkNulls | recorder_persist/src/row.rs:58-59 | One definition level per field: 0 for Null, 1 otherwise. |
| Row.EncodeFieldsCells | recorder_persist/src/row.rs:63-138 | The value array has one cell of the column's type per non-null field. |
| Row.EncodeFieldsRoundTrip | recorder_persist/src/row.rs:55-144 | Decoding levels and values gives back the column, with unsigned fields reinterpreted as signed. |
| Row.FirstFailing | recorder_persist/src/row.rs:55-144 | Finds the first column whose writer fails; every column before it encodes. |
| Row.RecordSpecCorrect | recorder_persist/src/row.rs:37-147 | A non-empty buffer records iff every column is accepted. It then returns `len()`, empties every column, and hands over one readable chunk per column. |
| Row.RecordSpecStops | recorder_persist/src/row.rs:55-144 | A failed `record` stops at the first rejected column. Earlier columns were accepted and are emptied; later ones are untouched; no row group is completed. |
| Row.Record | recorder_persist/src/row.rs:37-147 | `record`: 0 rows and nothing written on an empty buffer; both the success contract and the first-failure contract above. |
| Row.WriteColumns | recorder_persist/src/row.rs:52-146 | The per-column loop computes exactly the column-at-a-time reference `RecordSpec`. |
| Writer.FileNameCarriesIndex | record_persist/src/writer.rs:153 | The index can be parsed back out of `{:0>9}.parquet`, and every name is at least 17 characters. |
| Writer.FileNamesDistinct | record_persist/src/writer.rs:153 | Distinct indices give distinct file names. |
| Writer.NextFree | record_persist/src/writer.rs:150-158 | The name loop finds the first index from `file_index` on whose name is absent; every index before it is taken. |
| WriterProperties.NewWriterState | record_persist/src/writer.rs:90-118 | `new` fails only when the directory cannot be created, and deletes the directory when `keep` is off. It returns an empty writer with threshold `BUFFERED_ROWS`, index 0, no schema and auto-flush, enabled exactly by the rule. |
| WriterProperties.VenueWriterEnabled | record_bin/src/main.rs:122-124 | The persister's writer is enabled exactly when the output folder is non-empty. |
| WriterProperties.DisabledWriterIsInert | record_persist/src/writer.rs:120-133 | On a disabled writer, `begin`, `record`, `end`, `flush` and `flush_if_needed` succeed and change nothing. |
| WriterProperties.SchemaIsFrozen | record_persist/src/writer.rs:50-86 | Once a schema exists, no call changes it or the collected columns. |
| WriterProperties.FirstRowFixesSchema | record_persist/src/writer.rs:50-79 | Without a schema, `record` succeeds iff the type names its columns, appending them to `fields`; `end` makes `fields` the schema. |
| WriterProperties.FlushGuards | record_persist/src/writer.rs:131-140 | `flush` with no rows does nothing; with rows but no schema it fails with "schema has not been created" and changes nothing. |
| Writer.Flush | record_persist/src/writer.rs:150-158 | A flush past its guards takes the first free index from `file_index` on. It adds only that name to the directory, moves the index one past it, and names its file after it. No other writer field changes except the buffer. |
| WriterProperties.FlushTakesFreshName | record_persist/src/writer.rs:150-158 | A flush takes a name absent from the directory and adds only that name. Every skipped index was taken, and the index increases. |
| WriterProperties.FlushNamesIncrease | record_persist/src/writer.rs:150-158 | No later index can produce the name just used. |
| WriterProperties.FlushWritesBuffer | record_persist/src/writer.rs:159-177 | A flush succeeds iff every column's writer accepts its fields. It then writes one file with the schema and `len()` rows that read back as the buffer, and empties the buffer. On failure no completed file is handed over, but the name is already taken in the directory and `file_index` has moved past it. |
| WriterProperties.FlushIfNeededWhenFull | record_persist/src/writer.rs:179-184 | `flush_if_needed` writes one file exactly when at least `flush_size` rows are held, and empties the buffer then. |
| WriterProperties.DropFlushesPendingRows | record_persist/src/writer.rs:31-39 | Dropping a writer that still holds rows writes them all to one file; an empty writer writes nothing. |
| WriterStream.NewWriterIsReady | record_persist/src/writer.rs:108-117 | A fresh enabled writer holds no rows and is ready for any self-naming type. |
| WriterStream.PushRow | record_persist/src/writer.rs:50-59 | `record` after `begin` adds exactly the value's fields as one more row, and the schema becomes the type's columns. |
| WriterStream.EndOfRow | record_persist/src/writer.rs:61-86 | `end` after a row keeps the rows below the threshold, or writes them all to one fresh file at the threshold. |
| WriterStream.WriteRowStep | record_persist/src/writer.rs:120-129 | One `begin`/`record`/`end` on a ready writer succeeds and keeps it ready. Files written plus rows held equal the earlier rows plus the new one. |
| WriterStream.WriteRowsStream | record_persist/src/writer.rs:131-184 | Over a stream no call fails. Written rows, then held rows, equal earlier rows then the records, in order. Each file has `flush_size` rows and a fresh, increasing name. |
| WriterStream.StreamThenFlush | record_persist/src/writer.rs:131-184 | Records then `flush` leave files holding exactly the records, in order. All files but the last have `flush_size` rows, the last 1 to `flush_size`. Names are fresh and increasing, and the buffer ends empty. |
| StreamCount.FileCount | record_persist/tests/writer.rs:37-45 | Files shaped like a stream's number `ceil(rows / n)`: none for no rows, one for 1 to `n` rows (11 rows make one file). |
| Coinbase.HandleData | record_bin/src/main.rs:215-226 | `handle` gives data iff the text decodes as a match of type "rfq_match"; it carries "coinbase", that type, the product id and the match. |
| Coinbase.HandleError | record_bin/src/main.rs:227-234 | `handle` gives an error iff the text does not decode as a match but decodes as an error of type "error"; it carries its message and reason. |
| Coinbase.HandleSkip | record_bin/src/main.rs:235-240 | Everything else is skipped: text with its own content, other frames with "no text". |
| Coinbase.MatchParseWins | dixit/src/main.rs:275-292 | Once the text decodes as a match, the error decoder is never consulted; a match of another type is skipped with its text. |
| Coinbase.SubscribeFrame | record_bin/src/main.rs:207-213 | `subscribe` sends a text frame. When neither the match decoder nor the error decoder accepts that text, `handle` skips it with its own text. |
| Coinbase.RfqMatchValue | record_bin/src/main.rs:243-255 | Every decoded match is a well-typed value of the derived `RfqMatch` type. |
| Coinbase.RfqMatchLayout | record_bin/src/main.rs:243-255 | `RfqMatch` is nine REQUIRED columns in declaration order: five STRING byte arrays, "time" as a UTC nanosecond timestamp, "trade_id" INT64, "size"/"price" DOUBLE. They are named after the Rust fields ("channel", not "type"). |
| Coinbase.RfqMatchFields | dixit/src/main.rs:300-312 | A match pushes one field per column and reads back with the time as nanoseconds and the trade id as i64. |
| Persister.OutputFolder | record_bin/src/main.rs:116-120 | The output folder is never empty, so the venue table is enabled. |
| Persister.FirstError | record_bin/src/main.rs:139-142 | The index of the first error record, or the length when there is none. |
| Persister.LoopStopsAtError | record_bin/src/main.rs:126-144 | The loop over all records does what the loop over the records before the first error does, and it consumes the error record itself. |
| Persister.LoopAdvances | record_bin/src/main.rs:128-138 | With no error record, data records pass through the writer as one row each, in order, and skip records leave no trace. |
| Persister.RunStoresDataBeforeError | record_bin/src/main.rs:122-148 | With a creatable directory, and with leaf `build()` taken to succeed (see Left out), a run succeeds. Its files hold exactly one row per data record before the first error, in order. Files are full but the last; names are fresh, indices from 0. |
| Persister.RunShape | dixit/src/main.rs:166-191 | A run is `new`, the loop, then `flush`, leaving `Drop` nothing to write. |
| Persister.FewRecordsOneFile | record_persist/src/writer.rs:109 | Up to `BUFFERED_ROWS` data records before the first error make exactly one file, or none without data. |
| Persister.RunWithoutDirectory | record_bin/src/main.rs:124 | If the table directory cannot be created, the run fails with the I/O error before receiving anything, and writes nothing. |
| Persister.LogOnlyLinesPerRecord | recorder_bin/src/main.rs:93-107 | The log-only loop logs one line per record up to and including the first error, in order; only the last line can be an error. |

## Left out

- WebSocket I/O, `tokio` tasks, mpsc channels, `main` and CLI configuration are not modelled. `handle` takes an abstract frame, and `run` takes a finite sequence of records.
- JSON decoding with serde_json is not modelled. Each decoder is a function from the frame text to an optional match or error.
- Coinbase.Subscribe: the frame text is written out as serde_json prints `json!` with its default sorted map. JSON serialisation itself is not modelled.
- Logging (`info!`, `warn!`, `error!`) is not modelled, except for recorder_bin's log lines.
- The parquet crate is not modelled: `SerializedFileWriter`, ZSTD, the footer, `close`, and the group-type build in `end`. The only errors modelled are column writers rejecting a field kind and a missing schema.
- Filesystem errors of `File::create_new` and `remove_dir_all` are not modelled. The directory is a set of names, and `exists` is membership.
- Writer.JoinPath models `PathBuf::push` for relative names only. An absolute `path_prefix` would replace the directory.
- Floating-point values, `Decimal::to_f64`, chrono's `timestamp_nanos_opt()` and the Debug text of `Vec`, `HashSet` and `HashMap` are payloads already computed inside a value. `HashMap` iteration order is nondeterministic, and `Decimal::to_f64` is taken never to fail.
- DebugText.Escape escapes only `"`, `\`, `\0`, `\t`, `\r` and `\n`. Rust's `{:?}` also writes other non-printable characters as `\u{..}`.
- Row.InvalidTypeMessage keeps only the fixed part of a column writer's error. The ` - {:?}` rendering of the rejected field is not modelled.
- Config.Display takes the `HashSet` iteration order as a parameter.
- Persistable.FieldCountCached threads the cache through as a map. The global `Mutex`/`LazyLock` and concurrent access are not modelled.
- `isize`/`usize` are modelled as 64-bit.
- The derive's arms for unions and unit structs generate a `return Err(..)` that does not compile, so they are not modelled.
- Enum variants with named fields are not modelled: the derive's `append` matches them with the tuple pattern `V(..)` (record_persist_derive/src/parquet.rs:212-214), which does not compile for such a variant.
- `debug_assert!`s in `RowBuffer::begin` and `record` are preconditions. `Writer.FlushReady` is a caller obligation: held rows are complete, rectangular and one column per schema column. The source assumes this without checking it.
- WriterStream.Ready requires a type with at least one column. With zero columns the buffer never grows, so nothing is ever written.
- Persistable.SchemaShape takes the parquet type builder's `build()` to succeed for every leaf, so the `unwrap` after it never panics. The builder's check that a logical type suits its physical type is not modelled. The model therefore accepts pairs that check is expected to reject: the `Decimal` leaf's DOUBLE column annotated as STRING (record_persist/src/lib.rs:416-423), and a `#[persist_timestamp]` timestamp handed to a DOUBLE, FLOAT, INT32 or BOOLEAN primitive.
- SchemaLayout.LeafColumn inherits that assumption: a named leaf always gives its column, even for a physical/logical pair the builder would refuse.
- Persister.RunStoresDataBeforeError rests on the same assumption. `RfqMatch`'s `size` and `price` are `Decimal` columns, so if `build()` refuses DOUBLE with a STRING annotation, the source panics at the first record's schema instead of storing it.
- Persister.Run does not apply `Drop` on the error paths of the loop and the final flush. Persister.RunStoresDataBeforeError shows that those paths are never taken once the directory exists.
