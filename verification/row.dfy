/** The column-major row buffer of the recorder: rows are pushed field by
    field into per-column lists, and `record` turns every column into the
    definition levels and the typed value array that a Parquet column writer
    takes. The Parquet file writer itself is abstract: `Record` hands back
    the row group it would write. */
module Row {
  import opened Wrappers
  import opened ParquetTypes

  /** `RowBuffer { rows, current_col, .. }`; the scratch vectors of the Rust
      struct are not state, only reused allocations. */
  datatype RowBuffer = RowBuffer(columns: seq<seq<Field>>, currentCol: nat)

  /** `RowBuffer::default()` */
  const EmptyBuffer := RowBuffer([], 0)

  /** `begin`: the previous row filled every column; start again at column 0. */
  function Begin(b: RowBuffer): (r: RowBuffer)
    requires b.currentCol == |b.columns|
    ensures r.columns == b.columns && r.currentCol == 0
  {
    b.(currentCol := 0)
  }

  /** `push`: append to the current column, growing the column list when the
      current column is past its end, and move to the next column. */
  function Push(b: RowBuffer, f: Field): (r: RowBuffer)
    ensures r.currentCol == b.currentCol + 1
    ensures |r.columns| == if b.currentCol < |b.columns| then |b.columns| else b.currentCol + 1
    ensures r.columns[b.currentCol] == (if b.currentCol < |b.columns| then b.columns[b.currentCol] else []) + [f]
    ensures forall i :: 0 <= i < |r.columns| && i != b.currentCol ==>
      r.columns[i] == if i < |b.columns| then b.columns[i] else []
  {
    var cols := if |b.columns| <= b.currentCol
      then b.columns + seq(b.currentCol + 1 - |b.columns|, _ => [])
      else b.columns;
    RowBuffer(cols[b.currentCol := cols[b.currentCol] + [f]], b.currentCol + 1)
  }

  /** Pushes the fields of one row in order. */
  function PushAll(b: RowBuffer, fs: seq<Field>): RowBuffer
    decreases |fs|
  {
    if |fs| == 0 then b else PushAll(Push(b, fs[0]), fs[1..])
  }

  /** `len`: the length of the first column, 0 without columns. */
  function Len(b: RowBuffer): nat {
    if |b.columns| == 0 then 0 else |b.columns[0]|
  }

  /** `is_empty` */
  predicate IsEmpty(b: RowBuffer) {
    Len(b) == 0
  }

  /** Pushing a row into a buffer that already has its columns appends field `k`
      to column `currentCol + k` and leaves every other column alone. */
  lemma {:induction false} PushAllIntoColumns(b: RowBuffer, fs: seq<Field>)
    requires b.currentCol + |fs| <= |b.columns|
    ensures PushAll(b, fs).currentCol == b.currentCol + |fs|
    ensures |PushAll(b, fs).columns| == |b.columns|
    ensures forall i :: 0 <= i < |b.columns| ==>
      PushAll(b, fs).columns[i] ==
        if b.currentCol <= i < b.currentCol + |fs| then b.columns[i] + [fs[i - b.currentCol]] else b.columns[i]
    decreases |fs|
  {
    if |fs| > 0 {
      var b1 := Push(b, fs[0]);
      PushAllIntoColumns(b1, fs[1..]);
    }
  }

  /** Pushing a row into a buffer with no column at or past `currentCol` creates
      one singleton column per field. */
  lemma {:induction false} PushAllCreatesColumns(b: RowBuffer, fs: seq<Field>)
    requires b.currentCol == |b.columns|
    ensures PushAll(b, fs).currentCol == b.currentCol + |fs|
    ensures PushAll(b, fs).columns == b.columns + seq(|fs|, k requires 0 <= k < |fs| => [fs[k]])
    decreases |fs|
  {
    if |fs| > 0 {
      var b1 := Push(b, fs[0]);
      assert |b1.columns| == |b.columns| + 1;
      assert forall i :: 0 <= i < |b.columns| ==> b1.columns[i] == b.columns[i];
      assert b1.columns[|b.columns|] == [fs[0]];
      assert b1.columns == b.columns + [[fs[0]]];
      PushAllCreatesColumns(b1, fs[1..]);
      assert b.columns + [[fs[0]]] + seq(|fs| - 1, k requires 0 <= k < |fs| - 1 => [fs[1..][k]])
        == b.columns + seq(|fs|, k requires 0 <= k < |fs| => [fs[k]]);
    }
  }

  // ----- Column encoding -----

  /** The column writer kinds `record` handles. */
  predicate Supported(kind: PhysicalType) {
    kind in {BOOLEAN, INT32, INT64, FLOAT, DOUBLE, BYTE_ARRAY}
  }

  /** The field variants each typed column writer accepts; `Null` goes to every one. */
  predicate Accepts(kind: PhysicalType, f: Field) {
    Supported(kind) &&
    match f
    case Null => true
    case Bool(_) => kind == BOOLEAN
    case Int(_) | UInt(_) => kind == INT32
    case Long(_) | ULong(_) => kind == INT64
    case Float(_) => kind == FLOAT
    case Double(_) => kind == DOUBLE
    case Str(_) => kind == BYTE_ARRAY
    case OtherField(_) => false
  }

  predicate ColumnAccepted(kind: PhysicalType, col: seq<Field>) {
    forall j :: 0 <= j < |col| ==> Accepts(kind, col[j])
  }

  /** One element of the typed value array passed to `write_batch`. */
  datatype Cell =
    | BoolCell(b: bool)
    | Int32Cell(i: i32)
    | Int64Cell(l: i64)
    | FloatCell(fbits: u32)
    | DoubleCell(dbits: u64)
    | ByteArrayCell(bytes: string)

  predicate CellOfKind(kind: PhysicalType, c: Cell) {
    match c
    case BoolCell(_) => kind == BOOLEAN
    case Int32Cell(_) => kind == INT32
    case Int64Cell(_) => kind == INT64
    case FloatCell(_) => kind == FLOAT
    case DoubleCell(_) => kind == DOUBLE
    case ByteArrayCell(_) => kind == BYTE_ARRAY
  }

  /** What one column writer receives: definition levels and the non-null values. */
  datatype ColumnChunk = ColumnChunk(defLevels: seq<int>, values: seq<Cell>)

  /** The conversion of an accepted non-null field: `UInt` as i32 and `ULong` as i64. */
  function ToCell(kind: PhysicalType, f: Field): (c: Cell)
    requires Accepts(kind, f) && !f.Null?
    ensures CellOfKind(kind, c)
  {
    match f
    case Bool(b) => BoolCell(b)
    case Int(i) => Int32Cell(i)
    case UInt(u) => Int32Cell(I32FromU32(u))
    case Long(l) => Int64Cell(l)
    case ULong(u) => Int64Cell(I64FromU64(u))
    case Float(x) => FloatCell(x)
    case Double(x) => DoubleCell(x)
    case Str(s) => ByteArrayCell(s)
  }

  /** `not_null`: 0 for a `Null` field, 1 otherwise. */
  function DefLevels(col: seq<Field>): seq<int>
    decreases |col|
  {
    if |col| == 0 then [] else [if col[0].Null? then 0 else 1] + DefLevels(col[1..])
  }

  const UNSUPPORTED_WRITER := "unsupported column writer type"

  function InvalidTypeMessage(kind: PhysicalType): string {
    match kind
    case BOOLEAN => "invalid type, expected bool"
    case INT32 => "invalid type, expected int32"
    case INT64 => "invalid type, expected int64"
    case FLOAT => "invalid type, expected float"
    case DOUBLE => "invalid type, expected double"
    case _ => "invalid type, expected byte array"
  }

  /** The per-field loop of one column writer arm: skip `Null`, convert an
      accepted field, stop at the first rejected one. */
  function EncodeFields(kind: PhysicalType, col: seq<Field>): Result<seq<Cell>, string>
    requires Supported(kind)
    decreases |col|
  {
    if |col| == 0 then Ok([])
    else if col[0].Null? then EncodeFields(kind, col[1..])
    else if !Accepts(kind, col[0]) then Err(InvalidTypeMessage(kind))
    else
      match EncodeFields(kind, col[1..])
      case Ok(rest) => Ok([ToCell(kind, col[0])] + rest)
      case Err(e) => Err(e)
  }

  /** The column writer arm chosen by the column's physical type. */
  function EncodeColumn(kind: PhysicalType, col: seq<Field>): Result<seq<Cell>, string> {
    if Supported(kind) then EncodeFields(kind, col) else Err(UNSUPPORTED_WRITER)
  }

  // ----- Reading a chunk back -----

  /** The fields a reader gets back from definition levels and values. */
  function Decode(defLevels: seq<int>, values: seq<Cell>): seq<Field>
    decreases |defLevels|
  {
    if |defLevels| == 0 then []
    else if defLevels[0] == 0 then [Null] + Decode(defLevels[1..], values)
    else if |values| == 0 then [Null] + Decode(defLevels[1..], values)
    else
      var c := values[0];
      var f := match c
        case BoolCell(b) => Bool(b)
        case Int32Cell(i) => Int(i)
        case Int64Cell(l) => Long(l)
        case FloatCell(x) => Float(x)
        case DoubleCell(x) => Double(x)
        case ByteArrayCell(s) => Str(s);
      [f] + Decode(defLevels[1..], values[1..])
  }

  /** A field as stored: unsigned variants become their signed reinterpretation. */
  function Normalize(f: Field): Field {
    match f
    case UInt(u) => Int(I32FromU32(u))
    case ULong(u) => Long(I64FromU64(u))
    case _ => f
  }

  function NormalizeAll(col: seq<Field>): (r: seq<Field>)
    ensures |r| == |col|
    ensures forall j :: 0 <= j < |col| ==> r[j] == Normalize(col[j])
  {
    seq(|col|, j requires 0 <= j < |col| => Normalize(col[j]))
  }

  function CountNonNull(col: seq<Field>): nat
    decreases |col|
  {
    if |col| == 0 then 0 else (if col[0].Null? then 0 else 1) + CountNonNull(col[1..])
  }

  lemma {:induction false} AcceptedCons(kind: PhysicalType, col: seq<Field>)
    requires |col| > 0
    ensures ColumnAccepted(kind, col) <==> Accepts(kind, col[0]) && ColumnAccepted(kind, col[1..])
  {
    if Accepts(kind, col[0]) && ColumnAccepted(kind, col[1..]) {
      forall j | 0 <= j < |col| ensures Accepts(kind, col[j]) {
        if j > 0 { assert col[j] == col[1..][j - 1]; }
      }
    }
  }

  /** A column encodes iff every field is accepted by its writer; otherwise the
      error names the writer's expected type. */
  lemma {:induction false} EncodeFieldsOkIff(kind: PhysicalType, col: seq<Field>)
    requires Supported(kind)
    ensures EncodeFields(kind, col).Ok? <==> ColumnAccepted(kind, col)
    ensures EncodeFields(kind, col).Err? ==> EncodeFields(kind, col).error == InvalidTypeMessage(kind)
    decreases |col|
  {
    if |col| > 0 {
      EncodeFieldsOkIff(kind, col[1..]);
      AcceptedCons(kind, col);
    }
  }

  /** One definition level per field: 0 for `Null`, 1 otherwise. */
  lemma {:induction false} DefLevelsMarkNulls(col: seq<Field>)
    ensures |DefLevels(col)| == |col|
    ensures forall j :: 0 <= j < |col| ==> DefLevels(col)[j] == if col[j].Null? then 0 else 1
    decreases |col|
  {
    if |col| > 0 {
      DefLevelsMarkNulls(col[1..]);
      forall j | 0 < j < |col|
        ensures DefLevels(col)[j] == if col[j].Null? then 0 else 1
      {
        assert DefLevels(col)[j] == DefLevels(col[1..])[j - 1];
        assert col[j] == col[1..][j - 1];
      }
    }
  }

  /** The value array holds one cell of the column's kind per non-null field. */
  lemma {:induction false} EncodeFieldsCells(kind: PhysicalType, col: seq<Field>)
    requires Supported(kind)
    requires EncodeFields(kind, col).Ok?
    ensures |EncodeFields(kind, col).value| == CountNonNull(col)
    ensures forall j :: 0 <= j < |EncodeFields(kind, col).value| ==> CellOfKind(kind, EncodeFields(kind, col).value[j])
    decreases |col|
  {
    if |col| > 0 {
      EncodeFieldsCells(kind, col[1..]);
    }
  }

  /** Reading a chunk back gives the column, with `UInt`/`ULong` fields
      reinterpreted as the signed values the writer stored. */
  lemma {:induction false} EncodeFieldsRoundTrip(kind: PhysicalType, col: seq<Field>)
    requires Supported(kind)
    requires EncodeFields(kind, col).Ok?
    ensures Decode(DefLevels(col), EncodeFields(kind, col).value) == NormalizeAll(col)
    decreases |col|
  {
    if |col| > 0 {
      EncodeFieldsRoundTrip(kind, col[1..]);
      var rest := EncodeFields(kind, col[1..]).value;
      assert NormalizeAll(col) == [Normalize(col[0])] + NormalizeAll(col[1..]);
      if !col[0].Null? {
        var r := EncodeFields(kind, col).value;
        assert r == [ToCell(kind, col[0])] + rest;
        assert r[1..] == rest;
      }
    }
  }

  // ----- record -----

  /** The debug assertion of `record`: at least one column, all of one length. */
  predicate Rectangular(columns: seq<seq<Field>>) {
    |columns| >= 1 && forall i :: 0 <= i < |columns| ==> |columns[i]| == |columns[0]|
  }

  /** The index of the first column, from `i` on, whose column writer fails;
      `|columns|` when none does. */
  function FirstFailing(columns: seq<seq<Field>>, kinds: seq<PhysicalType>, i: nat): (k: nat)
    requires |kinds| == |columns| && i <= |columns|
    ensures i <= k <= |columns|
    ensures forall j :: i <= j < k ==> EncodeColumn(kinds[j], columns[j]).Ok?
    ensures k < |columns| ==> EncodeColumn(kinds[k], columns[k]).Err?
    decreases |columns| - i
  {
    if i == |columns| || EncodeColumn(kinds[i], columns[i]).Err? then i
    else FirstFailing(columns, kinds, i + 1)
  }

  /** The outcome of `record`: rows written, the buffer afterwards, and the
      row group handed to the file writer. */
  datatype Recorded = Recorded(result: Result<nat, string>, after: RowBuffer, rowGroup: Option<seq<ColumnChunk>>)

  /** Columns before `k` emptied, the others as they were. */
  function ClearBefore(columns: seq<seq<Field>>, k: nat): (r: seq<seq<Field>>)
    ensures |r| == |columns|
    ensures forall i :: 0 <= i < |r| ==> r[i] == if i < k then [] else columns[i]
  {
    seq(|columns|, i requires 0 <= i < |columns| => if i < k then [] else columns[i])
  }

  /** Column-at-a-time reference for `record`: every column up to the first
      failing one is encoded and cleared; a failure discards the row group. */
  function RecordSpec(b: RowBuffer, kinds: seq<PhysicalType>): Recorded
    requires |kinds| == |b.columns|
  {
    if IsEmpty(b) then Recorded(Ok(0), b, None)
    else
      var k := FirstFailing(b.columns, kinds, 0);
      if k < |b.columns| then
        Recorded(Err(EncodeColumn(kinds[k], b.columns[k]).error), RowBuffer(ClearBefore(b.columns, k), b.currentCol), None)
      else
        Recorded(Ok(Len(b)), RowBuffer(ClearBefore(b.columns, k), b.currentCol),
          Some(seq(|b.columns|, i requires 0 <= i < |b.columns| =>
            ColumnChunk(DefLevels(b.columns[i]), EncodeColumn(kinds[i], b.columns[i]).value))))
  }

  /** What a successful `record` hands over: column `i` as its definition
      levels and exactly its non-null values, which read back as the column
      itself with unsigned values reinterpreted; and it succeeds exactly when
      every column's writer accepts every field of that column. */
  lemma {:induction false} RecordSpecCorrect(b: RowBuffer, kinds: seq<PhysicalType>)
    requires Rectangular(b.columns)
    requires |kinds| == |b.columns|
    ensures !IsEmpty(b) ==>
      (RecordSpec(b, kinds).result.Ok? <==> forall i :: 0 <= i < |b.columns| ==> ColumnAccepted(kinds[i], b.columns[i]))
    ensures RecordSpec(b, kinds).result.Ok? ==> RecordSpec(b, kinds).result.value == Len(b)
    ensures RecordSpec(b, kinds).result.Ok? && !IsEmpty(b) ==>
      && (forall i :: 0 <= i < |b.columns| ==> RecordSpec(b, kinds).after.columns[i] == [])
      && RecordSpec(b, kinds).rowGroup.Some? && |RecordSpec(b, kinds).rowGroup.value| == |b.columns|
      && (forall i :: 0 <= i < |b.columns| ==>
            && RecordSpec(b, kinds).rowGroup.value[i].defLevels == DefLevels(b.columns[i])
            && |RecordSpec(b, kinds).rowGroup.value[i].values| == CountNonNull(b.columns[i])
            && Decode(RecordSpec(b, kinds).rowGroup.value[i].defLevels, RecordSpec(b, kinds).rowGroup.value[i].values)
                 == NormalizeAll(b.columns[i]))
  {
    if !IsEmpty(b) {
      var k := FirstFailing(b.columns, kinds, 0);
      forall i | 0 <= i < |b.columns| && Supported(kinds[i])
        ensures EncodeColumn(kinds[i], b.columns[i]).Ok? <==> ColumnAccepted(kinds[i], b.columns[i])
      {
        EncodeFieldsOkIff(kinds[i], b.columns[i]);
      }
      forall i | 0 <= i < |b.columns| && !Supported(kinds[i])
        ensures !ColumnAccepted(kinds[i], b.columns[i])
      {
        assert !Accepts(kinds[i], b.columns[i][0]);
      }
      if k == |b.columns| {
        forall i | 0 <= i < |b.columns|
          ensures |EncodeColumn(kinds[i], b.columns[i]).value| == CountNonNull(b.columns[i])
          ensures Decode(DefLevels(b.columns[i]), EncodeColumn(kinds[i], b.columns[i]).value) == NormalizeAll(b.columns[i])
        {
          EncodeFieldsCells(kinds[i], b.columns[i]);
          EncodeFieldsRoundTrip(kinds[i], b.columns[i]);
        }
      }
    }
  }

  /** A failing `record` stops at the first column whose writer rejects it:
      the columns before it were accepted and are emptied, it and the later
      ones are left as they were, and no row group is completed. */
  lemma {:induction false} RecordSpecStops(b: RowBuffer, kinds: seq<PhysicalType>)
    requires Rectangular(b.columns)
    requires |kinds| == |b.columns|
    ensures RecordSpec(b, kinds).result.Err? ==> RecordSpec(b, kinds).rowGroup.None?
    ensures RecordSpec(b, kinds).result.Err? ==>
      exists k :: 0 <= k < |b.columns| && !ColumnAccepted(kinds[k], b.columns[k])
        && (forall i :: 0 <= i < k ==> ColumnAccepted(kinds[i], b.columns[i]) && RecordSpec(b, kinds).after.columns[i] == [])
        && (forall i :: k <= i < |b.columns| ==> RecordSpec(b, kinds).after.columns[i] == b.columns[i])
  {
    if RecordSpec(b, kinds).result.Err? {
      var k := FirstFailing(b.columns, kinds, 0);
      forall i | 0 <= i <= k
        ensures EncodeColumn(kinds[i], b.columns[i]).Ok? <==> ColumnAccepted(kinds[i], b.columns[i])
      {
        if Supported(kinds[i]) {
          EncodeFieldsOkIff(kinds[i], b.columns[i]);
        } else {
          assert !Accepts(kinds[i], b.columns[i][0]);
        }
      }
    }
  }

  /** `record(writer)`. `kinds` are the physical types of the columns of the
      file writer's schema. Returns the number of rows written, the buffer
      afterwards and the row group handed to the file writer (`None` when no
      row group is completed). On success every column is emptied; on the
      first column whose writer rejects a field the call stops, leaving the
      columns already written emptied and the others untouched. */
  method Record(b: RowBuffer, kinds: seq<PhysicalType>)
    returns (result: Result<nat, string>, after: RowBuffer, rowGroup: Option<seq<ColumnChunk>>)
    requires b.currentCol == |b.columns|
    requires Rectangular(b.columns)
    requires |kinds| == |b.columns|
    ensures after.currentCol == b.currentCol && |after.columns| == |b.columns|
    ensures IsEmpty(b) ==> result == Ok(0) && after == b && rowGroup == None
    ensures !IsEmpty(b) ==>
      (result.Ok? <==> forall i :: 0 <= i < |b.columns| ==> ColumnAccepted(kinds[i], b.columns[i]))
    ensures result.Ok? ==> result.value == Len(b)
    ensures result.Ok? && !IsEmpty(b) ==>
      && (forall i :: 0 <= i < |after.columns| ==> after.columns[i] == [])
      && rowGroup.Some? && |rowGroup.value| == |b.columns|
      && (forall i :: 0 <= i < |b.columns| ==>
            && rowGroup.value[i].defLevels == DefLevels(b.columns[i])
            && |rowGroup.value[i].values| == CountNonNull(b.columns[i])
            && Decode(rowGroup.value[i].defLevels, rowGroup.value[i].values) == NormalizeAll(b.columns[i]))
    ensures result.Err? ==> rowGroup.None?
    ensures result.Err? ==>
      exists k :: 0 <= k < |b.columns| && !ColumnAccepted(kinds[k], b.columns[k])
        && (forall i :: 0 <= i < k ==> ColumnAccepted(kinds[i], b.columns[i]) && after.columns[i] == [])
        && (forall i :: k <= i < |b.columns| ==> after.columns[i] == b.columns[i])
    ensures Recorded(result, after, rowGroup) == RecordSpec(b, kinds)
  {
    result, after, rowGroup := WriteColumns(b, kinds);
    RecordSpecCorrect(b, kinds);
    RecordSpecStops(b, kinds);
  }

  /** The column loop of `record`, step for step the column-at-a-time reference. */
  method WriteColumns(b: RowBuffer, kinds: seq<PhysicalType>)
    returns (result: Result<nat, string>, after: RowBuffer, rowGroup: Option<seq<ColumnChunk>>)
    requires |kinds| == |b.columns|
    ensures Recorded(result, after, rowGroup) == RecordSpec(b, kinds)
  {
    var size := Len(b);
    if size == 0 {
      return Ok(0), b, None;
    }
    var cols := b.columns;
    var chunks: seq<ColumnChunk> := [];
    var i := 0;
    while i < |cols|
      invariant 0 <= i <= |cols| && |cols| == |b.columns|
      invariant forall k :: 0 <= k < i ==> cols[k] == []
      invariant forall k :: i <= k < |cols| ==> cols[k] == b.columns[k]
      invariant |chunks| == i
      invariant forall k :: 0 <= k < i ==> EncodeColumn(kinds[k], b.columns[k]).Ok?
      invariant forall k :: 0 <= k < i ==>
        chunks[k] == ColumnChunk(DefLevels(b.columns[k]), EncodeColumn(kinds[k], b.columns[k]).value)
      invariant FirstFailing(b.columns, kinds, 0) == FirstFailing(b.columns, kinds, i)
    {
      var encoded := EncodeColumn(kinds[i], cols[i]);
      if encoded.Err? {
        assert cols == ClearBefore(b.columns, i);
        return Err(encoded.error), RowBuffer(cols, b.currentCol), None;
      }
      chunks := chunks + [ColumnChunk(DefLevels(cols[i]), encoded.value)];
      cols := cols[i := []];
      i := i + 1;
    }
    assert cols == ClearBefore(b.columns, i);
    assert chunks == seq(|b.columns|, k requires 0 <= k < |b.columns| =>
      ColumnChunk(DefLevels(b.columns[k]), EncodeColumn(kinds[k], b.columns[k]).value));
    return Ok(size), RowBuffer(cols, b.currentCol), Some(chunks);
  }
}
