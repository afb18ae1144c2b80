/** How the columns of composite types are laid out: pairs, fixed arrays,
    derived structs, tuple structs and enums, and the one-column table of
    the leaf types. */
module SchemaLayout {
  import opened Wrappers
  import opened ParquetTypes
  import opened Digits
  import opened DeriveAttrs
  import opened Persistable
  import opened Row
  import opened SchemaProperties

  function Flatten<T>(ss: seq<seq<T>>): seq<T>
    decreases |ss|
  {
    if |ss| == 0 then [] else ss[0] + Flatten(ss[1..])
  }

  // ----- Leaves -----

  predicate IsLeaf(t: TypeDesc) {
    t.Prim? || t.StringLike? || t.Collection? || t.DurationType? || t.DateTimeType? || t.DecimalType?
  }

  /** The physical type of each leaf type. */
  function LeafPhysical(t: TypeDesc): PhysicalType
    requires IsLeaf(t)
  {
    match t
    case Prim(PBool) => BOOLEAN
    case Prim(PInt(I16)) => INT32
    case Prim(PInt(U16)) => INT32
    case Prim(PInt(I32)) => INT32
    case Prim(PInt(U32)) => INT32
    case Prim(PInt(I64)) => INT64
    case Prim(PInt(U64)) => INT64
    case Prim(PInt(Isize)) => INT64
    case Prim(PInt(Usize)) => INT64
    case Prim(PF32) => FLOAT
    case Prim(PF64) => DOUBLE
    case StringLike(_) => BYTE_ARRAY
    case Collection(_) => BYTE_ARRAY
    case DurationType => INT64
    case DateTimeType => INT64
    case DecimalType => DOUBLE
  }

  /** The physical type table: every leaf type is one column named by the
      prefix (`<prefix>_ns` for `Duration`), REQUIRED unless overridden.
      Primitives and `Duration` carry the caller's logical type; strings,
      collections and `Decimal` are tagged STRING and `DateTime` is a UTC
      nanosecond timestamp, whatever the caller passed. */
  lemma {:induction false} LeafColumn(t: TypeDesc, name: string, rep: Option<Repetition>, logical: Option<LogicalType>)
    requires IsLeaf(t)
    ensures Schema(t, Some(name), rep, logical) == Ok([Column(
      if t.DurationType? then name + "_ns" else name,
      LeafPhysical(t),
      rep.GetOr(REQUIRED),
      if t.Prim? || t.DurationType? then logical
      else if t.DateTimeType? then Some(Timestamp(true, NANOS))
      else Some(StringType))])
  {
  }

  /** Leaf schemas need a name: without a prefix they panic. */
  lemma {:induction false} LeafNeedsName(t: TypeDesc, rep: Option<Repetition>, logical: Option<LogicalType>)
    requires IsLeaf(t)
    ensures Schema(t, None, rep, logical) == Err(NAME_MUST_BE_SET)
  {
  }

  /** A `DateTime` is stored as its nanoseconds since the epoch, 0 when those do
      not fit in an i64; the `as u64` of `append` and the `as i64` of the
      INT64 column writer cancel, so instants before the epoch keep their
      negative count. */
  lemma {:induction false} DateTimeStoredAsNanos(nanos: Option<i64>)
    ensures Accepts(INT64, Append(DateTimeType, DateTimeV(nanos))[0])
    ensures Normalize(Append(DateTimeType, DateTimeV(nanos))[0]) == Long(nanos.GetOr(0))
  {
    I64RoundTrip(nanos.GetOr(0));
  }

  /** A `Duration` is stored as its nanosecond count cast to 64 bits: exact
      below 2^64, otherwise the low 64 bits. */
  lemma {:induction false} DurationStoredAsNanos(secs: u64, subsecNanos: nat)
    requires subsecNanos < NANOS_PER_SEC
    ensures Append(DurationType, DurationV(secs, subsecNanos)) == [ULong(DurationNanos(secs, subsecNanos))]
    ensures secs * NANOS_PER_SEC + subsecNanos < TWO_64 ==>
      DurationNanos(secs, subsecNanos) == secs * NANOS_PER_SEC + subsecNanos
    ensures (secs * NANOS_PER_SEC + subsecNanos - DurationNanos(secs, subsecNanos)) % TWO_64 == 0
  {
  }

  // ----- Pairs -----

  function Suffixed(prefix: Option<string>, suffix: string): Option<string> {
    if prefix.None? then None else Some(prefix.value + suffix)
  }

  /** A pair lays out the first component's columns under `p_0`, then the
      second's under `p_1` (both unprefixed with no prefix), and appends `.0`
      then `.1`, so field `i` sits beside column `i` of its own component. */
  lemma {:induction false} PairLayout(a: TypeDesc, b: TypeDesc, va: Value, vb: Value, prefix: Option<string>, rep: Option<Repetition>, logical: Option<LogicalType>)
    requires WellTyped(a, va) && WellTyped(b, vb)
    requires Schema(PairOf(a, b), prefix, rep, logical).Ok?
    ensures Schema(a, Suffixed(prefix, "_0"), rep, logical).Ok? && Schema(b, Suffixed(prefix, "_1"), rep, logical).Ok?
    ensures |Schema(a, Suffixed(prefix, "_0"), rep, logical).value| == |Append(a, va)| == Width(a)
    ensures |Schema(b, Suffixed(prefix, "_1"), rep, logical).value| == |Append(b, vb)| == Width(b)
    ensures
      var cols := Schema(PairOf(a, b), prefix, rep, logical).value;
      var fields := Append(PairOf(a, b), PairV(va, vb));
      var colsA := Schema(a, Suffixed(prefix, "_0"), rep, logical).value;
      var colsB := Schema(b, Suffixed(prefix, "_1"), rep, logical).value;
      && |cols| == |fields| == Width(a) + Width(b)
      && (forall i :: 0 <= i < Width(a) ==> cols[i] == colsA[i] && fields[i] == Append(a, va)[i])
      && (forall i :: Width(a) <= i < |cols| ==>
            cols[i] == colsB[i - Width(a)] && fields[i] == Append(b, vb)[i - Width(a)])
  {
    PairParts(a, b, va, vb, prefix, rep, logical);
    SideBySide(Schema(PairOf(a, b), prefix, rep, logical).value, Append(PairOf(a, b), PairV(va, vb)),
               Schema(a, Suffixed(prefix, "_0"), rep, logical).value, Schema(b, Suffixed(prefix, "_1"), rep, logical).value,
               Append(a, va), Append(b, vb), Width(a), Width(b));
  }

  /** Two column blocks laid next to their two field blocks. */
  lemma {:induction false} SideBySide(cols: seq<Column>, fields: seq<Field>, colsA: seq<Column>, colsB: seq<Column>,
                   fa: seq<Field>, fb: seq<Field>, wa: nat, wb: nat)
    requires cols == colsA + colsB && fields == fa + fb
    requires |colsA| == |fa| == wa && |colsB| == |fb| == wb
    ensures |cols| == |fields| == wa + wb
    ensures forall i :: 0 <= i < wa ==> cols[i] == colsA[i] && fields[i] == fa[i]
    ensures forall i :: wa <= i < |cols| ==> cols[i] == colsB[i - wa] && fields[i] == fb[i - wa]
  {
  }

  /** A pair's columns and fields are its first component's, then its second's. */
  lemma {:induction false} PairParts(a: TypeDesc, b: TypeDesc, va: Value, vb: Value, prefix: Option<string>, rep: Option<Repetition>, logical: Option<LogicalType>)
    requires WellTyped(a, va) && WellTyped(b, vb)
    requires Schema(PairOf(a, b), prefix, rep, logical).Ok?
    ensures Schema(a, Suffixed(prefix, "_0"), rep, logical).Ok? && Schema(b, Suffixed(prefix, "_1"), rep, logical).Ok?
    ensures |Schema(a, Suffixed(prefix, "_0"), rep, logical).value| == |Append(a, va)| == Width(a)
    ensures |Schema(b, Suffixed(prefix, "_1"), rep, logical).value| == |Append(b, vb)| == Width(b)
    ensures Schema(PairOf(a, b), prefix, rep, logical)
      == Ok(Schema(a, Suffixed(prefix, "_0"), rep, logical).value + Schema(b, Suffixed(prefix, "_1"), rep, logical).value)
    ensures Append(PairOf(a, b), PairV(va, vb)) == Append(a, va) + Append(b, vb)
  {
    SchemaShape(a, Suffixed(prefix, "_0"), rep, logical);
    SchemaShape(b, Suffixed(prefix, "_1"), rep, logical);
    AppendWidth(a, va);
    AppendWidth(b, vb);
    PairSchemaSplit(a, b, prefix, rep, logical);
  }

  /** A pair's columns are its first component's, then its second's. */
  lemma {:induction false} PairSchemaSplit(a: TypeDesc, b: TypeDesc, prefix: Option<string>, rep: Option<Repetition>, logical: Option<LogicalType>)
    requires Schema(a, Suffixed(prefix, "_0"), rep, logical).Ok? && Schema(b, Suffixed(prefix, "_1"), rep, logical).Ok?
    ensures Schema(PairOf(a, b), prefix, rep, logical)
      == Ok(Schema(a, Suffixed(prefix, "_0"), rep, logical).value + Schema(b, Suffixed(prefix, "_1"), rep, logical).value)
  {
  }

  // ----- Fixed arrays -----

  function ElementName(prefix: Option<string>, i: nat): Option<string> {
    Some(JoinName(prefix, NatToString(i)))
  }

  /** The columns of element `i` of an array. */
  function ElementColumns(e: TypeDesc, i: nat, prefix: Option<string>, rep: Option<Repetition>, logical: Option<LogicalType>): seq<Column> {
    SchemaShape(e, ElementName(prefix, i), rep, logical);
    Schema(e, ElementName(prefix, i), rep, logical).value
  }

  /** In a concatenation of blocks that all have length `w`, position
      `i * w + m` is position `m` of block `i`. */
  lemma {:induction false} FlattenIndex<T>(ss: seq<seq<T>>, w: nat, i: nat, m: nat)
    requires forall k :: 0 <= k < |ss| ==> |ss[k]| == w
    requires i < |ss| && m < w
    ensures |Flatten(ss)| == |ss| * w
    ensures i * w + m < |Flatten(ss)|
    ensures Flatten(ss)[i * w + m] == ss[i][m]
    decreases |ss|
  {
    FlattenLength(ss, w);
    if i > 0 {
      FlattenIndex(ss[1..], w, i - 1, m);
      assert i * w == w + (i - 1) * w;
    }
  }

  lemma {:induction false} FlattenLength<T>(ss: seq<seq<T>>, w: nat)
    requires forall k :: 0 <= k < |ss| ==> |ss[k]| == w
    ensures |Flatten(ss)| == |ss| * w
    decreases |ss|
  {
    if |ss| > 0 {
      FlattenLength(ss[1..], w);
      assert |ss| * w == w + (|ss| - 1) * w;
    }
  }

  lemma {:induction false} ArraySchemaFlat(e: TypeDesc, n: nat, i0: nat, prefix: Option<string>, rep: Option<Repetition>, logical: Option<LogicalType>)
    requires i0 <= n
    ensures ArraySchema(e, n, i0, prefix, rep, logical)
      == Ok(Flatten(seq(n - i0, k requires 0 <= k < n - i0 => ElementColumns(e, i0 + k, prefix, rep, logical))))
    decreases n - i0
  {
    if i0 < n {
      ArraySchemaFlat(e, n, i0 + 1, prefix, rep, logical);
      ArrayFlatStep(e, n, i0, prefix, rep, logical);
    }
  }

  /** One element in front of the flattened later elements. */
  lemma {:induction false} ArrayFlatStep(e: TypeDesc, n: nat, i0: nat, prefix: Option<string>, rep: Option<Repetition>, logical: Option<LogicalType>)
    requires i0 < n
    requires ArraySchema(e, n, i0 + 1, prefix, rep, logical)
      == Ok(Flatten(seq(n - (i0 + 1), k requires 0 <= k < n - (i0 + 1) => ElementColumns(e, i0 + 1 + k, prefix, rep, logical))))
    ensures ArraySchema(e, n, i0, prefix, rep, logical)
      == Ok(Flatten(seq(n - i0, k requires 0 <= k < n - i0 => ElementColumns(e, i0 + k, prefix, rep, logical))))
  {
    var blocks := seq(n - i0, k requires 0 <= k < n - i0 => ElementColumns(e, i0 + k, prefix, rep, logical));
    assert blocks[1..] == seq(n - (i0 + 1), k requires 0 <= k < n - (i0 + 1) => ElementColumns(e, i0 + 1 + k, prefix, rep, logical));
    ArraySchemaStep(e, n, i0, prefix, rep, logical);
    FlatStep(ArraySchema(e, n, i0, prefix, rep, logical), ArraySchema(e, n, i0 + 1, prefix, rep, logical), blocks);
  }

  lemma {:induction false} ArraySchemaStep(e: TypeDesc, n: nat, i0: nat, prefix: Option<string>, rep: Option<Repetition>, logical: Option<LogicalType>)
    requires i0 < n
    ensures ArraySchema(e, n, i0, prefix, rep, logical).Ok?
    ensures ArraySchema(e, n, i0, prefix, rep, logical).value
      == ElementColumns(e, i0, prefix, rep, logical) + ArraySchema(e, n, i0 + 1, prefix, rep, logical).value
  {
    SchemaShape(e, ElementName(prefix, i0), rep, logical);
    ArraySchemaShape(e, n, i0 + 1, prefix, rep, logical);
  }

  lemma {:induction false} ArrayAppendFlat(e: TypeDesc, vs: seq<Value>)
    requires forall k :: 0 <= k < |vs| ==> WellTyped(e, vs[k])
    ensures ArrayAppend(e, vs) == Flatten(seq(|vs|, k requires 0 <= k < |vs| => Append(e, vs[k])))
    decreases |vs|
  {
    var blocks := seq(|vs|, k requires 0 <= k < |vs| => Append(e, vs[k]));
    if |vs| > 0 {
      ArrayAppendFlat(e, vs[1..]);
      assert blocks[1..] == seq(|vs[1..]|, k requires 0 <= k < |vs[1..]| => Append(e, vs[1..][k]));
      assert Flatten(blocks) == blocks[0] + Flatten(blocks[1..]);
    }
  }

  lemma {:induction false} ArrayColumnAt(e: TypeDesc, n: nat, prefix: Option<string>, rep: Option<Repetition>, logical: Option<LogicalType>, i: nat, m: nat)
    requires i < n && m < Width(e)
    ensures ArraySchema(e, n, 0, prefix, rep, logical).Ok?
    ensures |ArraySchema(e, n, 0, prefix, rep, logical).value| == n * Width(e)
    ensures |ElementColumns(e, i, prefix, rep, logical)| == Width(e)
    ensures i * Width(e) + m < n * Width(e)
    ensures ArraySchema(e, n, 0, prefix, rep, logical).value[i * Width(e) + m] == ElementColumns(e, i, prefix, rep, logical)[m]
  {
    ArraySchemaFlat(e, n, 0, prefix, rep, logical);
    var blocks := seq(n - 0, k requires 0 <= k < n - 0 => ElementColumns(e, 0 + k, prefix, rep, logical));
    forall k | 0 <= k < n ensures |blocks[k]| == Width(e) {
      SchemaShape(e, ElementName(prefix, k), rep, logical);
    }
    FlattenIndex(blocks, Width(e), i, m);
  }

  lemma {:induction false} ArrayFieldAt(e: TypeDesc, vs: seq<Value>, i: nat, m: nat)
    requires forall k :: 0 <= k < |vs| ==> WellTyped(e, vs[k])
    requires i < |vs| && m < Width(e)
    ensures |ArrayAppend(e, vs)| == |vs| * Width(e)
    ensures |Append(e, vs[i])| == Width(e)
    ensures i * Width(e) + m < |vs| * Width(e)
    ensures ArrayAppend(e, vs)[i * Width(e) + m] == Append(e, vs[i])[m]
  {
    ArrayAppendFlat(e, vs);
    var blocks := seq(|vs|, k requires 0 <= k < |vs| => Append(e, vs[k]));
    forall k | 0 <= k < |vs| ensures |blocks[k]| == Width(e) {
      AppendWidth(e, vs[k]);
    }
    FlattenIndex(blocks, Width(e), i, m);
  }

  /** `[T; n]` is n copies of `T`'s columns, copy `i` named `p_i` (or `i`),
      and its elements are appended in index order: column `i * Width(T) + m`
      is column `m` of element `i`, and so is the field pushed there. */
  lemma {:induction false} ArrayLayout(e: TypeDesc, n: ArrayLen, vs: seq<Value>, prefix: Option<string>, rep: Option<Repetition>, logical: Option<LogicalType>, i: nat, m: nat)
    requires WellTyped(ArrayOf(e, n), ArrayV(vs))
    requires i < n && m < Width(e)
    ensures Schema(ArrayOf(e, n), prefix, rep, logical).Ok?
    ensures |Schema(ArrayOf(e, n), prefix, rep, logical).value| == |Append(ArrayOf(e, n), ArrayV(vs))| == n * Width(e)
    ensures |ElementColumns(e, i, prefix, rep, logical)| == |Append(e, vs[i])| == Width(e)
    ensures i * Width(e) + m < n * Width(e)
    ensures Schema(ArrayOf(e, n), prefix, rep, logical).value[i * Width(e) + m] == ElementColumns(e, i, prefix, rep, logical)[m]
    ensures Append(ArrayOf(e, n), ArrayV(vs))[i * Width(e) + m] == Append(e, vs[i])[m]
  {
    assert Schema(ArrayOf(e, n), prefix, rep, logical) == ArraySchema(e, n, 0, prefix, rep, logical);
    assert Append(ArrayOf(e, n), ArrayV(vs)) == ArrayAppend(e, vs);
    ArrayColumnAt(e, n, prefix, rep, logical, i, m);
    ArrayFieldAt(e, vs, i, m);
  }

  // ----- Derived named structs -----

  /** The columns one named field contributes: none when ignored. */
  function FieldColumns(f: FieldDecl, prefix: Option<string>, rep: Option<Repetition>): seq<Column> {
    if IsIgnored(f) then []
    else
      SchemaShape(f.ty, Some(JoinName(prefix, f.name)), rep, FieldLogicalType(f.attrs));
      Schema(f.ty, Some(JoinName(prefix, f.name)), rep, FieldLogicalType(f.attrs)).value
  }

  /** The fields one named field pushes: none when ignored. */
  function FieldValues(f: FieldDecl, v: Value): seq<Field>
    requires IsIgnored(f) || WellTyped(f.ty, v)
  {
    if IsIgnored(f) then [] else Append(f.ty, v)
  }

  lemma {:induction false} StructSchemaFlat(fs: seq<FieldDecl>, prefix: Option<string>, rep: Option<Repetition>)
    ensures StructSchema(fs, prefix, rep)
      == Ok(Flatten(seq(|fs|, i requires 0 <= i < |fs| => FieldColumns(fs[i], prefix, rep))))
    decreases fs
  {
    var blocks := seq(|fs|, i requires 0 <= i < |fs| => FieldColumns(fs[i], prefix, rep));
    if |fs| > 0 {
      StructSchemaFlat(fs[1..], prefix, rep);
      assert blocks[1..] == seq(|fs[1..]|, i requires 0 <= i < |fs[1..]| => FieldColumns(fs[1..][i], prefix, rep));
      assert Flatten(blocks) == blocks[0] + Flatten(blocks[1..]);
      if !IsIgnored(fs[0]) {
        SchemaShape(fs[0].ty, Some(JoinName(prefix, fs[0].name)), rep, FieldLogicalType(fs[0].attrs));
        assert blocks[0] == Schema(fs[0].ty, Some(JoinName(prefix, fs[0].name)), rep, FieldLogicalType(fs[0].attrs)).value;
      } else {
        assert blocks[0] == [];
        assert StructSchema(fs, prefix, rep) == StructSchema(fs[1..], prefix, rep);
        assert Flatten(blocks) == Flatten(blocks[1..]);
      }
    }
  }

  lemma {:induction false} StructAppendFlat(fs: seq<FieldDecl>, vs: seq<Value>)
    requires |vs| == |fs|
    requires forall k :: 0 <= k < |fs| ==> IsIgnored(fs[k]) || WellTyped(fs[k].ty, vs[k])
    ensures StructAppend(fs, vs) == Flatten(seq(|fs|, i requires 0 <= i < |fs| => FieldValues(fs[i], vs[i])))
    decreases fs
  {
    var blocks := seq(|fs|, i requires 0 <= i < |fs| => FieldValues(fs[i], vs[i]));
    if |fs| > 0 {
      StructAppendFlat(fs[1..], vs[1..]);
      assert blocks[1..] == seq(|fs[1..]|, i requires 0 <= i < |fs[1..]| => FieldValues(fs[1..][i], vs[1..][i]));
      assert Flatten(blocks) == blocks[0] + Flatten(blocks[1..]);
    }
  }

  /** A derived named struct: in declaration order, each field contributes
      the columns of its type under `p_f` (or `f`) with only its own timestamp
      attribute as logical type, and pushes its own value's fields; an ignored
      field contributes neither; each field's block of columns is as long as
      its block of values; the struct's incoming logical type is not used. */
  lemma {:induction false} NamedStructLayout(name: string, fs: seq<FieldDecl>, vs: seq<Value>, prefix: Option<string>, rep: Option<Repetition>, logical: Option<LogicalType>)
    requires WellTyped(NamedStruct(name, fs), StructV(vs))
    ensures Schema(NamedStruct(name, fs), prefix, rep, logical)
      == Ok(Flatten(seq(|fs|, i requires 0 <= i < |fs| => FieldColumns(fs[i], prefix, rep))))
    ensures Append(NamedStruct(name, fs), StructV(vs))
      == Flatten(seq(|fs|, i requires 0 <= i < |fs| => FieldValues(fs[i], vs[i])))
    ensures forall i :: 0 <= i < |fs| ==> |FieldColumns(fs[i], prefix, rep)| == |FieldValues(fs[i], vs[i])|
    ensures forall i :: 0 <= i < |fs| && IsIgnored(fs[i]) ==> FieldColumns(fs[i], prefix, rep) == [] && FieldValues(fs[i], vs[i]) == []
  {
    StructSchemaFlat(fs, prefix, rep);
    StructAppendFlat(fs, vs);
    forall i | 0 <= i < |fs| && !IsIgnored(fs[i])
      ensures |FieldColumns(fs[i], prefix, rep)| == |FieldValues(fs[i], vs[i])|
    {
      SchemaShape(fs[i].ty, Some(JoinName(prefix, fs[i].name)), rep, FieldLogicalType(fs[i].attrs));
      AppendWidth(fs[i].ty, vs[i]);
    }
  }

  // ----- Derived tuple structs -----

  function ElemColumns(e: TupleFieldDecl, i: nat, prefix: Option<string>, rep: Option<Repetition>): seq<Column> {
    SchemaShape(e.ty, ElementName(prefix, i), rep, FieldLogicalType(e.attrs));
    Schema(e.ty, ElementName(prefix, i), rep, FieldLogicalType(e.attrs)).value
  }

  lemma {:induction false} TupleSchemaFlat(es: seq<TupleFieldDecl>, start: nat, prefix: Option<string>, rep: Option<Repetition>)
    ensures TupleSchema(es, start, prefix, rep)
      == Ok(Flatten(seq(|es|, i requires 0 <= i < |es| => ElemColumns(es[i], start + i, prefix, rep))))
    decreases es
  {
    var blocks := seq(|es|, i requires 0 <= i < |es| => ElemColumns(es[i], start + i, prefix, rep));
    if |es| > 0 {
      TupleSchemaFlat(es[1..], start + 1, prefix, rep);
      TupleBlocksTail(es, start, prefix, rep);
      TupleSchemaStep(es, start, prefix, rep);
      FlatStep(TupleSchema(es, start, prefix, rep), TupleSchema(es[1..], start + 1, prefix, rep), blocks);
    }
  }

  /** A schema made of a first block and the flattened rest is the flattened whole. */
  lemma {:induction false} FlatStep(whole: SchemaResult, rest: SchemaResult, blocks: seq<seq<Column>>)
    requires |blocks| > 0 && whole.Ok? && rest == Ok(Flatten(blocks[1..]))
    requires whole.value == blocks[0] + rest.value
    ensures whole == Ok(Flatten(blocks))
  {
  }

  /** Dropping the first field shifts the positional blocks by one. */
  lemma {:induction false} TupleBlocksTail(es: seq<TupleFieldDecl>, start: nat, prefix: Option<string>, rep: Option<Repetition>)
    requires |es| > 0
    ensures seq(|es|, i requires 0 <= i < |es| => ElemColumns(es[i], start + i, prefix, rep))[1..]
      == seq(|es[1..]|, i requires 0 <= i < |es[1..]| => ElemColumns(es[1..][i], start + 1 + i, prefix, rep))
  {
  }

  lemma {:induction false} TupleSchemaStep(es: seq<TupleFieldDecl>, start: nat, prefix: Option<string>, rep: Option<Repetition>)
    requires |es| > 0
    ensures TupleSchema(es, start, prefix, rep).Ok?
    ensures TupleSchema(es, start, prefix, rep).value
      == ElemColumns(es[0], start, prefix, rep) + TupleSchema(es[1..], start + 1, prefix, rep).value
  {
    SchemaShape(es[0].ty, ElementName(prefix, start), rep, FieldLogicalType(es[0].attrs));
    TupleSchemaShape(es[1..], start + 1, prefix, rep);
  }

  lemma {:induction false} TupleAppendFlat(es: seq<TupleFieldDecl>, vs: seq<Value>)
    requires |vs| == |es|
    requires forall k :: 0 <= k < |es| ==> WellTyped(es[k].ty, vs[k])
    ensures TupleAppend(es, vs) == Flatten(seq(|es|, i requires 0 <= i < |es| => Append(es[i].ty, vs[i])))
    decreases es
  {
    var blocks := seq(|es|, i requires 0 <= i < |es| => Append(es[i].ty, vs[i]));
    if |es| > 0 {
      TupleAppendFlat(es[1..], vs[1..]);
      assert blocks[1..] == seq(|es[1..]|, i requires 0 <= i < |es[1..]| => Append(es[1..][i].ty, vs[1..][i]));
      assert Flatten(blocks) == blocks[0] + Flatten(blocks[1..]);
    }
  }

  /** A derived tuple struct: field `i` contributes its type's columns under
      `p_i` (or `i`) with its own timestamp attribute as logical type, and
      every field is appended, in index order; the ignore attribute plays no
      part. */
  lemma {:induction false} TupleStructLayout(name: string, es: seq<TupleFieldDecl>, vs: seq<Value>, prefix: Option<string>, rep: Option<Repetition>, logical: Option<LogicalType>)
    requires WellTyped(TupleStruct(name, es), StructV(vs))
    ensures Schema(TupleStruct(name, es), prefix, rep, logical)
      == Ok(Flatten(seq(|es|, i requires 0 <= i < |es| => ElemColumns(es[i], i, prefix, rep))))
    ensures Append(TupleStruct(name, es), StructV(vs))
      == Flatten(seq(|es|, i requires 0 <= i < |es| => Append(es[i].ty, vs[i])))
    ensures forall i :: 0 <= i < |es| ==> |ElemColumns(es[i], i, prefix, rep)| == |Append(es[i].ty, vs[i])|
  {
    TupleSchemaFlat(es, 0, prefix, rep);
    assert seq(|es|, i requires 0 <= i < |es| => ElemColumns(es[i], 0 + i, prefix, rep))
      == seq(|es|, i requires 0 <= i < |es| => ElemColumns(es[i], i, prefix, rep));
    TupleAppendFlat(es, vs);
    forall i | 0 <= i < |es|
      ensures |ElemColumns(es[i], i, prefix, rep)| == |Append(es[i].ty, vs[i])|
    {
      SchemaShape(es[i].ty, ElementName(prefix, i), rep, FieldLogicalType(es[i].attrs));
      AppendWidth(es[i].ty, vs[i]);
    }
  }

  // ----- Derived enums -----

  /** A derived enum is one STRING byte-array column named by the prefix, or by
      the enum's own name without one; it pushes the variant's name and
      nothing of the payload. */
  lemma {:induction false} EnumLayout(name: string, variants: seq<VariantDecl>, v: Value, payload: seq<Value>, prefix: Option<string>, rep: Option<Repetition>, logical: Option<LogicalType>)
    requires WellTyped(Enum(name, variants), v)
    ensures Schema(Enum(name, variants), prefix, rep, logical)
      == Ok([Column(if prefix.Some? then prefix.value else name, BYTE_ARRAY, rep.GetOr(REQUIRED), Some(StringType))])
    ensures WellTyped(Enum(name, variants), EnumV(v.variant, payload))
    ensures Append(Enum(name, variants), v) == Append(Enum(name, variants), EnumV(v.variant, payload)) == [Str(v.variant)]
  {
  }
}
