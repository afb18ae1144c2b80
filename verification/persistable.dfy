/** The `Persistable` mapping from Rust types to Parquet columns and from
    values to row fields: the built-in implementations for primitives,
    strings, collections, `Option`, pairs, fixed arrays, `Duration`,
    `DateTime` and `Decimal`, and what the `Persist` derive generates for
    structs, tuple structs and enums. A Rust type is described by a
    `TypeDesc`; `Schema` is the trait's `schema` and `Append` its `append`. */
module Persistable {
  import opened Wrappers
  import opened ParquetTypes
  import opened Digits
  import opened DeriveAttrs

  // ----- Type descriptors -----

  datatype IntKind = I16 | U16 | I32 | U32 | I64 | U64 | Isize | Usize

  datatype PrimKind = PBool | PInt(kind: IntKind) | PF32 | PF64

  /** `String`, `&str` and `CompactString` all map to the same column. */
  datatype StringKind = OwnedString | StrRef | CompactStr

  /** `Vec<T>`, `HashSet<T>` and `HashMap<K, V>` are stored as their Debug text. */
  datatype CollectionKind = VecOf | HashSetOf | HashMapOf

  /** Fixed arrays `[T; n]` have implementations for n in 1..=32 only. */
  type ArrayLen = n: nat | 1 <= n <= 32 witness 1

  /** A named field of a derived struct, with its outer attributes. */
  datatype FieldDecl = FieldDecl(name: string, ty: TypeDesc, attrs: seq<Attribute>)

  /** A positional field of a derived tuple struct, with its outer attributes. */
  datatype TupleFieldDecl = TupleFieldDecl(ty: TypeDesc, attrs: seq<Attribute>)

  /** Unit and tuple variants: the derive's `append` arm for a variant with
      fields is the tuple pattern `V(..)`, which does not compile for a
      variant with named fields. */
  datatype VariantShape = UnitVariant | TupleVariant

  datatype VariantDecl = VariantDecl(name: string, shape: VariantShape)

  datatype TypeDesc =
    | Prim(prim: PrimKind)
    | StringLike(skind: StringKind)
    | Collection(ckind: CollectionKind)
    | OptionOf(inner: TypeDesc)
    | PairOf(first: TypeDesc, second: TypeDesc)
    | ArrayOf(elem: TypeDesc, len: ArrayLen)
    | DurationType
    | DateTimeType
    | DecimalType
    | NamedStruct(name: string, fields: seq<FieldDecl>)
    | TupleStruct(name: string, elems: seq<TupleFieldDecl>)
    | Enum(name: string, variants: seq<VariantDecl>)

  /** Runtime values. Payloads computed by code outside the model are carried
      ready-made: float bit patterns, `Decimal::to_f64` (as f64 bits), the
      Debug text of a collection, chrono's `timestamp_nanos_opt()`. */
  datatype Value =
    | BoolV(b: bool)
    | IntV(n: int)
    | F32V(f32bits: u32)
    | F64V(f64bits: u64)
    | TextV(text: string)
    | RenderedV(debug: string)
    | NoneV
    | SomeV(some: Value)
    | PairV(v0: Value, v1: Value)
    | ArrayV(elems: seq<Value>)
    | DurationV(secs: u64, subsecNanos: nat)
    | DateTimeV(nanos: Option<i64>)
    | DecimalV(asF64: u64)
    | StructV(fieldValues: seq<Value>)
    | EnumV(variant: string, payload: seq<Value>)

  const NANOS_PER_SEC: nat := 1_000_000_000

  predicate InRange(k: IntKind, n: int) {
    match k
    case I16 => -TWO_15 <= n < TWO_15
    case U16 => 0 <= n < TWO_16
    case I32 => -TWO_31 <= n < TWO_31
    case U32 => 0 <= n < TWO_32
    case I64 | Isize => -TWO_63 <= n < TWO_63
    case U64 | Usize => 0 <= n < TWO_64
  }

  predicate IsIgnored(f: FieldDecl) {
    ParsePersistAttributes(f.attrs).ignore
  }

  /** `v` is a value of the Rust type `t`. Ignored struct fields are never
      looked at, so their values are unconstrained. */
  predicate WellTyped(t: TypeDesc, v: Value)
    decreases t, 0
  {
    match t
    case Prim(PBool) => v.BoolV?
    case Prim(PInt(k)) => v.IntV? && InRange(k, v.n)
    case Prim(PF32) => v.F32V?
    case Prim(PF64) => v.F64V?
    case StringLike(_) => v.TextV?
    case Collection(_) => v.RenderedV?
    case OptionOf(inner) => v.NoneV? || (v.SomeV? && WellTyped(inner, v.some))
    case PairOf(a, b) => v.PairV? && WellTyped(a, v.v0) && WellTyped(b, v.v1)
    case ArrayOf(e, n) =>
      v.ArrayV? && |v.elems| == n && forall i :: 0 <= i < |v.elems| ==> WellTyped(e, v.elems[i])
    case DurationType => v.DurationV? && v.subsecNanos < NANOS_PER_SEC
    case DateTimeType => v.DateTimeV?
    case DecimalType => v.DecimalV?
    case NamedStruct(_, fs) =>
      v.StructV? && |v.fieldValues| == |fs|
      && forall i :: 0 <= i < |fs| ==> IsIgnored(fs[i]) || WellTyped(fs[i].ty, v.fieldValues[i])
    case TupleStruct(_, es) =>
      v.StructV? && |v.fieldValues| == |es|
      && forall i :: 0 <= i < |es| ==> WellTyped(es[i].ty, v.fieldValues[i])
    case Enum(_, vs) =>
      v.EnumV? && exists i :: 0 <= i < |vs| && vs[i].name == v.variant
  }

  // ----- Schema -----

  const NAME_MUST_BE_SET := "name must be set"

  /** The columns pushed by `schema`, or the panic message when a leaf gets no name. */
  type SchemaResult = Result<seq<Column>, string>

  /** The physical column of each integer width. */
  function IntPhysical(k: IntKind): (r: PhysicalType)
    ensures r == INT32 <==> k in {I16, U16, I32, U32}
    ensures r == INT64 <==> k in {I64, U64, Isize, Usize}
  {
    match k
    case I16 | U16 | I32 | U32 => INT32
    case I64 | U64 | Isize | Usize => INT64
  }

  /** The `build_primitive!` table. */
  function PrimPhysical(p: PrimKind): (r: PhysicalType)
    ensures r == BOOLEAN <==> p == PBool
    ensures r == FLOAT <==> p == PF32
    ensures r == DOUBLE <==> p == PF64
    ensures r in {INT32, INT64} <==> p.PInt?
  {
    match p
    case PBool => BOOLEAN
    case PInt(k) => IntPhysical(k)
    case PF32 => FLOAT
    case PF64 => DOUBLE
  }

  /** A leaf implementation: `prefix.expect("name must be set")`, then one column
      whose repetition is the override, REQUIRED by default. */
  function Leaf(prefix: Option<string>, physical: PhysicalType, rep: Option<Repetition>, logical: Option<LogicalType>): (r: SchemaResult)
    ensures r.Ok? <==> prefix.Some?
    ensures r.Err? ==> r.error == NAME_MUST_BE_SET
    ensures r.Ok? ==> r.value == [Column(prefix.value, physical, rep.GetOr(REQUIRED), logical)]
  {
    if prefix.None? then Err(NAME_MUST_BE_SET)
    else Ok([Column(prefix.value, physical, rep.GetOr(REQUIRED), logical)])
  }

  /** Two `schema` calls in a row: the first panic wins. */
  function Then(a: SchemaResult, b: SchemaResult): (r: SchemaResult)
    ensures r.Ok? <==> a.Ok? && b.Ok?
    ensures r.Ok? ==> r.value == a.value + b.value
  {
    if a.Err? then a else if b.Err? then b else Ok(a.value + b.value)
  }

  /** `format!("{}_{}", p, name)` under a prefix, the bare name without one. */
  function JoinName(prefix: Option<string>, name: string): string {
    match prefix
    case Some(p) => p + "_" + name
    case None => name
  }

  /** `schema(fields, prefix, repetition_override, logical_type)` for type `t`. */
  function Schema(t: TypeDesc, prefix: Option<string>, rep: Option<Repetition>, logical: Option<LogicalType>): SchemaResult
    decreases t, 0
  {
    match t
    case Prim(p) => Leaf(prefix, PrimPhysical(p), rep, logical)
    case StringLike(_) => Leaf(prefix, BYTE_ARRAY, rep, Some(StringType))
    case Collection(_) => Leaf(prefix, BYTE_ARRAY, rep, Some(StringType))
    case OptionOf(inner) => Schema(inner, prefix, Some(OPTIONAL), logical)
    case PairOf(a, b) =>
      (match prefix
       case None => Then(Schema(a, None, rep, logical), Schema(b, None, rep, logical))
       case Some(p) => Then(Schema(a, Some(p + "_0"), rep, logical), Schema(b, Some(p + "_1"), rep, logical)))
    case ArrayOf(e, n) => ArraySchema(e, n, 0, prefix, rep, logical)
    // `u64::schema` under the name `<prefix>_ns`
    case DurationType => Leaf(if prefix.Some? then Some(prefix.value + "_ns") else None, IntPhysical(U64), rep, logical)
    case DateTimeType => Leaf(prefix, INT64, rep, Some(Timestamp(true, NANOS)))
    case DecimalType => Leaf(prefix, DOUBLE, rep, Some(StringType))
    case NamedStruct(_, fs) => StructSchema(fs, prefix, rep)
    case TupleStruct(_, es) => TupleSchema(es, 0, prefix, rep)
    case Enum(name, _) => Ok([Column(prefix.GetOr(name), BYTE_ARRAY, rep.GetOr(REQUIRED), Some(StringType))])
  }

  /** Elements `i..n` of `[T; n]`, element `i` under `p_i` (or `i`). */
  function ArraySchema(e: TypeDesc, n: nat, i: nat, prefix: Option<string>, rep: Option<Repetition>, logical: Option<LogicalType>): SchemaResult
    decreases e, n - i
  {
    if i >= n then Ok([])
    else Then(Schema(e, Some(JoinName(prefix, NatToString(i))), rep, logical), ArraySchema(e, n, i + 1, prefix, rep, logical))
  }

  /** Code generated for named fields: each non-ignored field under `p_f` (or `f`),
      with the field's own timestamp attribute as its logical type. */
  function StructSchema(fs: seq<FieldDecl>, prefix: Option<string>, rep: Option<Repetition>): SchemaResult
    decreases fs
  {
    if |fs| == 0 then Ok([])
    else
      var rest := StructSchema(fs[1..], prefix, rep);
      if IsIgnored(fs[0]) then rest
      else Then(Schema(fs[0].ty, Some(JoinName(prefix, fs[0].name)), rep, FieldLogicalType(fs[0].attrs)), rest)
  }

  /** Code generated for positional fields `start..`: field `i` under `p_i` (or `i`). */
  function TupleSchema(es: seq<TupleFieldDecl>, start: nat, prefix: Option<string>, rep: Option<Repetition>): SchemaResult
    decreases es
  {
    if |es| == 0 then Ok([])
    else
      Then(Schema(es[0].ty, Some(JoinName(prefix, NatToString(start))), rep, FieldLogicalType(es[0].attrs)),
           TupleSchema(es[1..], start + 1, prefix, rep))
  }

  // ----- Width: the number of leaf columns of a type -----

  /** Reference count of leaf columns, independent of names and overrides. */
  function Width(t: TypeDesc): nat
    decreases t, 0
  {
    match t
    case OptionOf(inner) => Width(inner)
    case PairOf(a, b) => Width(a) + Width(b)
    case ArrayOf(e, n) => n * Width(e)
    case NamedStruct(_, fs) => StructWidth(fs)
    case TupleStruct(_, es) => TupleWidth(es)
    case _ => 1
  }

  function StructWidth(fs: seq<FieldDecl>): nat
    decreases fs
  {
    if |fs| == 0 then 0
    else (if IsIgnored(fs[0]) then 0 else Width(fs[0].ty)) + StructWidth(fs[1..])
  }

  function TupleWidth(es: seq<TupleFieldDecl>): nat
    decreases es
  {
    if |es| == 0 then 0 else Width(es[0].ty) + TupleWidth(es[1..])
  }

  /** Types whose `schema` supplies names to all of its leaves, so it can be
      called without a prefix. */
  predicate SelfNaming(t: TypeDesc)
    decreases t
  {
    match t
    case OptionOf(inner) => SelfNaming(inner)
    case PairOf(a, b) => SelfNaming(a) && SelfNaming(b)
    case ArrayOf(_, _) => true
    case NamedStruct(_, _) => true
    case TupleStruct(_, _) => true
    case Enum(_, _) => true
    case _ => false
  }

  /** `schema` panics exactly when a leaf is reached without a name; otherwise
      it emits `Width(t)` columns, whatever the prefix, override and logical type. */
  lemma {:induction false} SchemaShape(t: TypeDesc, prefix: Option<string>, rep: Option<Repetition>, logical: Option<LogicalType>)
    ensures Schema(t, prefix, rep, logical).Ok? <==> prefix.Some? || SelfNaming(t)
    ensures Schema(t, prefix, rep, logical).Err? ==> Schema(t, prefix, rep, logical).error == NAME_MUST_BE_SET
    ensures Schema(t, prefix, rep, logical).Ok? ==> |Schema(t, prefix, rep, logical).value| == Width(t)
    decreases t, 1
  {
    match t
    case OptionOf(inner) =>
      SchemaShape(inner, prefix, Some(OPTIONAL), logical);
    case PairOf(a, b) =>
      if prefix.None? {
        SchemaShape(a, None, rep, logical);
        SchemaShape(b, None, rep, logical);
      } else {
        SchemaShape(a, Some(prefix.value + "_0"), rep, logical);
        SchemaShape(b, Some(prefix.value + "_1"), rep, logical);
      }
    case ArrayOf(e, n) =>
      ArraySchemaShape(e, n, 0, prefix, rep, logical);
    case NamedStruct(_, fs) =>
      StructSchemaShape(fs, prefix, rep);
    case TupleStruct(_, es) =>
      TupleSchemaShape(es, 0, prefix, rep);
    case _ =>
  }

  lemma {:induction false} ArraySchemaShape(e: TypeDesc, n: nat, i: nat, prefix: Option<string>, rep: Option<Repetition>, logical: Option<LogicalType>)
    requires i <= n
    ensures ArraySchema(e, n, i, prefix, rep, logical).Ok?
    ensures |ArraySchema(e, n, i, prefix, rep, logical).value| == (n - i) * Width(e)
    decreases e, n - i + 1
  {
    if i < n {
      SchemaShape(e, Some(JoinName(prefix, NatToString(i))), rep, logical);
      ArraySchemaShape(e, n, i + 1, prefix, rep, logical);
      assert (n - i) * Width(e) == Width(e) + (n - (i + 1)) * Width(e);
    }
  }

  lemma {:induction false} StructSchemaShape(fs: seq<FieldDecl>, prefix: Option<string>, rep: Option<Repetition>)
    ensures StructSchema(fs, prefix, rep).Ok?
    ensures |StructSchema(fs, prefix, rep).value| == StructWidth(fs)
    decreases fs
  {
    if |fs| > 0 {
      StructSchemaShape(fs[1..], prefix, rep);
      if !IsIgnored(fs[0]) {
        SchemaShape(fs[0].ty, Some(JoinName(prefix, fs[0].name)), rep, FieldLogicalType(fs[0].attrs));
      }
    }
  }

  lemma {:induction false} TupleSchemaShape(es: seq<TupleFieldDecl>, start: nat, prefix: Option<string>, rep: Option<Repetition>)
    ensures TupleSchema(es, start, prefix, rep).Ok?
    ensures |TupleSchema(es, start, prefix, rep).value| == TupleWidth(es)
    decreases es
  {
    if |es| > 0 {
      SchemaShape(es[0].ty, Some(JoinName(prefix, NatToString(start))), rep, FieldLogicalType(es[0].attrs));
      TupleSchemaShape(es[1..], start + 1, prefix, rep);
    }
  }

  /** `field_count()`: the number of columns `schema` emits under the dummy name "any". */
  function FieldCount(t: TypeDesc): (r: nat)
    ensures r == Width(t)
  {
    SchemaShape(t, Some("any"), None, None);
    |Schema(t, Some("any"), None, None).value|
  }

  /** The `field_count` cache, keyed by type: every entry holds that type's count. */
  predicate CacheConsistent(cache: map<TypeDesc, nat>) {
    forall t :: t in cache ==> cache[t] == FieldCount(t)
  }

  /** `field_count()` through its process-wide cache: a hit returns the stored
      count, a miss computes it and stores it. */
  function FieldCountCached(cache: map<TypeDesc, nat>, t: TypeDesc): (r: (nat, map<TypeDesc, nat>))
    requires CacheConsistent(cache)
    ensures r.0 == Width(t)
    ensures CacheConsistent(r.1)
    ensures t in r.1 && r.1[t] == r.0
    ensures cache.Keys <= r.1.Keys
    ensures forall k :: k in cache ==> r.1[k] == cache[k]
  {
    if t in cache then (cache[t], cache)
    else
      var count := FieldCount(t);
      (count, cache[t := count])
  }

  // ----- Append -----

  /** The `Field` each integer width pushes (`i16`/`u16` widened, `isize`/`usize` as 64-bit). */
  function IntField(k: IntKind, n: int): Field
    requires InRange(k, n)
  {
    match k
    case I16 | I32 => Int(n)
    case U16 | U32 => UInt(n)
    case I64 | Isize => Long(n)
    case U64 | Usize => ULong(n)
  }

  /** `Duration::as_nanos() as u64`: the u128 nanosecond count truncated to 64 bits. */
  function DurationNanos(secs: u64, subsecNanos: nat): u64 {
    U64Truncate(secs * NANOS_PER_SEC + subsecNanos)
  }

  /** `timestamp_nanos_opt().unwrap_or_default() as u64`. */
  function DateTimeBits(nanos: Option<i64>): u64 {
    U64FromI64(nanos.GetOr(0))
  }

  /** `append(&self, row)`: the fields pushed for value `v` of type `t`. */
  function Append(t: TypeDesc, v: Value): seq<Field>
    requires WellTyped(t, v)
    decreases t, 0
  {
    match t
    case Prim(PBool) => [Bool(v.b)]
    case Prim(PInt(k)) => [IntField(k, v.n)]
    case Prim(PF32) => [Float(v.f32bits)]
    case Prim(PF64) => [Double(v.f64bits)]
    case StringLike(_) => [Str(v.text)]
    case Collection(_) => [Str(v.debug)]
    case OptionOf(inner) =>
      if v.SomeV? then Append(inner, v.some) else Nulls(FieldCount(inner))
    case PairOf(a, b) => Append(a, v.v0) + Append(b, v.v1)
    case ArrayOf(e, _) => ArrayAppend(e, v.elems)
    case DurationType => [ULong(DurationNanos(v.secs, v.subsecNanos))]
    case DateTimeType => [ULong(DateTimeBits(v.nanos))]
    case DecimalType => [Double(v.asF64)]
    case NamedStruct(_, fs) => StructAppend(fs, v.fieldValues)
    case TupleStruct(_, es) => TupleAppend(es, v.fieldValues)
    case Enum(_, _) => [Str(v.variant)]
  }

  /** `for item in self.iter() { item.append(row)? }` */
  function ArrayAppend(e: TypeDesc, vs: seq<Value>): seq<Field>
    requires forall i :: 0 <= i < |vs| ==> WellTyped(e, vs[i])
    decreases e, |vs|
  {
    if |vs| == 0 then [] else Append(e, vs[0]) + ArrayAppend(e, vs[1..])
  }

  /** Code generated for named fields: `self.f.append(row)?` for each non-ignored field. */
  function StructAppend(fs: seq<FieldDecl>, vs: seq<Value>): seq<Field>
    requires |vs| == |fs|
    requires forall i :: 0 <= i < |fs| ==> IsIgnored(fs[i]) || WellTyped(fs[i].ty, vs[i])
    decreases fs
  {
    if |fs| == 0 then []
    else
      var rest := StructAppend(fs[1..], vs[1..]);
      if IsIgnored(fs[0]) then rest else Append(fs[0].ty, vs[0]) + rest
  }

  /** Code generated for positional fields: `self.i.append(row)?` for every field. */
  function TupleAppend(es: seq<TupleFieldDecl>, vs: seq<Value>): seq<Field>
    requires |vs| == |es|
    requires forall i :: 0 <= i < |es| ==> WellTyped(es[i].ty, vs[i])
    decreases es
  {
    if |es| == 0 then [] else Append(es[0].ty, vs[0]) + TupleAppend(es[1..], vs[1..])
  }
}
