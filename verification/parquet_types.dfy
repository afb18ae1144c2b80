/** The vocabulary of the Apache Parquet format that the recorder uses:
    physical types, repetitions, the STRING and TIMESTAMP logical types,
    schema columns, and the dynamically typed `Field` values that the row
    buffer collects. Rust's fixed-width integers are subset types of `int`,
    and the `as` casts between them are written out as two's-complement
    reinterpretations. */
module ParquetTypes {
  import opened Wrappers

  const TWO_15: int := 0x8000
  const TWO_16: int := 0x1_0000
  const TWO_31: int := 0x8000_0000
  const TWO_32: int := 0x1_0000_0000
  const TWO_63: int := 0x8000_0000_0000_0000
  const TWO_64: int := 0x1_0000_0000_0000_0000

  type i16 = x: int | -TWO_15 <= x < TWO_15
  type u16 = x: int | 0 <= x < TWO_16
  type i32 = x: int | -TWO_31 <= x < TWO_31
  type u32 = x: int | 0 <= x < TWO_32
  type i64 = x: int | -TWO_63 <= x < TWO_63
  type u64 = x: int | 0 <= x < TWO_64

  /** `x as i32` for a `u32`: the same 32 bits read as two's complement. */
  function I32FromU32(x: u32): (r: i32)
    ensures r % TWO_32 == x
    ensures 0 <= r <==> x < TWO_31
  {
    if x < TWO_31 then x else x - TWO_32
  }

  /** `x as i64` for a `u64`. */
  function I64FromU64(x: u64): (r: i64)
    ensures r % TWO_64 == x
    ensures 0 <= r <==> x < TWO_63
  {
    if x < TWO_63 then x else x - TWO_64
  }

  /** `x as u64` for an `i64`. */
  function U64FromI64(x: i64): (r: u64)
    ensures r == x % TWO_64
    ensures r < TWO_63 <==> 0 <= x
  {
    if 0 <= x then x else x + TWO_64
  }

  /** `x as u64` for a wider unsigned integer (a `u128`): keeps the low 64 bits. */
  function U64Truncate(x: nat): (r: u64)
    ensures x < TWO_64 ==> r == x
    ensures (x - r) % TWO_64 == 0
  {
    x % TWO_64
  }

  /** The two casts of a signed 64-bit value through `u64` cancel. */
  lemma {:induction false} I64RoundTrip(x: i64)
    ensures I64FromU64(U64FromI64(x)) == x
  {
  }

  /** The physical types of the Parquet format ("Types" section). */
  datatype PhysicalType =
    | BOOLEAN
    | INT32
    | INT64
    | INT96
    | FLOAT
    | DOUBLE
    | BYTE_ARRAY
    | FIXED_LEN_BYTE_ARRAY

  /** Field repetition of the Parquet format ("Nested Encoding" section). */
  datatype Repetition = REQUIRED | OPTIONAL | REPEATED

  datatype TimeUnit = MILLIS | MICROS | NANOS

  /** The two logical types the recorder attaches to columns. */
  datatype LogicalType =
    | StringType
    | Timestamp(isAdjustedToUtc: bool, unit: TimeUnit)

  /** One leaf of a Parquet schema. */
  datatype Column = Column(
    name: string,
    physical: PhysicalType,
    repetition: Repetition,
    logical: Option<LogicalType>)

  /** The variants of `parquet::record::Field` that the appends produce.
      Float payloads are carried as their IEEE-754 bit patterns and never
      interpreted. `OtherField` stands for every remaining variant of the
      Rust enum (`Byte`, `Short`, `Date`, `Group`, ...), none of which any
      append produces. */
  datatype Field =
    | Null
    | Bool(b: bool)
    | Int(i: i32)
    | UInt(u: u32)
    | Long(l: i64)
    | ULong(ul: u64)
    | Float(fbits: u32)
    | Double(dbits: u64)
    | Str(s: string)
    | OtherField(variant: string)

  function Nulls(n: nat): (r: seq<Field>)
    ensures |r| == n
    ensures forall i :: 0 <= i < n ==> r[i] == Null
  {
    seq(n, _ => Null)
  }
}
