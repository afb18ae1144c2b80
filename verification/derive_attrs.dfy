/** The field attributes the `Persist` derive reads: `#[persist(ignore = b)]`
    and `#[persist_timestamp(unit = "..")]`. Attributes are modelled after
    `syn`'s shapes; only what the derive inspects is kept. */
module DeriveAttrs {
  import opened Wrappers
  import opened ParquetTypes

  /** A literal on the right of `name = literal`. */
  datatype Lit = LitBool(flag: bool) | LitStr(text: string) | LitOther

  /** One entry inside `#[path(...)]`; `OtherNested` is any entry that is not
      of `name = literal` form. */
  datatype NestedMeta = NameValue(path: string, lit: Lit) | OtherNested

  /** An outer attribute of a field. `nested` is `None` when `parse_meta`
      does not produce a list (`#[path]`, `#[path = x]`, unparsable input). */
  datatype Attribute = Attribute(path: string, nested: Option<seq<NestedMeta>>)

  /** The derive's own `TimeUnit`. */
  datatype TimestampUnit = Nanos | Micros | Millis

  datatype PersistAttributes = PersistAttributes(ignore: bool, timestamp: Option<TimestampUnit>)

  const DefaultAttributes := PersistAttributes(false, None)

  /** The `unit` strings the derive recognises. */
  function UnitFromString(s: string): (r: Option<TimestampUnit>)
    ensures r == Some(Nanos) <==> s == "ns"
    ensures r == Some(Micros) <==> s == "us"
    ensures r == Some(Millis) <==> s == "ms"
  {
    if s == "ns" then Some(Nanos)
    else if s == "ms" then Some(Millis)
    else if s == "us" then Some(Micros)
    else None
  }

  /** `logical_type_to_tokens`: a UTC-adjusted Parquet timestamp in the chosen unit. */
  function TimestampLogicalType(u: TimestampUnit): (r: LogicalType)
    ensures r.Timestamp? && r.isAdjustedToUtc
    ensures u == Nanos <==> r.unit == NANOS
    ensures u == Micros <==> r.unit == MICROS
    ensures u == Millis <==> r.unit == MILLIS
  {
    Timestamp(true, match u case Nanos => NANOS case Micros => MICROS case Millis => MILLIS)
  }

  /** The entries of a `#[persist(..)]` list, in order. */
  function ApplyPersistEntries(acc: PersistAttributes, ms: seq<NestedMeta>): PersistAttributes
    decreases |ms|
  {
    if |ms| == 0 then acc
    else
      var m := ms[0];
      var acc' := if m.NameValue? && m.path == "ignore" && m.lit.LitBool? then acc.(ignore := m.lit.flag) else acc;
      ApplyPersistEntries(acc', ms[1..])
  }

  /** The entries of a `#[persist_timestamp(..)]` list, in order. */
  function ApplyTimestampEntries(acc: PersistAttributes, ms: seq<NestedMeta>): PersistAttributes
    decreases |ms|
  {
    if |ms| == 0 then acc
    else
      var m := ms[0];
      var acc' := if m.NameValue? && m.path == "unit" && m.lit.LitStr? then acc.(timestamp := UnitFromString(m.lit.text)) else acc;
      ApplyTimestampEntries(acc', ms[1..])
  }

  function ApplyAttribute(acc: PersistAttributes, a: Attribute): PersistAttributes {
    var afterPersist := if a.path == "persist" && a.nested.Some? then ApplyPersistEntries(acc, a.nested.value) else acc;
    if a.path == "persist_timestamp" && a.nested.Some? then ApplyTimestampEntries(afterPersist, a.nested.value) else afterPersist
  }

  function ApplyAttributes(acc: PersistAttributes, attrs: seq<Attribute>): PersistAttributes
    decreases |attrs|
  {
    if |attrs| == 0 then acc else ApplyAttributes(ApplyAttribute(acc, attrs[0]), attrs[1..])
  }

  /** `parse_persist_attributes`: a left-to-right scan starting from `ignore = false`, no timestamp. */
  function ParsePersistAttributes(attrs: seq<Attribute>): PersistAttributes {
    ApplyAttributes(DefaultAttributes, attrs)
  }

  /** The logical type a field passes to its type's `schema`: only its own timestamp attribute counts. */
  function FieldLogicalType(attrs: seq<Attribute>): Option<LogicalType> {
    match ParsePersistAttributes(attrs).timestamp
    case Some(u) => Some(TimestampLogicalType(u))
    case None => None
  }

  // ----- Reference definitions: every setting written, in source order -----

  function IgnoreSettingsIn(ms: seq<NestedMeta>): seq<bool>
    decreases |ms|
  {
    if |ms| == 0 then []
    else
      (if ms[0].NameValue? && ms[0].path == "ignore" && ms[0].lit.LitBool? then [ms[0].lit.flag] else [])
      + IgnoreSettingsIn(ms[1..])
  }

  function UnitSettingsIn(ms: seq<NestedMeta>): seq<string>
    decreases |ms|
  {
    if |ms| == 0 then []
    else
      (if ms[0].NameValue? && ms[0].path == "unit" && ms[0].lit.LitStr? then [ms[0].lit.text] else [])
      + UnitSettingsIn(ms[1..])
  }

  /** All `ignore = <bool>` settings written in `#[persist(..)]` attributes, in order. */
  function IgnoreSettings(attrs: seq<Attribute>): seq<bool>
    decreases |attrs|
  {
    if |attrs| == 0 then []
    else
      (if attrs[0].path == "persist" && attrs[0].nested.Some? then IgnoreSettingsIn(attrs[0].nested.value) else [])
      + IgnoreSettings(attrs[1..])
  }

  /** All `unit = "<s>"` settings written in `#[persist_timestamp(..)]` attributes, in order. */
  function UnitSettings(attrs: seq<Attribute>): seq<string>
    decreases |attrs|
  {
    if |attrs| == 0 then []
    else
      (if attrs[0].path == "persist_timestamp" && attrs[0].nested.Some? then UnitSettingsIn(attrs[0].nested.value) else [])
      + UnitSettings(attrs[1..])
  }

  function LastOr<T>(s: seq<T>, default: T): T {
    if |s| == 0 then default else s[|s| - 1]
  }

  lemma {:induction false} LastOrAppend<T>(a: seq<T>, b: seq<T>, d: T)
    ensures LastOr(a + b, d) == LastOr(b, LastOr(a, d))
  {
  }

  // ----- The scan keeps the last setting of each kind -----

  lemma {:induction false} PersistEntriesKeepLast(acc: PersistAttributes, ms: seq<NestedMeta>)
    ensures ApplyPersistEntries(acc, ms).ignore == LastOr(IgnoreSettingsIn(ms), acc.ignore)
    ensures ApplyPersistEntries(acc, ms).timestamp == acc.timestamp
    decreases |ms|
  {
    if |ms| > 0 {
      var m := ms[0];
      var acc' := if m.NameValue? && m.path == "ignore" && m.lit.LitBool? then acc.(ignore := m.lit.flag) else acc;
      PersistEntriesKeepLast(acc', ms[1..]);
      var head := if m.NameValue? && m.path == "ignore" && m.lit.LitBool? then [m.lit.flag] else [];
      LastOrAppend(head, IgnoreSettingsIn(ms[1..]), acc.ignore);
    }
  }

  lemma {:induction false} TimestampEntriesKeepLast(acc: PersistAttributes, ms: seq<NestedMeta>)
    ensures ApplyTimestampEntries(acc, ms).ignore == acc.ignore
    ensures ApplyTimestampEntries(acc, ms).timestamp ==
      if |UnitSettingsIn(ms)| == 0 then acc.timestamp else UnitFromString(LastOr(UnitSettingsIn(ms), ""))
    decreases |ms|
  {
    if |ms| > 0 {
      var m := ms[0];
      var acc' := if m.NameValue? && m.path == "unit" && m.lit.LitStr? then acc.(timestamp := UnitFromString(m.lit.text)) else acc;
      TimestampEntriesKeepLast(acc', ms[1..]);
      var head := if m.NameValue? && m.path == "unit" && m.lit.LitStr? then [m.lit.text] else [];
      LastOrAppend(head, UnitSettingsIn(ms[1..]), "");
    }
  }

  lemma {:induction false} AttributesKeepLast(acc: PersistAttributes, attrs: seq<Attribute>)
    ensures ApplyAttributes(acc, attrs).ignore == LastOr(IgnoreSettings(attrs), acc.ignore)
    ensures ApplyAttributes(acc, attrs).timestamp ==
      if |UnitSettings(attrs)| == 0 then acc.timestamp else UnitFromString(LastOr(UnitSettings(attrs), ""))
    decreases |attrs|
  {
    if |attrs| > 0 {
      var a := attrs[0];
      var acc' := ApplyAttribute(acc, a);
      AttributesKeepLast(acc', attrs[1..]);
      var ig := if a.path == "persist" && a.nested.Some? then IgnoreSettingsIn(a.nested.value) else [];
      var un := if a.path == "persist_timestamp" && a.nested.Some? then UnitSettingsIn(a.nested.value) else [];
      if a.path == "persist" && a.nested.Some? {
        PersistEntriesKeepLast(acc, a.nested.value);
      }
      if a.path == "persist_timestamp" && a.nested.Some? {
        TimestampEntriesKeepLast(acc, a.nested.value);
      }
      assert acc'.ignore == LastOr(ig, acc.ignore);
      assert acc'.timestamp == if |un| == 0 then acc.timestamp else UnitFromString(LastOr(un, ""));
      LastOrAppend(ig, IgnoreSettings(attrs[1..]), acc.ignore);
      LastOrAppend(un, UnitSettings(attrs[1..]), "");
    }
  }

  /** `ignore` is the last `ignore = <bool>` written, and false when none is. */
  lemma {:induction false} ParseIgnoreIsLastSetting(attrs: seq<Attribute>)
    ensures ParsePersistAttributes(attrs).ignore == LastOr(IgnoreSettings(attrs), false)
    ensures IgnoreSettings(attrs) == [] ==> !ParsePersistAttributes(attrs).ignore
  {
    AttributesKeepLast(DefaultAttributes, attrs);
  }

  /** The timestamp unit is decided by the last `unit = ".."` written: "ns", "us" and "ms"
      select nanos, micros and millis, any other string clears it, and none leaves it unset. */
  lemma {:induction false} ParseUnitIsLastSetting(attrs: seq<Attribute>)
    ensures UnitSettings(attrs) == [] ==> ParsePersistAttributes(attrs).timestamp == None
    ensures UnitSettings(attrs) != [] ==>
      ParsePersistAttributes(attrs).timestamp == UnitFromString(UnitSettings(attrs)[|UnitSettings(attrs)| - 1])
  {
    AttributesKeepLast(DefaultAttributes, attrs);
  }
}
