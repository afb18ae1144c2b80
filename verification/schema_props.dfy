/** Properties of the type-to-column mapping: repetition, physical types,
    and the alignment of appended fields with schema columns. */
module SchemaProperties {
  import opened Wrappers
  import opened ParquetTypes
  import opened Digits
  import opened DeriveAttrs
  import opened Persistable
  import opened Row

  /** `t` has an `Option` somewhere among the parts its schema visits. */
  predicate HasOption(t: TypeDesc)
    decreases t, 0
  {
    match t
    case OptionOf(_) => true
    case PairOf(a, b) => HasOption(a) || HasOption(b)
    case ArrayOf(e, _) => HasOption(e)
    case NamedStruct(_, fs) => StructHasOption(fs)
    case TupleStruct(_, es) => TupleHasOption(es)
    case _ => false
  }

  predicate StructHasOption(fs: seq<FieldDecl>)
    decreases fs
  {
    |fs| > 0 && ((!IsIgnored(fs[0]) && HasOption(fs[0].ty)) || StructHasOption(fs[1..]))
  }

  predicate TupleHasOption(es: seq<TupleFieldDecl>)
    decreases es
  {
    |es| > 0 && (HasOption(es[0].ty) || TupleHasOption(es[1..]))
  }

  /** What holds of every column a schema call emits. */
  predicate ColumnsBehave(cols: seq<Column>, t: TypeDesc, rep: Option<Repetition>) {
    && (forall c :: c in cols ==> Supported(c.physical))
    && (rep == Some(OPTIONAL) ==> forall c :: c in cols ==> c.repetition == OPTIONAL)
    && (!HasOption(t) ==> forall c :: c in cols ==> c.repetition == rep.GetOr(REQUIRED))
  }

  /** Every column has a physical type a column writer handles; an OPTIONAL
      override reaches every leaf; without an `Option` inside, every leaf takes
      the override, REQUIRED when there is none. */
  lemma {:induction false} SchemaColumnsBehave(t: TypeDesc, prefix: Option<string>, rep: Option<Repetition>, logical: Option<LogicalType>)
    requires Schema(t, prefix, rep, logical).Ok?
    ensures ColumnsBehave(Schema(t, prefix, rep, logical).value, t, rep)
    decreases t, 1
  {
    match t
    case OptionOf(inner) =>
      SchemaColumnsBehave(inner, prefix, Some(OPTIONAL), logical);
    case PairOf(a, b) =>
      if prefix.None? {
        SchemaColumnsBehave(a, None, rep, logical);
        SchemaColumnsBehave(b, None, rep, logical);
      } else {
        SchemaColumnsBehave(a, Some(prefix.value + "_0"), rep, logical);
        SchemaColumnsBehave(b, Some(prefix.value + "_1"), rep, logical);
      }
    case ArrayOf(e, n) =>
      ArrayColumnsBehave(e, n, 0, prefix, rep, logical);
    case NamedStruct(_, fs) =>
      StructColumnsBehave(fs, prefix, rep);
    case TupleStruct(_, es) =>
      TupleColumnsBehave(es, 0, prefix, rep);
    case _ =>
  }

  lemma {:induction false} ArrayColumnsBehave(e: TypeDesc, n: nat, i: nat, prefix: Option<string>, rep: Option<Repetition>, logical: Option<LogicalType>)
    requires i <= n
    ensures ArraySchema(e, n, i, prefix, rep, logical).Ok?
    ensures ColumnsBehave(ArraySchema(e, n, i, prefix, rep, logical).value, ArrayOf(e, 1), rep)
    decreases e, n - i + 1
  {
    ArraySchemaShape(e, n, i, prefix, rep, logical);
    if i < n {
      SchemaShape(e, Some(JoinName(prefix, NatToString(i))), rep, logical);
      SchemaColumnsBehave(e, Some(JoinName(prefix, NatToString(i))), rep, logical);
      ArrayColumnsBehave(e, n, i + 1, prefix, rep, logical);
    }
  }

  lemma {:induction false} StructColumnsBehave(fs: seq<FieldDecl>, prefix: Option<string>, rep: Option<Repetition>)
    ensures StructSchema(fs, prefix, rep).Ok?
    ensures ColumnsBehave(StructSchema(fs, prefix, rep).value, NamedStruct("", fs), rep)
    decreases fs
  {
    StructSchemaShape(fs, prefix, rep);
    if |fs| > 0 {
      StructColumnsBehave(fs[1..], prefix, rep);
      assert HasOption(NamedStruct("", fs)) == StructHasOption(fs);
      assert HasOption(NamedStruct("", fs[1..])) == StructHasOption(fs[1..]);
      if !IsIgnored(fs[0]) {
        var name := Some(JoinName(prefix, fs[0].name));
        SchemaShape(fs[0].ty, name, rep, FieldLogicalType(fs[0].attrs));
        SchemaColumnsBehave(fs[0].ty, name, rep, FieldLogicalType(fs[0].attrs));
      }
    }
  }

  lemma {:induction false} TupleColumnsBehave(es: seq<TupleFieldDecl>, start: nat, prefix: Option<string>, rep: Option<Repetition>)
    ensures TupleSchema(es, start, prefix, rep).Ok?
    ensures ColumnsBehave(TupleSchema(es, start, prefix, rep).value, TupleStruct("", es), rep)
    decreases es
  {
    TupleSchemaShape(es, start, prefix, rep);
    if |es| > 0 {
      TupleColumnsBehave(es[1..], start + 1, prefix, rep);
      assert HasOption(TupleStruct("", es)) == TupleHasOption(es);
      assert HasOption(TupleStruct("", es[1..])) == TupleHasOption(es[1..]);
      var name := Some(JoinName(prefix, NatToString(start)));
      SchemaShape(es[0].ty, name, rep, FieldLogicalType(es[0].attrs));
      SchemaColumnsBehave(es[0].ty, name, rep, FieldLogicalType(es[0].attrs));
    }
  }

  /** `Option<T>` makes every column of `T` OPTIONAL, whatever override it was given. */
  lemma {:induction false} OptionColumnsAreOptional(t: TypeDesc, prefix: Option<string>, rep: Option<Repetition>, logical: Option<LogicalType>)
    requires Schema(OptionOf(t), prefix, rep, logical).Ok?
    ensures forall c :: c in Schema(OptionOf(t), prefix, rep, logical).value ==> c.repetition == OPTIONAL
  {
    SchemaColumnsBehave(t, prefix, Some(OPTIONAL), logical);
  }

  /** With no override and no `Option` inside, every column is REQUIRED. */
  lemma {:induction false} DefaultColumnsAreRequired(t: TypeDesc, prefix: Option<string>, logical: Option<LogicalType>)
    requires !HasOption(t)
    requires Schema(t, prefix, None, logical).Ok?
    ensures forall c :: c in Schema(t, prefix, None, logical).value ==> c.repetition == REQUIRED
  {
    SchemaColumnsBehave(t, prefix, None, logical);
  }

  // ----- Column alignment -----

  /** Field `i` goes to column `i`: its writer accepts it, and a `Null` lands
      only in an OPTIONAL column. */
  predicate Fits(cols: seq<Column>, fields: seq<Field>) {
    |cols| == |fields| &&
    forall i :: 0 <= i < |cols| ==>
      Accepts(cols[i].physical, fields[i]) && (fields[i].Null? ==> cols[i].repetition == OPTIONAL)
  }

  lemma {:induction false} FitsConcat(c1: seq<Column>, f1: seq<Field>, c2: seq<Column>, f2: seq<Field>)
    requires Fits(c1, f1) && Fits(c2, f2)
    ensures Fits(c1 + c2, f1 + f2)
  {
    forall i | 0 <= i < |c1 + c2|
      ensures Accepts((c1 + c2)[i].physical, (f1 + f2)[i])
      ensures (f1 + f2)[i].Null? ==> (c1 + c2)[i].repetition == OPTIONAL
    {
      if i >= |c1| {
        assert (c1 + c2)[i] == c2[i - |c1|];
        assert (f1 + f2)[i] == f2[i - |f1|];
      }
    }
  }

  /** Column alignment: for a well-typed value, `append` pushes exactly one field
      per column `schema` emits, in the same order, each accepted by that
      column's writer, with `Null` only in OPTIONAL columns. */
  lemma {:induction false} AppendFitsSchema(t: TypeDesc, v: Value, prefix: Option<string>, rep: Option<Repetition>, logical: Option<LogicalType>)
    requires WellTyped(t, v)
    requires Schema(t, prefix, rep, logical).Ok?
    ensures Fits(Schema(t, prefix, rep, logical).value, Append(t, v))
    decreases t, 1
  {
    match t
    case OptionOf(inner) =>
      if v.SomeV? {
        AppendFitsSchema(inner, v.some, prefix, Some(OPTIONAL), logical);
      } else {
        NoneFits(inner, prefix, rep, logical);
      }
    case PairOf(a, b) =>
      PairFits(a, b, v, prefix, rep, logical);
    case ArrayOf(e, n) =>
      ArrayFits(e, n, 0, v.elems, prefix, rep, logical);
      assert v.elems[0..] == v.elems;
    case NamedStruct(_, fs) =>
      StructFits(fs, v.fieldValues, prefix, rep);
    case TupleStruct(_, es) =>
      TupleFits(es, 0, v.fieldValues, prefix, rep);
    case _ =>
  }

  /** `None` pushes one `Null` per column of the inner type, all OPTIONAL. */
  lemma {:induction false} NoneFits(inner: TypeDesc, prefix: Option<string>, rep: Option<Repetition>, logical: Option<LogicalType>)
    requires Schema(OptionOf(inner), prefix, rep, logical).Ok?
    ensures Fits(Schema(OptionOf(inner), prefix, rep, logical).value, Append(OptionOf(inner), NoneV))
  {
    SchemaShape(inner, prefix, Some(OPTIONAL), logical);
    SchemaColumnsBehave(inner, prefix, Some(OPTIONAL), logical);
    var cols := Schema(inner, prefix, Some(OPTIONAL), logical).value;
    forall i | 0 <= i < |cols| ensures Supported(cols[i].physical) && cols[i].repetition == OPTIONAL {
      assert cols[i] in cols;
    }
  }

  lemma {:induction false} PairFits(a: TypeDesc, b: TypeDesc, v: Value, prefix: Option<string>, rep: Option<Repetition>, logical: Option<LogicalType>)
    requires WellTyped(PairOf(a, b), v)
    requires Schema(PairOf(a, b), prefix, rep, logical).Ok?
    ensures Fits(Schema(PairOf(a, b), prefix, rep, logical).value, Append(PairOf(a, b), v))
    decreases PairOf(a, b), 0
  {
    var pa := if prefix.None? then None else Some(prefix.value + "_0");
    var pb := if prefix.None? then None else Some(prefix.value + "_1");
    AppendFitsSchema(a, v.v0, pa, rep, logical);
    AppendFitsSchema(b, v.v1, pb, rep, logical);
    FitsConcat(Schema(a, pa, rep, logical).value, Append(a, v.v0), Schema(b, pb, rep, logical).value, Append(b, v.v1));
  }

  lemma {:induction false} ArrayFits(e: TypeDesc, n: nat, i: nat, vs: seq<Value>, prefix: Option<string>, rep: Option<Repetition>, logical: Option<LogicalType>)
    requires i <= n && |vs| == n
    requires forall k :: 0 <= k < |vs| ==> WellTyped(e, vs[k])
    ensures ArraySchema(e, n, i, prefix, rep, logical).Ok?
    ensures Fits(ArraySchema(e, n, i, prefix, rep, logical).value, ArrayAppend(e, vs[i..]))
    decreases e, n - i + 1
  {
    ArraySchemaShape(e, n, i, prefix, rep, logical);
    if i < n {
      var name := Some(JoinName(prefix, NatToString(i)));
      SchemaShape(e, name, rep, logical);
      AppendFitsSchema(e, vs[i], name, rep, logical);
      ArrayFits(e, n, i + 1, vs, prefix, rep, logical);
      assert vs[i..][0] == vs[i] && vs[i..][1..] == vs[i + 1..];
      FitsConcat(Schema(e, name, rep, logical).value, Append(e, vs[i]),
                 ArraySchema(e, n, i + 1, prefix, rep, logical).value, ArrayAppend(e, vs[i + 1..]));
    } else {
      assert vs[i..] == [];
    }
  }

  lemma {:induction false} StructFits(fs: seq<FieldDecl>, vs: seq<Value>, prefix: Option<string>, rep: Option<Repetition>)
    requires |vs| == |fs|
    requires forall k :: 0 <= k < |fs| ==> IsIgnored(fs[k]) || WellTyped(fs[k].ty, vs[k])
    ensures StructSchema(fs, prefix, rep).Ok?
    ensures Fits(StructSchema(fs, prefix, rep).value, StructAppend(fs, vs))
    decreases fs
  {
    StructSchemaShape(fs, prefix, rep);
    if |fs| > 0 {
      StructFits(fs[1..], vs[1..], prefix, rep);
      if !IsIgnored(fs[0]) {
        var name := Some(JoinName(prefix, fs[0].name));
        var lt := FieldLogicalType(fs[0].attrs);
        SchemaShape(fs[0].ty, name, rep, lt);
        AppendFitsSchema(fs[0].ty, vs[0], name, rep, lt);
        FitsConcat(Schema(fs[0].ty, name, rep, lt).value, Append(fs[0].ty, vs[0]),
                   StructSchema(fs[1..], prefix, rep).value, StructAppend(fs[1..], vs[1..]));
      }
    }
  }

  lemma {:induction false} TupleFits(es: seq<TupleFieldDecl>, start: nat, vs: seq<Value>, prefix: Option<string>, rep: Option<Repetition>)
    requires |vs| == |es|
    requires forall k :: 0 <= k < |es| ==> WellTyped(es[k].ty, vs[k])
    ensures TupleSchema(es, start, prefix, rep).Ok?
    ensures Fits(TupleSchema(es, start, prefix, rep).value, TupleAppend(es, vs))
    decreases es
  {
    TupleSchemaShape(es, start, prefix, rep);
    if |es| > 0 {
      TupleFits(es[1..], start + 1, vs[1..], prefix, rep);
      var name := Some(JoinName(prefix, NatToString(start)));
      var lt := FieldLogicalType(es[0].attrs);
      SchemaShape(es[0].ty, name, rep, lt);
      AppendFitsSchema(es[0].ty, vs[0], name, rep, lt);
      FitsConcat(Schema(es[0].ty, name, rep, lt).value, Append(es[0].ty, vs[0]),
                 TupleSchema(es[1..], start + 1, prefix, rep).value, TupleAppend(es[1..], vs[1..]));
    }
  }

  /** `append` pushes `Width(t)` fields, the number of columns of every
      successful `schema` call, so `field_count()` Nulls fill exactly the
      columns of a missing `Option` value. */
  lemma {:induction false} AppendWidth(t: TypeDesc, v: Value)
    requires WellTyped(t, v)
    ensures |Append(t, v)| == Width(t) == FieldCount(t)
  {
    SchemaShape(t, Some("any"), None, None);
    AppendFitsSchema(t, v, Some("any"), None, None);
  }

  /** `field_count()`, taken under the dummy name "any", equals the column count
      of a schema call under any prefix, override and logical type. */
  lemma {:induction false} FieldCountMatchesAnySchema(t: TypeDesc, prefix: Option<string>, rep: Option<Repetition>, logical: Option<LogicalType>)
    requires Schema(t, prefix, rep, logical).Ok?
    ensures FieldCount(t) == |Schema(t, prefix, rep, logical).value|
  {
    SchemaShape(t, prefix, rep, logical);
  }

  /** The top-level call `RowBuilder::record` makes, with no prefix, succeeds
      exactly for types that name their own columns. */
  lemma {:induction false} TopLevelSchema(t: TypeDesc)
    ensures Schema(t, None, None, None).Ok? <==> SelfNaming(t)
    ensures Schema(t, None, None, None).Err? ==> Schema(t, None, None, None).error == NAME_MUST_BE_SET
  {
    SchemaShape(t, None, None, None);
  }
}
