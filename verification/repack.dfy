/** Output-schema derivation of the repack driver (src/repack.rs): each op's action
    contributes zero, one or many output fields; the output fields' data types are then
    mapped back to table kinds. Reading the source file and running the split closures
    are not part of this model. */
module Repack {
  import opened Wrappers
  import opened Columns
  import Arrow
  import Tables

  /** A field of the input file's schema. */
  datatype Field = Field(name: string, dataType: Arrow.DataType, nullable: bool)

  /** A field the transform declares for its output. */
  datatype OutField = OutField(name: string, dataType: Arrow.DataType, nullable: bool, encoding: Arrow.Encoding)

  /** A split reads one input column and writes the declared output columns; its closure
      is caller code and only its declared outputs matter to the schema. */
  datatype Split = Split(input: string, output: seq<OutField>)

  datatype Action = ErrorOut | Copy | SplitInto(split: Split)

  datatype Op = Op(input: string, action: Action)

  datatype RepackError =
    | FieldNotFound(name: string)
    | ExternalTypeUnsupported(dataType: Arrow.DataType)

  /** `find_field`: the position and field of the first field named `name`, if any. */
  function FindField(schema: seq<Field>, name: string): (r: Option<(nat, Field)>)
    ensures r.None? <==> forall i :: 0 <= i < |schema| ==> schema[i].name != name
    ensures r.Some? ==> && r.value.0 < |schema|
                        && schema[r.value.0] == r.value.1
                        && r.value.1.name == name
                        && forall j :: 0 <= j < r.value.0 ==> schema[j].name != name
  {
    FindFrom(schema, name, 0)
  }

  function FindFrom(schema: seq<Field>, name: string, from: nat): (r: Option<(nat, Field)>)
    requires from <= |schema|
    ensures r.None? <==> forall i :: from <= i < |schema| ==> schema[i].name != name
    ensures r.Some? ==> && from <= r.value.0 < |schema|
                        && schema[r.value.0] == r.value.1
                        && r.value.1.name == name
                        && forall j :: from <= j < r.value.0 ==> schema[j].name != name
    decreases |schema| - from
  {
    if from == |schema| then None
    else if schema[from].name == name then Some((from, schema[from]))
    else FindFrom(schema, name, from + 1)
  }

  /** The output fields one op contributes: none for `ErrorOut`; for `Copy`, the input
      field of that name with its type and nullability, plain-encoded (an error when the
      input has no such field); for a split, its declared outputs unchanged and in order. */
  function Contribution(op: Op, inSchema: seq<Field>): (r: Result<seq<OutField>, RepackError>)
    ensures op.action.ErrorOut? ==> r == Ok([])
    ensures op.action.SplitInto? ==> r == Ok(op.action.split.output)
    ensures op.action.Copy? ==> (r.Err? <==> forall i :: 0 <= i < |inSchema| ==> inSchema[i].name != op.input)
    ensures op.action.Copy? && r.Err? ==> r.error == FieldNotFound(op.input)
    ensures op.action.Copy? && r.Ok? ==>
              exists i :: && 0 <= i < |inSchema|
                          && inSchema[i].name == op.input
                          && (forall j :: 0 <= j < i ==> inSchema[j].name != op.input)
                          && r.value == [OutField(op.input, inSchema[i].dataType, inSchema[i].nullable, Arrow.Plain)]
  {
    match op.action
    case ErrorOut => Ok([])
    case Copy =>
      (match FindField(inSchema, op.input)
       case None => Err(FieldNotFound(op.input))
       case Some((_, f)) => Ok([OutField(f.name, f.dataType, f.nullable, Arrow.Plain)]))
    case SplitInto(split) => Ok(split.output)
  }

  /** How many output fields an op declares, read off the action alone. */
  function Declared(op: Op): nat
  {
    match op.action
    case ErrorOut => 0
    case Copy => 1
    case SplitInto(split) => |split.output|
  }

  function DeclaredTotal(ops: seq<Op>): nat
  {
    if |ops| == 0 then 0 else Declared(ops[0]) + DeclaredTotal(ops[1..])
  }

  /** The `out_schema` flat-map: the ops' contributions concatenated in op order; the
      first failing lookup aborts the whole derivation. */
  function OutSchema(ops: seq<Op>, inSchema: seq<Field>): (r: Result<seq<OutField>, RepackError>)
    ensures r.Ok? <==> forall i :: 0 <= i < |ops| ==> Contribution(ops[i], inSchema).Ok?
    ensures r.Ok? ==> |r.value| == DeclaredTotal(ops)
    decreases |ops|
  {
    if |ops| == 0 then Ok([])
    else
      match Contribution(ops[0], inSchema)
      case Err(e) => Err(e)
      case Ok(fs) =>
        match OutSchema(ops[1..], inSchema)
        case Err(e) => Err(e)
        case Ok(rest) => Ok(fs + rest)
  }

  /** The error a failing derivation reports is the first failing op's. */
  lemma {:induction false} OutSchemaFirstError(ops: seq<Op>, inSchema: seq<Field>)
    requires OutSchema(ops, inSchema).Err?
    ensures exists i :: && 0 <= i < |ops|
                        && Contribution(ops[i], inSchema) == Err(OutSchema(ops, inSchema).error)
                        && forall j :: 0 <= j < i ==> Contribution(ops[j], inSchema).Ok?
    decreases |ops|
  {
    if Contribution(ops[0], inSchema).Err? {
      assert Contribution(ops[0], inSchema) == Err(OutSchema(ops, inSchema).error);
    } else {
      OutSchemaFirstError(ops[1..], inSchema);
      var i :| && 0 <= i < |ops[1..]|
               && Contribution(ops[1..][i], inSchema) == Err(OutSchema(ops[1..], inSchema).error)
               && forall j :: 0 <= j < i ==> Contribution(ops[1..][j], inSchema).Ok?;
      assert ops[1..][i] == ops[i + 1];
      forall j | 0 <= j < i + 1 ensures Contribution(ops[j], inSchema).Ok? {
        if j > 0 {
          assert ops[j] == ops[1..][j - 1];
        }
      }
    }
  }

  /** Deriving for two op lists one after the other is deriving for their concatenation:
      the fields come out in op order, and an error in the first list wins. */
  lemma {:induction false} OutSchemaConcat(a: seq<Op>, b: seq<Op>, inSchema: seq<Field>)
    ensures OutSchema(a + b, inSchema) ==
              match OutSchema(a, inSchema)
              case Err(e) => Err(e)
              case Ok(x) =>
                match OutSchema(b, inSchema)
                case Err(e) => Err(e)
                case Ok(y) => Ok(x + y)
    decreases |a|
  {
    if |a| == 0 {
      assert a + b == b;
      if OutSchema(b, inSchema).Ok? {
        assert [] + OutSchema(b, inSchema).value == OutSchema(b, inSchema).value;
      }
    } else {
      assert (a + b)[0] == a[0];
      assert (a + b)[1..] == a[1..] + b;
      OutSchemaConcat(a[1..], b, inSchema);
      if Contribution(a[0], inSchema).Ok? && OutSchema(a[1..], inSchema).Ok? && OutSchema(b, inSchema).Ok? {
        var fs, x, y := Contribution(a[0], inSchema).value, OutSchema(a[1..], inSchema).value, OutSchema(b, inSchema).value;
        assert fs + (x + y) == (fs + x) + y;
      }
    }
  }

  /** A single op derives to its own contribution. */
  lemma OutSchemaSingle(op: Op, inSchema: seq<Field>)
    requires Contribution(op, inSchema).Ok?
    ensures OutSchema([op], inSchema) == Ok(Contribution(op, inSchema).value)
  {
    assert [op][1..] == [];
    assert Contribution(op, inSchema).value + [] == Contribution(op, inSchema).value;
  }

  lemma SliceMiddle<T>(x: seq<T>, c: seq<T>, y: seq<T>)
    ensures |x| + |c| <= |x + (c + y)|
    ensures (x + (c + y))[|x| .. |x| + |c|] == c
  {
  }

  /** In a successful derivation, op `i`'s contribution sits, unchanged, right after the
      fields of the ops before it. */
  lemma ContributionInPlace(ops: seq<Op>, inSchema: seq<Field>, i: nat)
    requires i < |ops|
    requires OutSchema(ops, inSchema).Ok?
    ensures var out := OutSchema(ops, inSchema).value;
            var at := DeclaredTotal(ops[..i]);
            var c := Contribution(ops[i], inSchema).value;
            at + |c| <= |out| && out[at .. at + |c|] == c
  {
    var pre, post := ops[..i], ops[i + 1..];
    assert ops == pre + ([ops[i]] + post);
    OutSchemaConcat(pre, [ops[i]] + post, inSchema);
    OutSchemaConcat([ops[i]], post, inSchema);
    var x := OutSchema(pre, inSchema).value;
    var mid := OutSchema([ops[i]] + post, inSchema).value;
    assert Contribution(ops[i], inSchema).Ok?;
    OutSchemaSingle(ops[i], inSchema);
    var c := Contribution(ops[i], inSchema).value;
    var y := OutSchema(post, inSchema).value;
    assert mid == c + y;
    assert OutSchema(ops, inSchema).value == x + (c + y);
    SliceMiddle(x, c, y);
  }

  /** The table kind of an output data type; other types are not supported. */
  function TableKind(dt: Arrow.DataType): (r: Result<Kind, RepackError>)
    ensures r.Ok? ==> r.value.ToArrow() == dt
    ensures r.Err? ==> r.error == ExternalTypeUnsupported(dt) && forall k: Kind :: k.ToArrow() != dt
  {
    match dt
    case Utf8 => Ok(String)
    case Boolean => Ok(Bool)
    case Int64 => Ok(I64)
    case Int32 => Ok(I32)
    case Float64 => Ok(F64)
    case _ => Err(ExternalTypeUnsupported(dt))
  }

  /** Writing a kind out and mapping the type back gives the kind again. */
  lemma KindRoundTrip(k: Kind)
    ensures TableKind(k.ToArrow()) == Ok(k)
  {
    ToArrowInjective(k, TableKind(k.ToArrow()).value);
  }

  /** The table field for one output field: its name and kind, never nullable, plain. */
  function ToTableField(f: OutField): (r: Result<Tables.TableField, RepackError>)
    ensures r.Ok? <==> TableKind(f.dataType).Ok?
    ensures r.Err? ==> r.error == ExternalTypeUnsupported(f.dataType)
    ensures r.Ok? ==> && r.value.name == f.name
                      && r.value.kind.ToArrow() == f.dataType
                      && !r.value.nullable
                      && r.value.encoding == Arrow.Plain
  {
    match TableKind(f.dataType)
    case Err(e) => Err(e)
    case Ok(kind) => Ok(Tables.TableField(f.name, kind, false, Arrow.Plain))
  }

  /** The table schema for the output fields, field by field and in order; the first
      unsupported type aborts. */
  function TableSchema(out: seq<OutField>): (r: Result<seq<Tables.TableField>, RepackError>)
    ensures r.Ok? <==> forall i :: 0 <= i < |out| ==> TableKind(out[i].dataType).Ok?
    ensures r.Ok? ==> |r.value| == |out|
    ensures r.Ok? ==> forall i :: 0 <= i < |out| ==>
              && r.value[i].name == out[i].name
              && r.value[i].kind.ToArrow() == out[i].dataType
              && !r.value[i].nullable
              && r.value[i].encoding == Arrow.Plain
    decreases |out|
  {
    if |out| == 0 then Ok([])
    else
      match ToTableField(out[0])
      case Err(e) => Err(e)
      case Ok(f) =>
        match TableSchema(out[1..])
        case Err(e) => Err(e)
        case Ok(rest) => Ok([f] + rest)
  }

  /** The type a failing table-schema mapping reports is the first unsupported one. */
  lemma {:induction false} TableSchemaFirstError(out: seq<OutField>)
    requires TableSchema(out).Err?
    ensures exists i :: && 0 <= i < |out|
                        && TableSchema(out).error == ExternalTypeUnsupported(out[i].dataType)
                        && TableKind(out[i].dataType).Err?
                        && forall j :: 0 <= j < i ==> TableKind(out[j].dataType).Ok?
    decreases |out|
  {
    if TableKind(out[0].dataType).Err? {
      assert TableSchema(out).error == ExternalTypeUnsupported(out[0].dataType);
    } else {
      assert ToTableField(out[0]).Ok? && TableSchema(out[1..]).Err?;
      assert TableSchema(out).error == TableSchema(out[1..]).error;
      TableSchemaFirstError(out[1..]);
      var i :| && 0 <= i < |out[1..]|
               && TableSchema(out[1..]).error == ExternalTypeUnsupported(out[1..][i].dataType)
               && TableKind(out[1..][i].dataType).Err?
               && forall j :: 0 <= j < i ==> TableKind(out[1..][j].dataType).Ok?;
      assert out[1..][i] == out[i + 1];
      forall j | 0 <= j < i + 1 ensures TableKind(out[j].dataType).Ok? {
        if j > 0 {
          assert out[j] == out[1..][j - 1];
        }
      }
      assert TableSchema(out).error == ExternalTypeUnsupported(out[i + 1].dataType);
    }
  }

  /** The pure part of `transform`: derive the output fields, then their table fields. */
  function DeriveSchema(ops: seq<Op>, inSchema: seq<Field>): (r: Result<seq<Tables.TableField>, RepackError>)
    ensures r.Ok? <==> OutSchema(ops, inSchema).Ok? && TableSchema(OutSchema(ops, inSchema).value).Ok?
    ensures r.Ok? ==> |r.value| == DeclaredTotal(ops)
    ensures r.Ok? ==> var out := OutSchema(ops, inSchema).value;
              forall i :: 0 <= i < |r.value| ==>
                && r.value[i].name == out[i].name
                && r.value[i].kind.ToArrow() == out[i].dataType
                && !r.value[i].nullable
                && r.value[i].encoding == Arrow.Plain
  {
    match OutSchema(ops, inSchema)
    case Err(e) => Err(e)
    case Ok(out) => TableSchema(out)
  }

  /** The lookup the row-group loop makes for every op before reading its column: the
      position of each op's input field, or an error naming the first missing one. */
  function ResolveInputs(ops: seq<Op>, inSchema: seq<Field>): (r: Result<seq<nat>, RepackError>)
    ensures r.Ok? <==> forall i :: 0 <= i < |ops| ==> FindField(inSchema, ops[i].input).Some?
    ensures r.Ok? ==> |r.value| == |ops| && forall i :: 0 <= i < |ops| ==>
              r.value[i] < |inSchema| && inSchema[r.value[i]].name == ops[i].input
              && r.value[i] == FindField(inSchema, ops[i].input).value.0
    decreases |ops|
  {
    if |ops| == 0 then Ok([])
    else
      match FindField(inSchema, ops[0].input)
      case None => Err(FieldNotFound(ops[0].input))
      case Some((at, _)) =>
        match ResolveInputs(ops[1..], inSchema)
        case Err(e) => Err(e)
        case Ok(rest) => Ok([at] + rest)
  }

  /** The missing field a failing lookup reports is the first op's whose input is missing. */
  lemma {:induction false} ResolveInputsFirstError(ops: seq<Op>, inSchema: seq<Field>)
    requires ResolveInputs(ops, inSchema).Err?
    ensures exists i :: && 0 <= i < |ops|
                        && ResolveInputs(ops, inSchema).error == FieldNotFound(ops[i].input)
                        && FindField(inSchema, ops[i].input).None?
                        && forall j :: 0 <= j < i ==> FindField(inSchema, ops[j].input).Some?
    decreases |ops|
  {
    if FindField(inSchema, ops[0].input).None? {
      assert ResolveInputs(ops, inSchema).error == FieldNotFound(ops[0].input);
    } else {
      assert ResolveInputs(ops[1..], inSchema).Err?;
      assert ResolveInputs(ops, inSchema).error == ResolveInputs(ops[1..], inSchema).error;
      ResolveInputsFirstError(ops[1..], inSchema);
      var i :| && 0 <= i < |ops[1..]|
               && ResolveInputs(ops[1..], inSchema).error == FieldNotFound(ops[1..][i].input)
               && FindField(inSchema, ops[1..][i].input).None?
               && forall j :: 0 <= j < i ==> FindField(inSchema, ops[1..][j].input).Some?;
      assert ops[1..][i] == ops[i + 1];
      forall j | 0 <= j < i + 1 ensures FindField(inSchema, ops[j].input).Some? {
        if j > 0 {
          assert ops[j] == ops[1..][j - 1];
        }
      }
      assert ResolveInputs(ops, inSchema).error == FieldNotFound(ops[i + 1].input);
    }
  }
}
